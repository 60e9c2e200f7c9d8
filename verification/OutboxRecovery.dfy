/** What coalescing, failing over, trialling and leasing do to the queue. */
module OutboxRecovery {
  import opened Basics
  import opened ChannelHealth
  import opened Routing
  import opened OutboxQueue
  import opened OutboxSafety

  // ---- coalescing -------------------------------------------------------------------------

  /**
   * Of an incident's pending rows on the channel only the newest survives, it carries the
   * latest fallback marker any of them held, every other one names it as its successor, and
   * nothing else in the table moves.
   */
  lemma CoalesceKeepsNewest(rows: Rows, channel: string, incident: string)
    requires PendingOf(rows, channel, incident) != {}
    ensures var after, winner := Coalesced(rows, channel), MaxOf(PendingOf(rows, channel, incident));
            && PendingOf(after, channel, incident) == {winner}
            && after[winner] == rows[winner].(fallback := LatestMarker(rows, channel, incident))
            && LatestMarker(after, channel, incident) == LatestMarker(rows, channel, incident)
            && (forall id :: id in PendingOf(rows, channel, incident) && id != winner ==>
                  after[id] == rows[id].(status := Superseded, supersededBy := Some(winner)))
    ensures forall id :: id in rows && id !in PendingOn(rows, channel) ==> Coalesced(rows, channel)[id] == rows[id]
  {
    var before := PendingOf(rows, channel, incident);
    var after, winner := Coalesced(rows, channel), MaxOf(before);
    forall id | id in before
      ensures after[id] == if id < winner then rows[id].(status := Superseded, supersededBy := Some(winner))
                           else rows[id].(fallback := LatestMarker(rows, channel, incident))
    {
      assert rows[id].incident in Incidents(rows);
    }
    assert PendingOf(after, channel, incident) == {winner};
    var marked := MarkedOf(after, channel, incident);
    if LatestMarker(rows, channel, incident).Some? {
      assert marked == {winner};
    } else {
      assert marked == {};
    }
  }

  /** Coalescing what is already coalesced changes nothing. */
  lemma CoalesceIsIdempotent(rows: Rows, channel: string)
    ensures Coalesced(Coalesced(rows, channel), channel) == Coalesced(rows, channel)
  {
    var once := Coalesced(rows, channel);
    var twice := Coalesced(once, channel);
    forall id | id in once ensures twice[id] == once[id] {
      if id in PendingOn(once, channel) {
        var incident := once[id].incident;
        assert id in PendingOf(rows, channel, incident);
        CoalesceKeepsNewest(rows, channel, incident);
        assert PendingOf(once, channel, incident) == {id};
        CoalesceKeepsNewest(once, channel, incident);
      }
    }
  }

  /** Coalescing one channel never touches a row of another one, nor which rows wait on it. */
  lemma CoalesceIsLocal(rows: Rows, channel: string, other: string)
    requires other != channel
    ensures Coalesced(rows, channel).Keys == rows.Keys
    ensures forall id :: id in rows && rows[id].channel == other ==> Coalesced(rows, channel)[id] == rows[id]
    ensures PendingOn(Coalesced(rows, channel), other) == PendingOn(rows, other)
  {
    CoalescedExtends(rows, channel);
  }

  // ---- the half-open allowance ----------------------------------------------------------------

  /** A channel on trial gets at most its allowance, and a row is held back only once it is used up. */
  lemma {:induction false} TrimRespectsAllowance(
      rows: Rows, batch: seq<nat>, halfOpen: set<string>, allowance: nat, channel: string)
    requires forall id :: id in batch ==> id in rows
    requires channel in halfOpen
    ensures var kept := Trimmed(rows, batch, halfOpen, allowance);
            OnChannel(rows, kept, channel)
            == if OnChannel(rows, batch, channel) <= allowance then OnChannel(rows, batch, channel) else allowance
  {
    if batch != [] {
      var init, last := batch[..|batch| - 1], batch[|batch| - 1];
      TrimRespectsAllowance(rows, init, halfOpen, allowance, channel);
      var kept := Trimmed(rows, init, halfOpen, allowance);
      assert (kept + [last])[..|kept|] == kept;
    }
  }

  /** Rows of channels that are not on trial are all dispatched. */
  lemma {:induction false} TrimSparesHealthyChannels(
      rows: Rows, batch: seq<nat>, halfOpen: set<string>, allowance: nat, id: nat)
    requires forall x :: x in batch ==> x in rows
    requires id in batch && rows[id].channel !in halfOpen
    ensures id in Trimmed(rows, batch, halfOpen, allowance)
  {
    var init, last := batch[..|batch| - 1], batch[|batch| - 1];
    assert batch == init + [last];
    if id in init { TrimSparesHealthyChannels(rows, init, halfOpen, allowance, id); }
  }

  // ---- the queue order ---------------------------------------------------------------------------

  /** What is claimed is exactly a prefix of the queue: nothing left behind goes before it. */
  lemma {:induction false} InOrderIsForemost(rows: Rows, ids: set<nat>, limit: nat)
    requires ids <= rows.Keys
    ensures var picked := InOrder(rows, ids, limit);
            && |picked| == (if |ids| <= limit then |ids| else limit)
            && (forall i, j :: 0 <= i < j < |picked| ==> Before(rows, picked[i], picked[j]))
            && (forall i, x :: 0 <= i < |picked| && x in ids && x !in picked ==> Before(rows, picked[i], x))
    decreases limit
  {
    if ids != {} && limit > 0 {
      var first := Foremost(rows, ids);
      InOrderIsForemost(rows, ids - {first}, limit - 1);
      var rest := InOrder(rows, ids - {first}, limit - 1);
      var picked := InOrder(rows, ids, limit);
      assert picked == [first] + rest;
      forall i, j | 0 <= i < j < |picked| ensures Before(rows, picked[i], picked[j]) {
        assert picked[j] == rest[j - 1];
        if i > 0 { assert picked[i] == rest[i - 1]; }
      }
      forall i, x | 0 <= i < |picked| && x in ids && x !in picked ensures Before(rows, picked[i], x) {
        assert picked[0] == first;
        if i > 0 { assert picked[i] == rest[i - 1] && x !in rest; }
      }
    }
  }

  // ---- failover ---------------------------------------------------------------------------------------

  ghost predicate Moves(row: Row, channel: string, available: set<string>) {
    IsFailoverWorthy(row.priority) && SelectFailover(channel, row.action, available).Some?
  }

  /** How many of the first `k` rows read are re-routed. */
  ghost function MovesAmong(rows: Rows, ids: seq<nat>, k: nat, channel: string, available: set<string>): nat
    requires k <= |ids| && forall id :: id in ids ==> id in rows
  {
    if k == 0 then 0
    else MovesAmong(rows, ids, k - 1, channel, available) + if Moves(rows[ids[k - 1]], channel, available) then 1 else 0
  }

  /** The stand-in the row read at position `i` gets, and the id it gets it under. */
  ghost predicate HasStandIn(
      db: Db, after: Db, ids: seq<nat>, i: nat, channel: string, available: set<string>, now: int)
    requires i < |ids| && forall id :: id in ids ==> id in db.rows
    requires Moves(db.rows[ids[i]], channel, available)
  {
    var row := db.rows[ids[i]];
    var target := SelectFailover(channel, row.action, available).value;
    var n := db.nextId + MovesAmong(db.rows, ids, i, channel, available);
    n in after.rows && after.rows[n] == StandIn(row, ids[i], target, channel, now)
  }

  /** A moved row stays queued, marked with the channel that took it; any other row is untouched. */
  ghost function MarkedRow(row: Row, channel: string, available: set<string>): Row {
    if Moves(row, channel, available)
    then row.(fallback := Some(SelectFailover(channel, row.action, available).value.channel))
    else row
  }

  /** How many stand-ins exist and under which ids. */
  ghost predicate MovedCount(
      db: Db, after: Db, ids: seq<nat>, k: nat, channel: string, available: set<string>)
    requires k <= |ids| && forall id :: id in ids ==> id in db.rows
  {
    && after.nextId == db.nextId + MovesAmong(db.rows, ids, k, channel, available)
    && (forall id :: id in after.rows <==> id in db.rows || db.nextId <= id < after.nextId)
  }

  /** What became of the rows that were there before. */
  ghost predicate MovedMarks(
      db: Db, after: Db, ids: seq<nat>, k: nat, channel: string, available: set<string>)
    requires k <= |ids|
  {
    forall id :: id in db.rows ==>
      && id in after.rows
      && after.rows[id] == if id in ids[..k] then MarkedRow(db.rows[id], channel, available) else db.rows[id]
  }

  ghost predicate MovedStandIns(
      db: Db, after: Db, ids: seq<nat>, k: nat, channel: string, available: set<string>, now: int)
    requires k <= |ids| && forall id :: id in ids ==> id in db.rows
  {
    forall i :: 0 <= i < k && Moves(db.rows[ids[i]], channel, available) ==>
      HasStandIn(db, after, ids, i, channel, available, now)
  }

  /** One row read is re-routed or not, and nothing else is inserted. */
  lemma MoveOneCounts(db: Db, rows0: Rows, id: nat, channel: string, available: set<string>, now: int)
    requires id in rows0 && id in db.rows
    ensures var after := MoveOne(db, rows0, id, channel, available, now);
            if Moves(rows0[id], channel, available)
            then after.nextId == db.nextId + 1 && after.rows.Keys == db.rows.Keys + {db.nextId}
            else after == db
  {
  }

  lemma {:induction false} CountIsExact(
      db: Db, ids: seq<nat>, k: nat, channel: string, available: set<string>, now: int)
    requires k <= |ids| && forall id :: id in ids ==> id in db.rows
    ensures MovedCount(db, MovedUpTo(db, ids, k, channel, available, now), ids, k, channel, available)
  {
    if k > 0 {
      CountIsExact(db, ids, k - 1, channel, available, now);
      assert ids[k - 1] in db.rows;
      MoveOneCounts(MovedUpTo(db, ids, k - 1, channel, available, now), db.rows, ids[k - 1], channel, available, now);
    }
  }

  lemma {:induction false} MarksAreExact(
      db: Db, ids: seq<nat>, k: nat, channel: string, available: set<string>, now: int)
    requires k <= |ids| && forall id :: id in ids ==> id in db.rows
    requires Distinct(ids) && forall id :: id in db.rows ==> id < db.nextId
    ensures MovedMarks(db, MovedUpTo(db, ids, k, channel, available, now), ids, k, channel, available)
  {
    if k == 0 {
      assert ids[..0] == [];
    } else {
      var before := MovedUpTo(db, ids, k - 1, channel, available, now);
      assert ids[k - 1] in db.rows;
      MarksAreExact(db, ids, k - 1, channel, available, now);
      LastIsNew(ids, k - 1);
      MovedMarksStep(db, before, ids, k - 1, channel, available, now);
    }
  }

  /** Moving one row changes its own marker, and adds at most a row beyond those there. */
  lemma MoveOneMarks(db: Db, rows0: Rows, id: nat, channel: string, available: set<string>, now: int, other: nat)
    requires id in rows0 && id in db.rows && other in db.rows && other < db.nextId && id < db.nextId
    requires db.rows[id] == rows0[id]
    ensures var after := MoveOne(db, rows0, id, channel, available, now);
            && other in after.rows
            && after.rows[other] == if other == id then MarkedRow(rows0[id], channel, available) else db.rows[other]
  {
  }

  lemma MovedMarksStep(
      db: Db, before: Db, ids: seq<nat>, k: nat, channel: string, available: set<string>, now: int)
    requires k < |ids| && ids[k] in db.rows && ids[k] in before.rows && ids[k] !in ids[..k]
    requires forall id :: id in db.rows ==> id < db.nextId
    requires db.nextId <= before.nextId
    requires MovedMarks(db, before, ids, k, channel, available)
    ensures MovedMarks(db, MoveOne(before, db.rows, ids[k], channel, available, now), ids, k + 1, channel, available)
  {
    forall id | id in db.rows
      ensures var after := MoveOne(before, db.rows, ids[k], channel, available, now);
              && id in after.rows
              && after.rows[id] == if id in ids[..k + 1] then MarkedRow(db.rows[id], channel, available) else db.rows[id]
    {
      assert ids[..k + 1] == ids[..k] + [ids[k]];
      MoveOneMarks(before, db.rows, ids[k], channel, available, now, id);
    }
  }

  lemma LastIsNew(ids: seq<nat>, k: nat)
    requires Distinct(ids) && k < |ids|
    ensures ids[k] !in ids[..k]
  {
    forall i | 0 <= i < k ensures ids[i] != ids[k] {}
  }

  lemma InsertedStandIn(
      db: Db, before: Db, ids: seq<nat>, i: nat, channel: string, available: set<string>, now: int)
    requires i < |ids| && forall id :: id in ids ==> id in db.rows
    requires ids[i] in before.rows && ids[i] < db.nextId
    requires Moves(db.rows[ids[i]], channel, available)
    requires before.nextId == db.nextId + MovesAmong(db.rows, ids, i, channel, available)
    ensures HasStandIn(db, MoveOne(before, db.rows, ids[i], channel, available, now), ids, i, channel, available, now)
  {
  }

  lemma {:induction false} OneHasStandIn(
      db: Db, ids: seq<nat>, k: nat, i: nat, channel: string, available: set<string>, now: int)
    requires i < k <= |ids| && forall id :: id in ids ==> id in db.rows
    requires forall id :: id in db.rows ==> id < db.nextId
    requires Moves(db.rows[ids[i]], channel, available)
    ensures HasStandIn(db, MovedUpTo(db, ids, k, channel, available, now), ids, i, channel, available, now)
  {
    var before := MovedUpTo(db, ids, k - 1, channel, available, now);
    assert before.nextId == db.nextId + MovesAmong(db.rows, ids, k - 1, channel, available) by {
      CountIsExact(db, ids, k - 1, channel, available, now);
    }
    assert ids[k - 1] in db.rows;
    if i == k - 1 {
      InsertedStandIn(db, before, ids, i, channel, available, now);
    } else {
      OneHasStandIn(db, ids, k - 1, i, channel, available, now);
      KeptStandIn(db, before, ids, k - 1, i, channel, available, now);
    }
  }

  lemma KeptStandIn(
      db: Db, before: Db, ids: seq<nat>, k: nat, i: nat, channel: string, available: set<string>, now: int)
    requires i < k < |ids| && forall id :: id in ids ==> id in db.rows
    requires ids[k] in before.rows && ids[k] < db.nextId
    requires Moves(db.rows[ids[i]], channel, available)
    requires before.nextId == db.nextId + MovesAmong(db.rows, ids, k, channel, available)
    requires HasStandIn(db, before, ids, i, channel, available, now)
    ensures HasStandIn(db, MoveOne(before, db.rows, ids[k], channel, available, now), ids, i, channel, available, now)
  {
    MovesAmongGrows(db.rows, ids, i + 1, k, channel, available);
  }

  lemma {:induction false} MovesAmongGrows(
      rows: Rows, ids: seq<nat>, i: nat, j: nat, channel: string, available: set<string>)
    requires i <= j <= |ids| && forall id :: id in ids ==> id in rows
    ensures MovesAmong(rows, ids, i, channel, available) <= MovesAmong(rows, ids, j, channel, available)
    decreases j - i
  {
    if i < j { MovesAmongGrows(rows, ids, i, j - 1, channel, available); }
  }

  /**
   * Failing over moves exactly the urgent rows that have a healthy fallback: each gets one
   * stand-in and stays queued under a marker, and no other row changes.
   */
  lemma StandInsAreExact(db: Db, ids: seq<nat>, channel: string, available: set<string>, now: int)
    requires forall id :: id in ids ==> id in db.rows
    requires Distinct(ids) && forall id :: id in db.rows ==> id < db.nextId
    ensures var after := MovedUpTo(db, ids, |ids|, channel, available, now);
            && MovedCount(db, after, ids, |ids|, channel, available)
            && MovedMarks(db, after, ids, |ids|, channel, available)
            && MovedStandIns(db, after, ids, |ids|, channel, available, now)
  {
    CountIsExact(db, ids, |ids|, channel, available, now);
    MarksAreExact(db, ids, |ids|, channel, available, now);
    forall i | 0 <= i < |ids| && Moves(db.rows[ids[i]], channel, available)
      ensures HasStandIn(db, MovedUpTo(db, ids, |ids|, channel, available, now), ids, i, channel, available, now)
    {
      OneHasStandIn(db, ids, |ids|, i, channel, available, now);
    }
  }
}
