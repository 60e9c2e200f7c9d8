/** Failing a channel's urgent rows over (src/outbox/worker.py, src/outbox/routing.py). */
module OutboxFailover {
  import opened Basics
  import opened ChannelHealth
  import opened Routing
  import opened OutboxQueue
  import Safety = OutboxSafety
  import opened OutboxRecovery
  import Theorems = OutboxTheorems

  // ---- where rows go --------------------------------------------------------------------------

  /** A channel that was never written is up. */
  predicate IsUp(health: map<string, ChannelState>, c: string) {
    c in health ==> !health[c].state.Open?
  }

  /** Chat goes to paging and paging to chat, else either to mail; mail goes nowhere. */
  function Fallback(health: map<string, ChannelState>, channel: string): Option<string> {
    if channel == "slack" then
      if IsUp(health, "pagerduty") then Some("pagerduty") else if IsUp(health, "email") then Some("email") else None
    else if channel == "pagerduty" then
      if IsUp(health, "slack") then Some("slack") else if IsUp(health, "email") then Some("email") else None
    else None
  }

  lemma FallbackIsSelected(health: map<string, ChannelState>, channel: string, action: Action)
    ensures SelectFailover(channel, action, AvailableChannels(health) - {channel})
         == match Fallback(health, channel)
            case None => None
            case Some(t) => Some(Target(t, if t == "pagerduty" && action.Update? then Create else action))
  {
    var available, chain := AvailableChannels(health) - {channel}, FailoverChain(channel);
    assert forall c :: c in ["slack", "pagerduty", "email"] && c != channel ==> (c in available <==> IsUp(health, c));
    if channel == "slack" || channel == "pagerduty" {
      assert chain[1..][1..] == [];
    }
  }

  // ---- which rows go --------------------------------------------------------------------------

  /** Queued on the channel, not a stand-in, and of priority 0 or 1. */
  predicate IsUrgent(row: Row, channel: string) {
    row.status.Pending? && row.channel == channel && row.failoverOf.None? && row.priority <= 1
  }

  function Urgent(rows: Rows, channel: string): set<nat> {
    set id | id in rows && IsUrgent(rows[id], channel)
  }

  lemma {:induction false} InOrderTakesAll(rows: Rows, ids: set<nat>, limit: nat)
    requires ids <= rows.Keys && |ids| <= limit
    ensures forall id :: id in ids <==> id in InOrder(rows, ids, limit)
    decreases limit
  {
    if ids != {} {
      var first := Foremost(rows, ids);
      InOrderTakesAll(rows, ids - {first}, limit - 1);
    }
  }

  lemma QueueIsAll(rows: Rows, channel: string)
    ensures forall id :: id in FailOverQueue(rows, channel) <==>
              id in rows && rows[id].status.Pending? && rows[id].channel == channel && rows[id].failoverOf.None?
  {
    var originals := Originals(rows, channel);
    InOrderTakesAll(rows, originals, |originals|);
  }

  lemma QueueIsInOrder(rows: Rows, channel: string, i: nat, j: nat)
    requires i < j < |FailOverQueue(rows, channel)|
    ensures var ids := FailOverQueue(rows, channel); Before(rows, ids[i], ids[j])
  {
    var originals := Originals(rows, channel);
    InOrderIsForemost(rows, originals, |originals|);
  }

  lemma WhoMoves(db: Db, channel: string, id: nat)
    requires id in FailOverQueue(db.rows, channel) && id in db.rows
    ensures Moves(db.rows[id], channel, AvailableChannels(db.health) - {channel}) <==>
              IsUrgent(db.rows[id], channel) && Fallback(db.health, channel).Some?
  {
    FallbackIsSelected(db.health, channel, db.rows[id].action);
  }

  // ---- counting stand-ins -----------------------------------------------------------------------

  /** The rows of the queue up to place `k` that move. */
  ghost function MovingUpTo(rows: Rows, ids: seq<nat>, k: nat, channel: string, available: set<string>): set<nat>
    requires k <= |ids|
  {
    set id | id in ids[..k] && id in rows && Moves(rows[id], channel, available)
  }

  lemma MovingGrows(rows: Rows, ids: seq<nat>, k: nat, channel: string, available: set<string>)
    requires k < |ids| && (forall id :: id in ids ==> id in rows) && Safety.Distinct(ids)
    ensures |MovingUpTo(rows, ids, k + 1, channel, available)|
         == |MovingUpTo(rows, ids, k, channel, available)| + (if Moves(rows[ids[k]], channel, available) then 1 else 0)
  {
    var before := MovingUpTo(rows, ids, k, channel, available);
    LastIsNew(ids, k);
    assert ids[..k + 1] == ids[..k] + [ids[k]];
    assert MovingUpTo(rows, ids, k + 1, channel, available)
        == before + (if Moves(rows[ids[k]], channel, available) then {ids[k]} else {});
  }

  lemma {:induction false} MovesAmongCounts(rows: Rows, ids: seq<nat>, k: nat, channel: string, available: set<string>)
    requires k <= |ids| && (forall id :: id in ids ==> id in rows) && Safety.Distinct(ids)
    ensures MovesAmong(rows, ids, k, channel, available) == |MovingUpTo(rows, ids, k, channel, available)|
  {
    if k == 0 {
      assert MovingUpTo(rows, ids, 0, channel, available) == {};
    } else {
      MovesAmongCounts(rows, ids, k - 1, channel, available);
      MovingGrows(rows, ids, k - 1, channel, available);
    }
  }

  /** Which place of the queue got the `m`th stand-in. */
  lemma {:induction false} WhoGotIt(rows: Rows, ids: seq<nat>, k: nat, m: nat, channel: string, available: set<string>)
      returns (i: nat)
    requires k <= |ids| && (forall id :: id in ids ==> id in rows) && m < MovesAmong(rows, ids, k, channel, available)
    ensures i < k && Moves(rows[ids[i]], channel, available) && MovesAmong(rows, ids, i, channel, available) == m
  {
    if m < MovesAmong(rows, ids, k - 1, channel, available) {
      i := WhoGotIt(rows, ids, k - 1, m, channel, available);
    } else {
      i := k - 1;
    }
  }

  // ---- the table after it -------------------------------------------------------------------------

  /** The row that stands in for row `id`. */
  function StandsIn(rows: Rows, id: nat, channel: string, target: string, now: int): Row
    requires id in rows
  {
    var row := rows[id];
    Row(row.incident, target, if target == "pagerduty" && row.action.Update? then Create else row.action, row.fallback,
        Pending, 0, now, row.priority, None, None, Some(id), channel, None)
  }

  /** Old rows: the urgent ones marked with where they went, all others as they were. */
  ghost predicate OldRowsMarked(db: Db, rows: Rows, channel: string, target: string) {
    forall id :: id in db.rows ==>
      && id in rows
      && rows[id] == if IsUrgent(db.rows[id], channel) then db.rows[id].(fallback := Some(target)) else db.rows[id]
  }

  /** New rows: one for each urgent row, numbered on in queue order. */
  ghost predicate NewRowsStandIn(db: Db, rows: Rows, nextId: nat, channel: string, target: string, now: int) {
    && nextId == db.nextId + |Urgent(db.rows, channel)|
    && (forall n :: n in rows && n !in db.rows <==> db.nextId <= n < nextId)
    && (forall n :: db.nextId <= n < nextId ==> IsStandIn(db, rows, n, channel, target, now))
    && (forall n, m :: db.nextId <= n < m < nextId ==> OriginalsInOrder(db, rows, n, m))
    && (forall id :: id in Urgent(db.rows, channel) ==> HasOne(db, rows, nextId, id))
  }

  ghost predicate IsStandIn(db: Db, rows: Rows, n: nat, channel: string, target: string, now: int) {
    && n in rows && rows[n].failoverOf.Some?
    && var id := rows[n].failoverOf.value;
       id in db.rows && IsUrgent(db.rows[id], channel) && rows[n] == StandsIn(db.rows, id, channel, target, now)
  }

  /** The rows two new ones stand in for, the earlier first. */
  ghost predicate OriginalsInOrder(db: Db, rows: Rows, n: nat, m: nat) {
    && n in rows && m in rows && rows[n].failoverOf.Some? && rows[m].failoverOf.Some?
    && var a, b := rows[n].failoverOf.value, rows[m].failoverOf.value;
       && a in db.rows && b in db.rows
       && (db.rows[a].priority < db.rows[b].priority || (db.rows[a].priority == db.rows[b].priority && a < b))
  }

  ghost predicate HasOne(db: Db, rows: Rows, nextId: nat, id: nat) {
    exists n :: db.nextId <= n < nextId && n in rows && rows[n].failoverOf == Some(id)
  }

  /** The channel's open outage, the newest if there were more, counts them. */
  ghost predicate OutageCounts(db: Db, after: Db, channel: string) {
    && |after.outages| == |db.outages|
    && forall i :: 0 <= i < |db.outages| ==>
         after.outages[i] == if CurrentOutage(db.outages, channel) == Some(i)
           then db.outages[i].(failedOver := db.outages[i].failedOver + |Urgent(db.rows, channel)|) else db.outages[i]
  }

  ghost predicate IsQueue(db: Db, ids: seq<nat>, channel: string) {
    && (forall id :: id in ids <==> id in db.rows && db.rows[id].status.Pending? && db.rows[id].channel == channel
                                    && db.rows[id].failoverOf.None?)
    && (forall i, j :: 0 <= i < j < |ids| ==> ids[i] != ids[j] && Before(db.rows, ids[i], ids[j]))
  }

  lemma MovingIsUrgent(db: Db, ids: seq<nat>, channel: string)
    requires ids == FailOverQueue(db.rows, channel) && Fallback(db.health, channel).Some?
    ensures MovesAmong(db.rows, ids, |ids|, channel, AvailableChannels(db.health) - {channel})
         == |Urgent(db.rows, channel)|
  {
    var available := AvailableChannels(db.health) - {channel};
    QueueIsAll(db.rows, channel);
    MovesAmongCounts(db.rows, ids, |ids|, channel, available);
    forall id ensures id in MovingUpTo(db.rows, ids, |ids|, channel, available) <==> id in Urgent(db.rows, channel) {
      if id in ids { WhoMoves(db, channel, id); }
    }
    assert ids[..|ids|] == ids;
    assert MovingUpTo(db.rows, ids, |ids|, channel, available) == Urgent(db.rows, channel);
  }

  lemma MarkedRowIs(db: Db, id: nat, channel: string)
    requires id in FailOverQueue(db.rows, channel) && id in db.rows
    ensures MarkedRow(db.rows[id], channel, AvailableChannels(db.health) - {channel})
         == if IsUrgent(db.rows[id], channel) && Fallback(db.health, channel).Some?
            then db.rows[id].(fallback := Fallback(db.health, channel)) else db.rows[id]
  {
    WhoMoves(db, channel, id);
    FallbackIsSelected(db.health, channel, db.rows[id].action);
  }

  /** The rows `FailOver` moves, before the outage counts them. */
  ghost function Moved(db: Db, channel: string, now: int): Db {
    var ids := FailOverQueue(db.rows, channel);
    MovedUpTo(db, ids, |ids|, channel, AvailableChannels(db.health) - {channel}, now)
  }

  lemma OldRowsAre(db: Db, channel: string, now: int)
    requires forall id :: id in db.rows ==> id < db.nextId
    ensures forall id :: id in db.rows ==>
              && id in Moved(db, channel, now).rows
              && Moved(db, channel, now).rows[id]
                 == if IsUrgent(db.rows[id], channel) && Fallback(db.health, channel).Some?
                    then db.rows[id].(fallback := Fallback(db.health, channel)) else db.rows[id]
  {
    var ids, available := FailOverQueue(db.rows, channel), AvailableChannels(db.health) - {channel};
    QueueIsAll(db.rows, channel);
    MarksAreExact(db, ids, |ids|, channel, available, now);
    assert ids[..|ids|] == ids;
    forall id | id in ids
      ensures MarkedRow(db.rows[id], channel, available)
           == if IsUrgent(db.rows[id], channel) && Fallback(db.health, channel).Some?
              then db.rows[id].(fallback := Fallback(db.health, channel)) else db.rows[id]
    {
      MarkedRowIs(db, id, channel);
    }
  }

  lemma StandInIs(db: Db, channel: string, target: string, now: int, i: nat)
    requires forall id :: id in db.rows ==> id < db.nextId
    requires Fallback(db.health, channel) == Some(target)
    requires var ids := FailOverQueue(db.rows, channel); i < |ids| && IsUrgent(db.rows[ids[i]], channel)
    ensures var ids := FailOverQueue(db.rows, channel);
            var n := db.nextId + MovesAmong(db.rows, ids, i, channel, AvailableChannels(db.health) - {channel});
            n in Moved(db, channel, now).rows
            && Moved(db, channel, now).rows[n] == StandsIn(db.rows, ids[i], channel, target, now)
  {
    var ids, available := FailOverQueue(db.rows, channel), AvailableChannels(db.health) - {channel};
    WhoMoves(db, channel, ids[i]);
    FallbackIsSelected(db.health, channel, db.rows[ids[i]].action);
    OneHasStandIn(db, ids, |ids|, i, channel, available, now);
  }

  /** Which place of the queue row `n` stands in for. */
  lemma StandInOf(db: Db, channel: string, target: string, n: nat) returns (i: nat)
    requires Fallback(db.health, channel) == Some(target)
    requires db.nextId <= n < db.nextId + |Urgent(db.rows, channel)|
    ensures var ids := FailOverQueue(db.rows, channel);
            && i < |ids| && IsUrgent(db.rows[ids[i]], channel)
            && n == db.nextId + MovesAmong(db.rows, ids, i, channel, AvailableChannels(db.health) - {channel})
  {
    var ids, available := FailOverQueue(db.rows, channel), AvailableChannels(db.health) - {channel};
    MovingIsUrgent(db, ids, channel);
    i := WhoGotIt(db.rows, ids, |ids|, n - db.nextId, channel, available);
    WhoMoves(db, channel, ids[i]);
  }

  lemma StandInAt(db: Db, channel: string, target: string, now: int, n: nat) returns (i: nat)
    requires forall id :: id in db.rows ==> id < db.nextId
    requires Fallback(db.health, channel) == Some(target)
    requires db.nextId <= n < db.nextId + |Urgent(db.rows, channel)|
    ensures var ids, rows := FailOverQueue(db.rows, channel), Moved(db, channel, now).rows;
            && IsStandIn(db, rows, n, channel, target, now)
            && i < |ids| && rows[n].failoverOf == Some(ids[i])
            && n == db.nextId + MovesAmong(db.rows, ids, i, channel, AvailableChannels(db.health) - {channel})
  {
    i := StandInOf(db, channel, target, n);
    StandInIs(db, channel, target, now, i);
  }

  lemma LaterPlaces(rows: Rows, channel: string, available: set<string>, i: nat, j: nat)
    requires i < |FailOverQueue(rows, channel)| && j < |FailOverQueue(rows, channel)|
    requires var ids := FailOverQueue(rows, channel);
             MovesAmong(rows, ids, i, channel, available) < MovesAmong(rows, ids, j, channel, available)
    ensures var ids := FailOverQueue(rows, channel); Before(rows, ids[i], ids[j])
  {
    if j < i { MovesAmongGrows(rows, FailOverQueue(rows, channel), j, i, channel, available); }
    QueueIsInOrder(rows, channel, i, j);
  }

  lemma StandInsInOrder(db: Db, channel: string, target: string, now: int, n: nat, m: nat)
    requires forall id :: id in db.rows ==> id < db.nextId
    requires Fallback(db.health, channel) == Some(target)
    requires db.nextId <= n < m < db.nextId + |Urgent(db.rows, channel)|
    ensures OriginalsInOrder(db, Moved(db, channel, now).rows, n, m)
  {
    var i := StandInAt(db, channel, target, now, n);
    var j := StandInAt(db, channel, target, now, m);
    LaterPlaces(db.rows, channel, AvailableChannels(db.health) - {channel}, i, j);
  }

  lemma PlaceOf(db: Db, channel: string, target: string, id: nat) returns (i: nat)
    requires Fallback(db.health, channel) == Some(target) && id in Urgent(db.rows, channel)
    ensures var ids, available := FailOverQueue(db.rows, channel), AvailableChannels(db.health) - {channel};
            && i < |ids| && ids[i] == id
            && MovesAmong(db.rows, ids, i, channel, available) < |Urgent(db.rows, channel)|
  {
    var ids, available := FailOverQueue(db.rows, channel), AvailableChannels(db.health) - {channel};
    QueueIsAll(db.rows, channel);
    assert id in ids;
    i :| 0 <= i < |ids| && ids[i] == id;
    WhoMoves(db, channel, id);
    MovesAmongGrows(db.rows, ids, i + 1, |ids|, channel, available);
    MovingIsUrgent(db, ids, channel);
  }

  lemma UrgentHasOne(db: Db, channel: string, target: string, now: int, id: nat)
    requires forall x :: x in db.rows ==> x < db.nextId
    requires Fallback(db.health, channel) == Some(target) && id in Urgent(db.rows, channel)
    ensures HasOne(db, Moved(db, channel, now).rows, db.nextId + |Urgent(db.rows, channel)|, id)
  {
    var i := PlaceOf(db, channel, target, id);
    StandInIs(db, channel, target, now, i);
  }

  lemma NewIdsAre(db: Db, channel: string, now: int)
    requires forall id :: id in db.rows ==> id < db.nextId
    requires Fallback(db.health, channel).Some?
    ensures var after := Moved(db, channel, now);
            && after.nextId == db.nextId + |Urgent(db.rows, channel)|
            && forall n :: n in after.rows && n !in db.rows <==> db.nextId <= n < after.nextId
  {
    var ids := FailOverQueue(db.rows, channel);
    CountIsExact(db, ids, |ids|, channel, AvailableChannels(db.health) - {channel}, now);
    MovingIsUrgent(db, ids, channel);
  }

  lemma NewRowsAre(db: Db, channel: string, target: string, now: int)
    requires forall id :: id in db.rows ==> id < db.nextId
    requires Fallback(db.health, channel) == Some(target)
    ensures NewRowsStandIn(db, Moved(db, channel, now).rows, Moved(db, channel, now).nextId, channel, target, now)
  {
    var rows, nextId := Moved(db, channel, now).rows, Moved(db, channel, now).nextId;
    NewIdsAre(db, channel, now);
    forall n | db.nextId <= n < nextId ensures IsStandIn(db, rows, n, channel, target, now) {
      var i := StandInAt(db, channel, target, now, n);
    }
    forall n, m | db.nextId <= n < m < nextId ensures OriginalsInOrder(db, rows, n, m) {
      StandInsInOrder(db, channel, target, now, n, m);
    }
    forall id | id in Urgent(db.rows, channel) ensures HasOne(db, rows, nextId, id) {
      UrgentHasOne(db, channel, target, now, id);
    }
  }

  lemma RowsAre(db: Db, channel: string, target: string, now: int)
    requires forall id :: id in db.rows ==> id < db.nextId
    requires Fallback(db.health, channel) == Some(target)
    ensures var after := Moved(db, channel, now);
            && OldRowsMarked(db, after.rows, channel, target)
            && NewRowsStandIn(db, after.rows, after.nextId, channel, target, now)
  {
    NewRowsAre(db, channel, target, now);
    OldRowsAre(db, channel, now);
  }

  lemma {:induction false} NoneMoves(db: Db, ids: seq<nat>, k: nat, channel: string, available: set<string>, now: int)
    requires k <= |ids| && (forall id :: id in ids ==> id in db.rows)
    requires forall id :: id in ids ==> !Moves(db.rows[id], channel, available)
    ensures MovedUpTo(db, ids, k, channel, available, now) == db
  {
    if k > 0 {
      NoneMoves(db, ids, k - 1, channel, available, now);
      assert ids[k - 1] in ids;
    }
  }

  lemma NothingMoves(db: Db, channel: string, now: int)
    requires Fallback(db.health, channel).None?
    ensures FailOver(db, channel, now) == db
  {
    var ids, available := FailOverQueue(db.rows, channel), AvailableChannels(db.health) - {channel};
    if available != {} {
      forall id | id in ids ensures !Moves(db.rows[id], channel, available) { WhoMoves(db, channel, id); }
      NoneMoves(db, ids, |ids|, channel, available, now);
      CountsNone(db.outages, channel);
    }
  }

  lemma CountsNone(outages: seq<Outage>, channel: string)
    ensures CountFailedOver(outages, channel, 0) == outages
  {
    match CurrentOutage(outages, channel)
    case None =>
    case Some(i) => assert outages[i].(failedOver := outages[i].failedOver + 0) == outages[i];
  }

  lemma FailOverIsMoved(db: Db, channel: string, now: int)
    requires Fallback(db.health, channel).Some?
    ensures var moved := Moved(db, channel, now);
            && db.nextId <= moved.nextId
            && FailOver(db, channel, now)
               == moved.(outages := CountFailedOver(moved.outages, channel, moved.nextId - db.nextId))
  {
    assert Fallback(db.health, channel).value in AvailableChannels(db.health) - {channel};
  }

  lemma MovingKeepsChannels(db: Db, channel: string, now: int)
    ensures Moved(db, channel, now).outages == db.outages && Moved(db, channel, now).health == db.health
  {
    var ids, available := FailOverQueue(db.rows, channel), AvailableChannels(db.health) - {channel};
    Theorems.MovedOutages(db, ids, |ids|, channel, available, now);
    Theorems.MovedHealth(db, ids, |ids|, channel, available, now);
  }

  lemma OutageCountsMoved(db: Db, channel: string, now: int)
    requires Fallback(db.health, channel).Some?
    requires Moved(db, channel, now).nextId == db.nextId + |Urgent(db.rows, channel)|
    ensures var after, moved := FailOver(db, channel, now), Moved(db, channel, now);
            && after.rows == moved.rows && after.nextId == moved.nextId && after.health == db.health
            && OutageCounts(db, after, channel)
  {
    FailOverIsMoved(db, channel, now);
    MovingKeepsChannels(db, channel, now);
  }

  /**
   * Failing a channel over, in one statement about the tables: if the channel has a fallback
   * that is up, every urgent row queued on it is marked with that channel and gets exactly one
   * stand-in there, nothing else changes but the count in the open outage; if it has none,
   * nothing changes at all.
   */
  lemma FailOverIsExact(db: Db, channel: string, now: int)
    requires forall id :: id in db.rows ==> id < db.nextId
    ensures match Fallback(db.health, channel)
            case None => FailOver(db, channel, now) == db
            case Some(target) =>
              && OldRowsMarked(db, FailOver(db, channel, now).rows, channel, target)
              && NewRowsStandIn(db, FailOver(db, channel, now).rows, FailOver(db, channel, now).nextId, channel, target, now)
              && OutageCounts(db, FailOver(db, channel, now), channel)
              && FailOver(db, channel, now).health == db.health
  {
    if Fallback(db.health, channel).None? {
      NothingMoves(db, channel, now);
    } else {
      NewIdsAre(db, channel, now);
      OutageCountsMoved(db, channel, now);
      RowsAre(db, channel, Fallback(db.health, channel).value, now);
    }
  }
}
