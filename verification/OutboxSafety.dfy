/** The inductive invariant of `OutboxRuns` and what it says about every run. */
module OutboxSafety {
  import opened Basics
  import opened ChannelHealth
  import opened Routing
  import opened OutboxQueue
  import opened OutboxRuns

  // ---- tables -------------------------------------------------------------------------------

  /** Rows may change anything but their channel and their provenance. */
  ghost predicate SameIdentity(before: Row, after: Row) {
    && after.channel == before.channel && after.failoverOf == before.failoverOf
    && after.originChannel == before.originChannel && after.priority == before.priority
  }

  ghost predicate Extends(before: Rows, after: Rows) {
    forall id :: id in before ==> id in after && SameIdentity(before[id], after[id])
  }

  lemma CoalescedExtends(rows: Rows, channel: string)
    ensures Coalesced(rows, channel).Keys == rows.Keys
    ensures Extends(rows, Coalesced(rows, channel))
    ensures forall id :: id in rows ==>
              && Coalesced(rows, channel)[id].attempts == rows[id].attempts
              && Coalesced(rows, channel)[id].lease == rows[id].lease
              && (Coalesced(rows, channel)[id].status == rows[id].status
                  || (rows[id].status.Pending? && Coalesced(rows, channel)[id].status.Superseded?))
  {
  }

  lemma CoalescedShape(db: Db, channel: string)
    requires Shape(db)
    ensures Shape(db.(rows := Coalesced(db.rows, channel)))
  {
    var rows, after := db.rows, Coalesced(db.rows, channel);
    CoalescedExtends(rows, channel);
    forall id | id in after ensures LinksOk(after, id) {
      assert LinksOk(rows, id);
      if after[id] != rows[id] && after[id].status.Superseded? {
        assert id in PendingOf(rows, channel, rows[id].incident);
      }
    }
  }

  lemma {:induction false} CoalescedAllExtends(db: Db, channels: seq<string>)
    requires Shape(db)
    ensures var after := CoalescedAll(db.rows, channels);
            && after.Keys == db.rows.Keys && Extends(db.rows, after)
            && Shape(db.(rows := after))
            && forall id :: id in db.rows ==>
                 && after[id].attempts == db.rows[id].attempts
                 && after[id].lease == db.rows[id].lease
                 && (after[id].status == db.rows[id].status
                     || (db.rows[id].status.Pending? && after[id].status.Superseded?))
    decreases |channels|
  {
    if channels != [] {
      CoalescedExtends(db.rows, channels[0]);
      CoalescedShape(db, channels[0]);
      CoalescedAllExtends(db.(rows := Coalesced(db.rows, channels[0])), channels[1..]);
    }
  }

  lemma InsertShape(db: Db, row: Row)
    requires Shape(db)
    requires row.supersededBy.None? && !row.status.Superseded? && row.lease.None?
    requires row.failoverOf.Some? ==>
               var primary := row.failoverOf.value;
               && primary in db.rows && db.rows[primary].failoverOf.None?
               && db.rows[primary].channel == row.originChannel != row.channel
               && IsFailoverWorthy(row.priority)
    ensures Shape(Insert(db, row)) && Extends(db.rows, Insert(db, row).rows)
  {
    var after := Insert(db, row);
    forall id | id in after.rows ensures id < after.nextId && LinksOk(after.rows, id) {
      if id != db.nextId { assert LinksOk(db.rows, id); }
    }
  }

  /** A transition of one row that leaves its identity alone and takes no lease. */
  lemma UpdateShape(db: Db, id: nat, row: Row)
    requires Shape(db) && id in db.rows && SameIdentity(db.rows[id], row)
    requires row.supersededBy == db.rows[id].supersededBy
    requires row.status.Superseded? <==> db.rows[id].status.Superseded?
    requires row.lease.None? || row.lease == db.rows[id].lease
    ensures Shape(db.(rows := db.rows[id := row]))
  {
    var after := db.rows[id := row];
    forall k | k in after ensures LinksOk(after, k) {
      assert LinksOk(db.rows, k);
    }
  }

  /** What moving rows to a stand-in channel may do: amend markers, and add fresh pending rows. */
  ghost predicate OnlyMoves(before: Db, after: Db) {
    && Extends(before.rows, after.rows) && before.nextId <= after.nextId
    && after.health == before.health && after.outages == before.outages
    && (forall id :: id in before.rows ==>
          after.rows[id] == before.rows[id].(fallback := after.rows[id].fallback))
    && (forall id :: id in before.rows && !before.rows[id].status.Pending? ==>
          after.rows[id] == before.rows[id])
    && (forall id :: id in after.rows && id !in before.rows ==>
          after.rows[id].status.Pending? && after.rows[id].attempts == 0)
  }

  lemma MoveOneIs(start: Db, db: Db, id: nat, channel: string, available: set<string>, now: int)
    requires id in start.rows && id in db.rows && id < db.nextId
    ensures var row, after := start.rows[id], MoveOne(db, start.rows, id, channel, available, now);
            var target := SelectFailover(channel, row.action, available);
            if !IsFailoverWorthy(row.priority) || target.None? then after == db
            else after == Insert(db, StandIn(row, id, target.value, channel, now)).(
                   rows := Insert(db, StandIn(row, id, target.value, channel, now)).rows[
                             id := db.rows[id].(fallback := Some(target.value.channel))])
  {
  }

  lemma MoveOneRow(start: Db, db: Db, id: nat, channel: string, available: set<string>, now: int, other: nat)
    requires id in start.rows && id in db.rows && id < db.nextId
    ensures var after := MoveOne(db, start.rows, id, channel, available, now);
            && (other in db.rows && other < db.nextId ==>
                  other in after.rows
                  && after.rows[other] == (if other == id then db.rows[id].(fallback := after.rows[id].fallback) else db.rows[other]))
            && (other in after.rows && other !in db.rows ==>
                  after.rows[other].status.Pending? && after.rows[other].attempts == 0)
            && db.nextId <= after.nextId && after.health == db.health && after.outages == db.outages
  {
    MoveOneIs(start, db, id, channel, available, now);
  }

  lemma MoveOneMoves(start: Db, db: Db, id: nat, channel: string, available: set<string>, now: int)
    requires Shape(db) && OnlyMoves(start, db) && id in Originals(start.rows, channel)
    ensures OnlyMoves(start, MoveOne(db, start.rows, id, channel, available, now))
  {
    var after := MoveOne(db, start.rows, id, channel, available, now);
    MoveOneRow(start, db, id, channel, available, now, id);
    forall x | x in start.rows
      ensures x in after.rows && after.rows[x] == start.rows[x].(fallback := after.rows[x].fallback)
      ensures !start.rows[x].status.Pending? ==> after.rows[x] == start.rows[x]
      ensures SameIdentity(start.rows[x], after.rows[x])
    {
      MoveOneRow(start, db, id, channel, available, now, x);
    }
    forall x | x in after.rows && x !in start.rows ensures after.rows[x].status.Pending? && after.rows[x].attempts == 0 {
      MoveOneRow(start, db, id, channel, available, now, x);
    }
  }

  lemma MoveOneShape(start: Db, db: Db, id: nat, channel: string, available: set<string>, now: int)
    requires Shape(db) && OnlyMoves(start, db)
    requires id in Originals(start.rows, channel) && channel !in available
    ensures var after := MoveOne(db, start.rows, id, channel, available, now);
            Shape(after) && OnlyMoves(start, after)
  {
    MoveOneMoves(start, db, id, channel, available, now);
    MoveOneIs(start, db, id, channel, available, now);
    var row := start.rows[id];
    var target := SelectFailover(channel, row.action, available);
    if IsFailoverWorthy(row.priority) && target.Some? {
      var standIn := StandIn(row, id, target.value, channel, now);
      assert db.rows[id].failoverOf.None? && db.rows[id].channel == channel;
      InsertShape(db, standIn);
      UpdateShape(Insert(db, standIn), id, db.rows[id].(fallback := Some(target.value.channel)));
    }
  }

  lemma {:induction false} MovedShape(db: Db, ids: seq<nat>, k: nat, channel: string, available: set<string>, now: int)
    requires Shape(db) && k <= |ids|
    requires forall id :: id in ids ==> id in Originals(db.rows, channel)
    requires forall id :: id in ids ==> id in db.rows
    requires channel !in available
    ensures var after := MovedUpTo(db, ids, k, channel, available, now);
            Shape(after) && OnlyMoves(db, after)
  {
    if k > 0 {
      MovedShape(db, ids, k - 1, channel, available, now);
      MoveOneShape(db, MovedUpTo(db, ids, k - 1, channel, available, now), ids[k - 1], channel, available, now);
    }
  }

  lemma FailOverShape(db: Db, channel: string, now: int)
    requires Shape(db)
    ensures var after := FailOver(db, channel, now);
            && Shape(after) && Extends(db.rows, after.rows)
            && after.health == db.health
            && (forall c :: OpenOutages(after.outages, c) == OpenOutages(db.outages, c))
            && (forall id :: id in db.rows ==>
                  after.rows[id] == db.rows[id].(fallback := after.rows[id].fallback))
            && (forall id :: id in db.rows && !db.rows[id].status.Pending? ==>
                  after.rows[id] == db.rows[id])
            && (forall id :: id in after.rows && id !in db.rows ==>
                  after.rows[id].status.Pending? && after.rows[id].attempts == 0)
  {
    var available := AvailableChannels(db.health) - {channel};
    if available != {} {
      var ids := FailOverQueue(db.rows, channel);
      MovedShape(db, ids, |ids|, channel, available, now);
      var moved := MovedUpTo(db, ids, |ids|, channel, available, now);
      var count := moved.nextId - db.nextId;
      AmendKeepsOpen(moved.outages, channel, (o: Outage) => o.(failedOver := o.failedOver + count));
    }
  }

  // ---- breakers ------------------------------------------------------------------------------

  lemma FailureAgrees(cfg: Config, db: Db, channel: string, verdict: Verdict, now: int)
    requires BreakersAgree(cfg, db.health, db.outages)
    ensures var after := RecordFailure(cfg, db, channel, verdict, now);
            BreakersAgree(cfg, after.health, after.outages)
  {
    var after := RecordFailure(cfg, db, channel, verdict, now);
    forall c: string ensures Agrees(cfg, StateOf(after.health, c), OpenOutages(after.outages, c)) {
      assert Agrees(cfg, StateOf(db.health, c), OpenOutages(db.outages, c));
      if DeclaresOutage(cfg, StateOf(db.health, channel), verdict) {
        DeclaringAdds(db.outages, Outage(channel, None, 0, |PendingOn(db.rows, channel)|, 0), c);
      }
    }
  }

  lemma SuccessAgrees(cfg: Config, db: Db, channel: string, now: int)
    requires cfg.Sensible()
    requires BreakersAgree(cfg, db.health, db.outages)
    ensures var after := RecordSuccess(db, channel, now);
            BreakersAgree(cfg, after.health, after.outages)
  {
    var after := RecordSuccess(db, channel, now);
    forall c: string ensures Agrees(cfg, StateOf(after.health, c), OpenOutages(after.outages, c)) {
      assert Agrees(cfg, StateOf(db.health, c), OpenOutages(db.outages, c));
      assert Agrees(cfg, StateOf(db.health, channel), OpenOutages(db.outages, channel));
      if !StateOf(db.health, channel).state.Closed? {
        CloseRemovesCurrent(db.outages, channel, now, c);
        SingletonIs(OpenOutages(db.outages, channel), MaxOf(OpenOutages(db.outages, channel)));
      }
    }
  }

  /** A probe of an open breaker; probing any other breaker would break the agreement. */
  lemma ProbeAgrees(cfg: Config, db: Db, channel: string, healthy: bool, now: int)
    requires BreakersAgree(cfg, db.health, db.outages)
    requires StateOf(db.health, channel).state.Open?
    ensures var after := RecordProbe(cfg, db, channel, healthy, now);
            BreakersAgree(cfg, after.health, after.outages)
  {
    var after := RecordProbe(cfg, db, channel, healthy, now);
    if !healthy {
      AmendKeepsOpen(db.outages, channel, (o: Outage) => o.(probeAttempts := o.probeAttempts + 1));
    }
    forall c: string ensures Agrees(cfg, StateOf(after.health, c), OpenOutages(after.outages, c)) {
      assert Agrees(cfg, StateOf(db.health, c), OpenOutages(db.outages, c));
    }
  }

  // ---- one lemma per step -----------------------------------------------------------------------

  lemma InsertBudgets(cfg: Config, w: World, w': World, row: Row)
    requires Shape(w.db) && Budgets(cfg, w) && HandsOk(w) && cfg.Sensible() && w' == w.(db := Insert(w.db, row))
    requires row.status.Pending? && row.attempts == 0
    ensures Budgets(cfg, w')
  {
    forall id | id in w'.db.rows
      ensures BudgetOk(cfg, w'.db.rows[id], Heard(w', id), id in w'.accepted, Owed(w', id))
    {
      if id == w.db.nextId { NotInHand(w, id); } else { BudgetCarries(cfg, w, w', id); }
    }
  }

  lemma InsertHands(w: World, w': World, row: Row)
    requires Shape(w.db) && HandsOk(w) && w' == w.(db := Insert(w.db, row))
    ensures HandsOk(w')
  {
    forall i | 0 <= i < |InHand(w'.phase)| ensures HoldsPending(w'.db.rows, InHand(w'.phase)[i]) {
      assert HoldsPending(w.db.rows, InHand(w.phase)[i]);
    }
  }

  lemma InsertKeeps(cfg: Config, w: World, w': World, row: Row)
    requires Inv(cfg, w) && cfg.Sensible()
    requires w' == w.(db := Insert(w.db, row))
    requires row.status.Pending? && row.attempts == 0 && row.lease.None?
    requires row.supersededBy.None? && row.failoverOf.None?
    ensures Inv(cfg, w')
  {
    InsertShape(w.db, row);
    InsertBudgets(cfg, w, w', row);
    InsertHands(w, w', row);
  }

  lemma NotInHand(w: World, id: nat)
    requires HandsOk(w) && id !in w.db.rows
    ensures Uncharged(w.phase) != Some(id)
  {
    if Uncharged(w.phase).Some? {
      assert HoldsPending(w.db.rows, InHand(w.phase)[0]);
    }
  }

  /** A change of what rows say, not of where they stand. */
  ghost predicate OnlyReworded(before: Rows, after: Rows) {
    && after.Keys == before.Keys
    && forall id :: id in before ==>
         after[id] == before[id].(incident := after[id].incident, action := after[id].action)
  }

  lemma RewordedShape(db: Db, rows: Rows)
    requires Shape(db) && OnlyReworded(db.rows, rows)
    ensures Shape(db.(rows := rows))
  {
    forall id | id in rows ensures id < db.nextId && LinksOk(rows, id) { assert LinksOk(db.rows, id); }
  }

  lemma RewordedBudgets(cfg: Config, w: World, rows: Rows)
    requires Budgets(cfg, w) && OnlyReworded(w.db.rows, rows)
    ensures Budgets(cfg, w.(db := w.db.(rows := rows)))
  {
    var w' := w.(db := w.db.(rows := rows));
    forall id | id in rows ensures BudgetOk(cfg, rows[id], Heard(w', id), id in w'.accepted, Owed(w', id)) {
      BudgetCarries(cfg, w, w', id);
    }
  }

  lemma RewordedHands(w: World, rows: Rows)
    requires HandsOk(w) && OnlyReworded(w.db.rows, rows)
    ensures HandsOk(w.(db := w.db.(rows := rows)))
  {
    forall i | 0 <= i < |InHand(w.phase)| ensures HoldsPending(rows, InHand(w.phase)[i]) {
      assert HoldsPending(w.db.rows, InHand(w.phase)[i]);
    }
  }

  lemma RewordedKeeps(cfg: Config, w: World, rows: Rows)
    requires Inv(cfg, w) && OnlyReworded(w.db.rows, rows)
    ensures Inv(cfg, w.(db := w.db.(rows := rows)))
  {
    RewordedShape(w.db, rows);
    RewordedBudgets(cfg, w, rows);
    RewordedHands(w, rows);
  }

  lemma RedirectKeeps(cfg: Config, w: World, member: string, anchor: string, now: int)
    requires Inv(cfg, w) && cfg.Sensible()
    ensures Inv(cfg, Next(cfg, w, Redirect(member, anchor, now)))
  {
    var rows := Retargeted(w.db.rows, member, anchor);
    RewordedKeeps(cfg, w, rows);
    if AlreadyPosted(w.db.rows, member) {
      InsertKeeps(cfg, w.(db := w.db.(rows := rows)), Next(cfg, w, Redirect(member, anchor, now)),
                  NewRow(member, "slack", Update, now, DEFAULT_PRIORITY));
    }
  }

  lemma RowsKeep(cfg: Config, w: World, w': World)
    requires Budgets(cfg, w) && InHand(w'.phase) == []
    requires w'.db.rows.Keys == w.db.rows.Keys
    requires forall id :: id in w.db.rows ==>
               && w'.db.rows[id].attempts == w.db.rows[id].attempts
               && w'.db.rows[id].channel == w.db.rows[id].channel
               && (w'.db.rows[id].status == w.db.rows[id].status || w'.db.rows[id].status.Superseded?)
    requires w'.heard == w.heard && w'.accepted == w.accepted && w'.lost == w.lost
    requires Uncharged(w'.phase) == Uncharged(w.phase)
    ensures Budgets(cfg, w') && HandsOk(w')
  {
    forall id | id in w'.db.rows
      ensures BudgetOk(cfg, w'.db.rows[id], Heard(w', id), id in w'.accepted, Owed(w', id))
    {
      assert BudgetOk(cfg, w.db.rows[id], Heard(w, id), id in w.accepted, Owed(w, id));
    }
  }

  lemma ProbedShape(cfg: Config, db: Db, channel: string, healthy: bool, now: int)
    requires Shape(db)
    ensures Shape(RecordProbe(cfg, db, channel, healthy, now))
  {
    var probed := RecordProbe(cfg, db, channel, healthy, now);
    forall id | id in probed.rows ensures LinksOk(probed.rows, id) { assert LinksOk(db.rows, id); }
  }

  /** The world once the probe is recorded and, if it was healthy, the backlog coalesced. */
  ghost function Probed(cfg: Config, w: World, healthy: bool, now: int): World
    requires w.phase.Probing? && w.phase.due != []
  {
    var probed := RecordProbe(cfg, w.db, w.phase.due[0], healthy, now);
    w.(db := if healthy then probed.(rows := Coalesced(probed.rows, w.phase.due[0])) else probed,
       phase := Probing(w.phase.due[1..]))
  }

  lemma ProbedPhase(cfg: Config, w: World, healthy: bool, now: int)
    requires PhaseOk(w) && w.phase.Probing? && w.phase.due != []
    ensures PhaseOk(Probed(cfg, w, healthy, now))
  {
    var w1, rest := Probed(cfg, w, healthy, now), w.phase.due[1..];
    forall i | 0 <= i < |rest| ensures StateOf(w1.db.health, rest[i]).state.Open? {
      assert rest[i] == w.phase.due[i + 1];
    }
  }

  lemma ProbedKeeps(cfg: Config, w: World, healthy: bool, now: int)
    requires Inv(cfg, w) && w.phase.Probing? && w.phase.due != []
    ensures Inv(cfg, Probed(cfg, w, healthy, now))
  {
    var channel := w.phase.due[0];
    var probed := RecordProbe(cfg, w.db, channel, healthy, now);
    ProbeAgrees(cfg, w.db, channel, healthy, now);
    ProbedShape(cfg, w.db, channel, healthy, now);
    CoalescedExtends(probed.rows, channel);
    CoalescedShape(probed, channel);
    ProbedPhase(cfg, w, healthy, now);
    RowsKeep(cfg, w, Probed(cfg, w, healthy, now));
  }

  lemma ProbeKeeps(cfg: Config, w: World, healthy: bool, digest: Option<string>, now: int)
    requires Inv(cfg, w) && cfg.Sensible()
    requires w.phase.Probing? && w.phase.due != []
    ensures Inv(cfg, Next(cfg, w, Probe(healthy, digest, now)))
  {
    var channel := w.phase.due[0];
    var w1, w2 := Probed(cfg, w, healthy, now), Next(cfg, w, Probe(healthy, digest, now));
    ProbedKeeps(cfg, w, healthy, now);
    if w2 != w1 { InsertKeeps(cfg, w1, w2, NewRow(digest.value, channel, Create, now, -1)); }
  }

  lemma ClaimShape(db: Db, available: set<string>, now: int, lease: Lease, limit: nat)
    requires Shape(db) && available <= (set c | c in KNOWN_CHANNELS)
    ensures var after := AfterClaim(db.rows, available, now, lease, limit);
            && Shape(db.(rows := after)) && after.Keys == db.rows.Keys
            && forall id :: id in after ==> after[id] == db.rows[id].(lease := after[id].lease)
  {
    var after := AfterClaim(db.rows, available, now, lease, limit);
    forall id | id in after ensures LinksOk(after, id) {
      assert LinksOk(db.rows, id);
    }
  }

  /** Whatever the second SELECT returns is pending and on a channel the worker can dispatch to. */
  lemma BatchIsPending(db: Db, lease: Lease)
    requires Shape(db)
    ensures forall id :: id in ClaimedBatch(db.rows, lease) ==>
              db.rows[id].status.Pending? && db.rows[id].channel in KNOWN_CHANNELS
  {
    forall id | id in ClaimedBatch(db.rows, lease)
      ensures db.rows[id].status.Pending? && db.rows[id].channel in KNOWN_CHANNELS
    {
      assert id in HeldBy(db.rows, lease);
      assert LinksOk(db.rows, id);
    }
  }

  lemma PolledKeeps(cfg: Config, w: World, now: int, lease: Lease)
    requires Inv(cfg, w) && w.phase.Idle?
    ensures Inv(cfg, w.(db := w.db.(rows := PolledRows(cfg, w.db, now, lease))))
  {
    var available := AvailableChannels(w.db.health);
    var collapsed := CoalescedAll(w.db.rows, SortedChannels(available));
    CoalescedAllExtends(w.db, SortedChannels(available));
    ClaimShape(w.db.(rows := collapsed), available, now, lease, cfg.batchSize);
    RowsKeep(cfg, w, w.(db := w.db.(rows := PolledRows(cfg, w.db, now, lease))));
  }

  lemma BatchHands(w: World, lease: Lease, kept: seq<nat>)
    requires Shape(w.db)
    requires forall id :: id in kept ==> id in ClaimedBatch(w.db.rows, lease)
    requires Distinct(kept)
    ensures forall id :: id in kept ==> id in w.db.rows
    ensures HandsOk(w.(phase := Draining(ClaimedRows(w.db.rows, kept))))
  {
    BatchIsPending(w.db, lease);
    var hand := ClaimedRows(w.db.rows, kept);
    forall i | 0 <= i < |hand| ensures HoldsPending(w.db.rows, hand[i]) {
      assert kept[i] in kept;
    }
  }

  lemma DrainingBudgets(cfg: Config, w: World, batch: seq<Claimed>)
    requires Budgets(cfg, w) && w.phase.Idle?
    ensures Budgets(cfg, w.(phase := Draining(batch)))
  {
    var w' := w.(phase := Draining(batch));
    forall id | id in w'.db.rows
      ensures BudgetOk(cfg, w'.db.rows[id], Heard(w', id), id in w'.accepted, Owed(w', id))
    {
      assert BudgetOk(cfg, w.db.rows[id], Heard(w, id), id in w.accepted, Owed(w, id));
    }
  }

  lemma PollKeeps(cfg: Config, w: World, now: int, lease: Lease)
    requires Inv(cfg, w) && w.phase.Idle?
    ensures Inv(cfg, AfterPoll(cfg, w, now, lease))
  {
    if AvailableChannels(w.db.health) != {} {
      var db := w.db.(rows := PolledRows(cfg, w.db, now, lease));
      PolledKeeps(cfg, w, now, lease);
      KeptBatch(cfg, db, lease);
      DrainKeeps(cfg, w.(db := db), lease, PolledBatch(cfg, db, lease));
    }
  }

  lemma KeptBatch(cfg: Config, db: Db, lease: Lease)
    ensures Distinct(PolledBatch(cfg, db, lease))
    ensures forall id :: id in PolledBatch(cfg, db, lease) ==> id in ClaimedBatch(db.rows, lease)
  {
    TrimmedDistinct(db.rows, ClaimedBatch(db.rows, lease), HalfOpenChannels(db.health), cfg.halfOpenAllowance);
  }

  lemma DrainKeeps(cfg: Config, w: World, lease: Lease, kept: seq<nat>)
    requires Inv(cfg, w) && w.phase.Idle?
    requires forall id :: id in kept ==> id in ClaimedBatch(w.db.rows, lease)
    requires Distinct(kept)
    ensures forall id :: id in kept ==> id in w.db.rows
    ensures Inv(cfg, w.(phase := Draining(ClaimedRows(w.db.rows, kept))))
  {
    BatchHands(w, lease, kept);
    DrainingBudgets(cfg, w, ClaimedRows(w.db.rows, kept));
  }

  ghost predicate Distinct(ids: seq<nat>) {
    forall i, j :: 0 <= i < j < |ids| ==> ids[i] != ids[j]
  }

  lemma {:induction false} TrimmedDistinct(rows: Rows, batch: seq<nat>, halfOpen: set<string>, allowance: nat)
    requires forall id :: id in batch ==> id in rows
    requires Distinct(batch)
    ensures Distinct(Trimmed(rows, batch, halfOpen, allowance))
  {
    if batch != [] {
      var init, last := batch[..|batch| - 1], batch[|batch| - 1];
      assert last !in init;
      assert forall id :: id in init ==> id in batch;
      TrimmedDistinct(rows, init, halfOpen, allowance);
      var kept := Trimmed(rows, init, halfOpen, allowance);
      assert last !in kept;
      assert Distinct(kept + [last]);
    }
  }

  lemma AcceptBudgets(cfg: Config, w: World, ref: Option<string>)
    requires Budgets(cfg, w) && w.phase.Draining? && w.phase.batch != [] && w.phase.batch[0].id in w.db.rows
    ensures Budgets(cfg, AfterAnswer(w, Accept(ref)))
  {
    var w' := AfterAnswer(w, Accept(ref));
    forall id | id in w'.db.rows
      ensures BudgetOk(cfg, w'.db.rows[id], Heard(w', id), id in w'.accepted, Owed(w', id))
    {
      assert BudgetOk(cfg, w.db.rows[id], Heard(w, id), id in w.accepted, Owed(w, id));
    }
  }

  /** A verdict owes its row one charge exactly when it is transient. */
  lemma OneMoreVerdict(heard: seq<Kind>, kind: Kind)
    ensures Transients(heard + [kind]) == Transients(heard) + if kind.Transient? then 1 else 0
    ensures MessageFatal in heard ==> MessageFatal in heard + [kind]
  {
    assert (heard + [kind])[..|heard|] == heard;
  }

  /** A row about which nothing was heard keeps its budget in order. */
  lemma BudgetCarries(cfg: Config, w: World, w': World, id: nat)
    requires Budgets(cfg, w) && id in w.db.rows && id in w'.db.rows
    requires w'.db.rows[id].attempts == w.db.rows[id].attempts && w'.db.rows[id].status == w.db.rows[id].status
    requires w'.db.rows[id].channel == w.db.rows[id].channel
    requires Heard(w', id) == Heard(w, id) && Owed(w', id) == Owed(w, id)
    requires id in w.accepted ==> id in w'.accepted
    ensures BudgetOk(cfg, w'.db.rows[id], Heard(w', id), id in w'.accepted, Owed(w', id))
  {
    assert BudgetOk(cfg, w.db.rows[id], Heard(w, id), id in w.accepted, Owed(w, id));
  }

  /** One more verdict about a row, owed if it is a transient one. */
  lemma BudgetHears(cfg: Config, row: Row, heard: seq<Kind>, accepted: bool, owed: nat, kind: Kind)
    requires BudgetOk(cfg, row, heard, accepted, owed)
    ensures BudgetOk(cfg, row, heard + [kind], accepted, owed + if kind.Transient? then 1 else 0)
  {
    OneMoreVerdict(heard, kind);
  }

  lemma RejectedWorld(w: World, verdict: Verdict, id: nat)
    requires w.phase.Draining? && w.phase.batch != []
    ensures var head, w' := w.phase.batch[0], AfterAnswer(w, Reject(verdict));
            && w'.db == w.db && w'.accepted == w.accepted && w'.lost == w.lost
            && w'.heard.Keys == w.heard.Keys + {head.id}
            && Heard(w', id) == (if id == head.id then Heard(w, id) + [verdict.kind] else Heard(w, id))
            && Owed(w', id) == Owed(w, id) + (if id == head.id && verdict.kind.Transient? then 1 else 0)
  {
  }

  lemma RejectBudgets(cfg: Config, w: World, verdict: Verdict)
    requires Budgets(cfg, w) && w.phase.Draining? && w.phase.batch != [] && w.phase.batch[0].id in w.db.rows
    ensures Budgets(cfg, AfterAnswer(w, Reject(verdict)))
  {
    var head, w' := w.phase.batch[0], AfterAnswer(w, Reject(verdict));
    RejectedWorld(w, verdict, head.id);
    forall id | id in w'.db.rows
      ensures BudgetOk(cfg, w'.db.rows[id], Heard(w', id), id in w'.accepted, Owed(w', id))
    {
      RejectedWorld(w, verdict, id);
      if id == head.id {
        BudgetHears(cfg, w.db.rows[id], Heard(w, id), id in w.accepted, Owed(w, id), verdict.kind);
      } else {
        BudgetCarries(cfg, w, w', id);
      }
    }
  }

  lemma HearHands(w: World, answer: Answer)
    requires HandsOk(w) && w.phase.Draining? && w.phase.batch != []
    ensures w.phase.batch[0].id in w.db.rows
    ensures HandsOk(AfterAnswer(w, answer)) && PhaseOk(AfterAnswer(w, answer))
  {
    assert HoldsPending(w.db.rows, InHand(w.phase)[0]);
    assert InHand(AfterAnswer(w, answer).phase) == InHand(w.phase);
  }

  lemma HearKeeps(cfg: Config, w: World, answer: Answer)
    requires Inv(cfg, w) && w.phase.Draining? && w.phase.batch != []
    ensures Inv(cfg, AfterAnswer(w, answer))
  {
    HearHands(w, answer);
    match answer
    case Accept(ref) => AcceptBudgets(cfg, w, ref);
    case Reject(verdict) => RejectBudgets(cfg, w, verdict);
  }

  /** A transition of the row at the head of the hand, which the worker then drops. */
  ghost predicate Settles(w: World, w': World, head: Claimed, row: Row) {
    && InHand(w.phase) != [] && InHand(w.phase)[0] == head && InHand(w'.phase) == InHand(w.phase)[1..]
    && w'.db == w.db.(rows := w.db.rows[head.id := row])
    && w'.heard == w.heard && w'.accepted == w.accepted && w'.lost == w.lost
  }

  lemma SettledHands(w: World, w': World, head: Claimed, row: Row)
    requires HandsOk(w) && Settles(w, w', head, row)
    ensures HandsOk(w')
  {
    var before, hand := InHand(w.phase), InHand(w'.phase);
    forall i | 0 <= i < |hand| ensures HoldsPending(w'.db.rows, hand[i]) {
      assert HoldsPending(w.db.rows, before[i + 1]);
      assert before[0].id != before[i + 1].id;
    }
    forall i, j | 0 <= i < j < |hand| ensures hand[i].id != hand[j].id {
      assert before[i + 1].id != before[j + 1].id;
    }
  }

  lemma SettledBudgets(cfg: Config, w: World, w': World, head: Claimed, row: Row)
    requires Budgets(cfg, w) && Settles(w, w', head, row) && head.id in w.db.rows
    requires BudgetOk(cfg, row, Heard(w, head.id), head.id in w.accepted, Lost(w, head.id))
    requires Uncharged(w'.phase).None? && (Uncharged(w.phase).None? || Uncharged(w.phase) == Some(head.id))
    ensures Budgets(cfg, w')
  {
    forall id | id in w'.db.rows
      ensures BudgetOk(cfg, w'.db.rows[id], Heard(w', id), id in w'.accepted, Owed(w', id))
    {
      assert BudgetOk(cfg, w.db.rows[id], Heard(w, id), id in w.accepted, Owed(w, id));
    }
  }

  lemma HeadSettled(cfg: Config, w: World, w': World, head: Claimed, row: Row)
    requires Inv(cfg, w) && Settles(w, w', head, row) && head.id in w.db.rows
    requires SameIdentity(w.db.rows[head.id], row) && row.supersededBy == w.db.rows[head.id].supersededBy
    requires !row.status.Superseded? && row.lease.None?
    requires BudgetOk(cfg, row, Heard(w, head.id), head.id in w.accepted, Lost(w, head.id))
    requires Uncharged(w'.phase).None? && (Uncharged(w.phase).None? || Uncharged(w.phase) == Some(head.id))
    requires w'.phase.Draining? || w'.phase.Confirmed? || w'.phase.FailingOver?
    ensures Inv(cfg, w')
  {
    assert HoldsPending(w.db.rows, InHand(w.phase)[0]);
    UpdateShape(w.db, head.id, row);
    SettledHands(w, w', head, row);
    SettledBudgets(cfg, w, w', head, row);
  }

  lemma AcceptedKeeps(cfg: Config, w: World, now: int)
    requires Inv(cfg, w) && w.phase.Accepted?
    ensures Inv(cfg, AfterCommit(cfg, w, now))
  {
    var head := w.phase.head;
    assert HoldsPending(w.db.rows, InHand(w.phase)[0]);
    assert BudgetOk(cfg, w.db.rows[head.id], Heard(w, head.id), head.id in w.accepted, Owed(w, head.id));
    assert LinksOk(w.db.rows, head.id);
    var w' := AfterCommit(cfg, w, now);
    HeadSettled(cfg, w, w', head, w'.db.rows[head.id]);
  }

  /** The row a verdict leaves. */
  function VerdictRow(cfg: Config, row: Row, head: Claimed, verdict: Verdict, nextProbeAt: Option<int>, now: int): Row {
    var db := Db(map[head.id := row], 0, map[], []);
    Settled(cfg, db, head.id, Refused(head.attempts, verdict, nextProbeAt), now).rows[head.id]
  }

  lemma VerdictBudget(cfg: Config, row: Row, head: Claimed, verdict: Verdict, nextProbeAt: Option<int>, now: int,
                      heard: seq<Kind>, accepted: bool, lost: nat)
    requires row.status.Pending? && row.attempts == head.attempts && verdict.kind in heard && row.channel in KNOWN_CHANNELS
    requires BudgetOk(cfg, row, heard, accepted, lost + if verdict.kind.Transient? then 1 else 0)
    ensures BudgetOk(cfg, VerdictRow(cfg, row, head, verdict, nextProbeAt, now), heard, accepted, lost)
    ensures var settled := VerdictRow(cfg, row, head, verdict, nextProbeAt, now);
            && SameIdentity(row, settled) && settled.supersededBy == row.supersededBy
            && !settled.status.Superseded? && settled.lease.None?
  {
  }

  lemma VerdictSettles(cfg: Config, w: World, now: int)
    requires w.phase.Judged? && w.phase.head.id in w.db.rows
    ensures var Judged(head, verdict, nextProbeAt, _, _) := w.phase;
            Settles(w, AfterVerdict(cfg, w, now), head, VerdictRow(cfg, w.db.rows[head.id], head, verdict, nextProbeAt, now))
  {
  }

  lemma JudgedKeeps(cfg: Config, w: World, now: int)
    requires Inv(cfg, w) && w.phase.Judged?
    ensures Inv(cfg, AfterVerdict(cfg, w, now))
  {
    var Judged(head, verdict, nextProbeAt, newlyDown, rest) := w.phase;
    assert HoldsPending(w.db.rows, InHand(w.phase)[0]);
    var row := w.db.rows[head.id];
    assert BudgetOk(cfg, row, Heard(w, head.id), head.id in w.accepted, Owed(w, head.id));
    VerdictBudget(cfg, row, head, verdict, nextProbeAt, now, Heard(w, head.id), head.id in w.accepted, Lost(w, head.id));
    VerdictSettles(cfg, w, now);
    HeadSettled(cfg, w, AfterVerdict(cfg, w, now), head, VerdictRow(cfg, row, head, verdict, nextProbeAt, now));
  }

  lemma ConfirmedKeeps(cfg: Config, w: World, now: int)
    requires Inv(cfg, w) && cfg.Sensible() && w.phase.Confirmed?
    ensures Inv(cfg, AfterCommit(cfg, w, now))
  {
    SuccessAgrees(cfg, w.db, w.phase.channel, now);
    SameRowsKeep(cfg, w, AfterCommit(cfg, w, now));
  }

  lemma RejectedKeeps(cfg: Config, w: World, now: int)
    requires Inv(cfg, w) && w.phase.Rejected?
    ensures Inv(cfg, AfterCommit(cfg, w, now))
  {
    FailureAgrees(cfg, w.db, w.phase.head.channel, w.phase.verdict, now);
    SameRowsKeep(cfg, w, AfterCommit(cfg, w, now));
  }

  /** A claimed row is never on a channel without a dispatcher, so that branch is never taken. */
  lemma DrainingKeeps(cfg: Config, w: World, now: int)
    requires Inv(cfg, w) && w.phase.Draining?
    ensures Inv(cfg, AfterCommit(cfg, w, now))
    ensures AfterCommit(cfg, w, now).db == w.db
  {
    if w.phase.batch == [] { SameRowsKeep(cfg, w, AfterCommit(cfg, w, now)); }
    else { assert HoldsPending(w.db.rows, InHand(w.phase)[0]); }
  }

  lemma CommitKeeps(cfg: Config, w: World, now: int)
    requires Inv(cfg, w) && cfg.Sensible()
    ensures Inv(cfg, AfterCommit(cfg, w, now))
  {
    match w.phase
    case Idle =>
    case Probing(_) =>
    case Draining(_) => DrainingKeeps(cfg, w, now);
    case Accepted(_, _, _) => AcceptedKeeps(cfg, w, now);
    case Confirmed(_, _) => ConfirmedKeeps(cfg, w, now);
    case Rejected(_, _, _) => RejectedKeeps(cfg, w, now);
    case Judged(_, _, _, _, _) => JudgedKeeps(cfg, w, now);
    case FailingOver(_, _) => FailOverKeeps(cfg, w, now);
  }

  lemma SameRowsKeep(cfg: Config, w: World, w': World)
    requires Inv(cfg, w)
    requires w'.db.rows == w.db.rows && w'.db.nextId == w.db.nextId
    requires w'.heard == w.heard && w'.accepted == w.accepted && w'.lost == w.lost
    requires InHand(w'.phase) == InHand(w.phase) && Uncharged(w'.phase) == Uncharged(w.phase)
    requires PhaseOk(w') && BreakersAgree(cfg, w'.db.health, w'.db.outages)
    ensures Inv(cfg, w')
  {
    forall id | id in w'.db.rows
      ensures LinksOk(w'.db.rows, id)
      ensures BudgetOk(cfg, w'.db.rows[id], Heard(w', id), id in w'.accepted, Owed(w', id))
    {
      assert LinksOk(w.db.rows, id);
      assert BudgetOk(cfg, w.db.rows[id], Heard(w, id), id in w.accepted, Owed(w, id));
    }
  }

  /** A row that failing over adds has heard nothing and owes nothing. */
  lemma FreshBudget(cfg: Config, w: World, id: nat, row: Row)
    requires Budgets(cfg, w) && HandsOk(w) && cfg.Sensible() && id !in w.db.rows && Uncharged(w.phase).None?
    requires row.status.Pending? && row.attempts == 0
    ensures BudgetOk(cfg, row, Heard(w, id), id in w.accepted, Lost(w, id))
  {
  }

  lemma FailOverWorld(cfg: Config, w: World, now: int)
    requires w.phase.FailingOver?
    ensures AfterCommit(cfg, w, now) == w.(db := FailOver(w.db, w.phase.channel, now), phase := Draining(w.phase.rest))
    ensures Uncharged(AfterCommit(cfg, w, now).phase).None? && Uncharged(w.phase).None?
  {
  }

  lemma FailOverBudgets(cfg: Config, w: World, w': World, now: int)
    requires Shape(w.db) && Budgets(cfg, w) && HandsOk(w) && cfg.Sensible() && w.phase.FailingOver?
    requires w' == AfterCommit(cfg, w, now)
    ensures Budgets(cfg, w')
  {
    FailOverWorld(cfg, w, now);
    FailOverShape(w.db, w.phase.channel, now);
    forall id | id in w'.db.rows
      ensures BudgetOk(cfg, w'.db.rows[id], Heard(w', id), id in w'.accepted, Owed(w', id))
    {
      if id in w.db.rows { BudgetCarries(cfg, w, w', id); } else { FreshBudget(cfg, w, id, w'.db.rows[id]); }
    }
  }

  lemma FailOverHands(cfg: Config, w: World, w': World, now: int)
    requires Shape(w.db) && HandsOk(w) && w.phase.FailingOver? && w' == AfterCommit(cfg, w, now)
    ensures HandsOk(w')
  {
    FailOverShape(w.db, w.phase.channel, now);
    forall i | 0 <= i < |InHand(w'.phase)| ensures HoldsPending(w'.db.rows, InHand(w'.phase)[i]) {
      assert HoldsPending(w.db.rows, InHand(w.phase)[i]);
    }
  }

  lemma FailOverKeeps(cfg: Config, w: World, now: int)
    requires Inv(cfg, w) && cfg.Sensible() && w.phase.FailingOver?
    ensures Inv(cfg, AfterCommit(cfg, w, now))
  {
    var w' := AfterCommit(cfg, w, now);
    FailOverShape(w.db, w.phase.channel, now);
    FailOverBudgets(cfg, w, w', now);
    FailOverHands(cfg, w, w', now);
    forall c: string ensures Agrees(cfg, StateOf(w'.db.health, c), OpenOutages(w'.db.outages, c)) {
      assert Agrees(cfg, StateOf(w.db.health, c), OpenOutages(w.db.outages, c));
    }
  }

  lemma CrashKeeps(cfg: Config, w: World)
    requires Inv(cfg, w)
    ensures Inv(cfg, AfterCrash(w))
  {
    var w' := AfterCrash(w);
    if Uncharged(w.phase).Some? { assert HoldsPending(w.db.rows, InHand(w.phase)[0]); }
    forall id | id in w'.db.rows
      ensures BudgetOk(cfg, w'.db.rows[id], Heard(w', id), id in w'.accepted, Owed(w', id))
    {
      assert BudgetOk(cfg, w.db.rows[id], Heard(w, id), id in w.accepted, Owed(w, id));
    }
  }

  /** Every step of the worker, of an enqueuer, and every crash keeps the invariant. */
  lemma StepKeeps(cfg: Config, w: World, e: Event)
    requires Inv(cfg, w) && cfg.Sensible()
    ensures Inv(cfg, Next(cfg, w, e))
  {
    match e
    case Enqueue(incident, channel, action, priority, now) =>
      InsertKeeps(cfg, w, Next(cfg, w, e), NewRow(incident, channel, action, now, priority));
    case Redirect(member, anchor, now) => RedirectKeeps(cfg, w, member, anchor, now);
    case ReadHealth(due) =>
      if w.phase.Idle? && IsDueList(w.db.health, due) {
        assert forall i :: 0 <= i < |due| ==> due[i] in due;
        SameRowsKeep(cfg, w, Next(cfg, w, e));
      }
    case Probe(healthy, digest, now) =>
      if w.phase.Probing? {
        if w.phase.due == [] { SameRowsKeep(cfg, w, Next(cfg, w, e)); }
        else { ProbeKeeps(cfg, w, healthy, digest, now); }
      }
    case Poll(now, lease) => if w.phase.Idle? { PollKeeps(cfg, w, now, lease); }
    case Hear(answer) =>
      if w.phase.Draining? && w.phase.batch != [] { HearKeeps(cfg, w, answer); }
    case Commit(now) => CommitKeeps(cfg, w, now);
    case Crash => CrashKeeps(cfg, w);
  }

  lemma {:induction false} RunKeeps(cfg: Config, run: seq<World>, events: seq<Event>, k: nat)
    requires IsRun(cfg, run, events) && cfg.Sensible() && k < |run|
    ensures Inv(cfg, run[k])
  {
    if k > 0 {
      RunKeeps(cfg, run, events, k - 1);
      assert Took(cfg, run, events, k - 1);
      StepKeeps(cfg, run[k - 1], events[k - 1]);
    }
  }
}
