/**
 * Leases, for any number of workers at once (src/outbox/worker.py): what settling a row gives
 * back, and that a leased row is in nobody else's hands whatever else happens to the queue.
 */
module OutboxLeases {
  import opened Basics
  import opened ChannelHealth
  import opened Routing
  import opened OutboxQueue
  import opened OutboxRuns
  import Safety = OutboxSafety
  import Recovery = OutboxRecovery

  // ---- settling ---------------------------------------------------------------------------------

  /** The attempts a settlement leaves: only a transient failure is charged. */
  function Charged(row: Row, s: Settlement): nat {
    if s.Refused? && s.verdict.kind.Transient? then s.attempts + 1 else row.attempts
  }

  /** Whether the row waits for another try. */
  function StillWaits(cfg: Config, row: Row, s: Settlement): bool {
    match s
    case Arrived(_) => false
    case Refused(attempts, verdict, _) =>
      !verdict.kind.MessageFatal? && row.status.Pending? && (verdict.kind.Transient? ==> attempts + 1 < cfg.maxAttempts)
  }

  /**
   * Settling a pending row touches that row alone: its lease is given back, only a transient
   * failure is charged, and any worker may claim the row again exactly if it still waits, from
   * the time it was put off to.
   */
  lemma SettlingGivesBack(cfg: Config, db: Db, id: nat, s: Settlement, now: int, available: set<string>, later: int)
    requires id in db.rows && db.rows[id].status.Pending?
    ensures var after := Settled(cfg, db, id, s, now);
            && after.rows.Keys == db.rows.Keys && (forall x :: x in db.rows && x != id ==> after.rows[x] == db.rows[x])
            && after.nextId == db.nextId && after.health == db.health && after.outages == db.outages
            && after.rows[id].lease.None? && after.rows[id].attempts == Charged(db.rows[id], s)
            && (id in Claimable(after.rows, available, later) <==>
                  && StillWaits(cfg, db.rows[id], s)
                  && after.rows[id].nextAttemptAt <= later && db.rows[id].channel in available)
            && (s.Refused? && s.verdict.kind.ChannelDown? ==>
                  after.rows[id].nextAttemptAt == s.nextProbeAt.GetOr(now + 1000))
            && (s.Arrived? ==> after.rows[id].status.Sent?
                                 && (s.ref.Some? ==> after.rows[id].externalRef == s.ref))
  {
  }

  /** The row a settlement leaves, field by field. */
  lemma SettledRowIs(cfg: Config, db: Db, id: nat, s: Settlement, now: int)
    requires id in db.rows && db.rows[id].status.Pending?
    ensures var row, after := db.rows[id], Settled(cfg, db, id, s, now).rows[id];
            && after.lease.None?
            && after == row.(status := after.status, lease := None, attempts := after.attempts,
                             nextAttemptAt := after.nextAttemptAt, externalRef := after.externalRef)
            && (s.Arrived? ==>
                  && after.status == Sent && after.attempts == row.attempts && after.nextAttemptAt == row.nextAttemptAt
                  && after.externalRef == if s.ref.Some? then s.ref else row.externalRef)
            && (s.Refused? ==> after.externalRef == row.externalRef)
            && (s.Refused? && s.verdict.kind.MessageFatal? ==>
                  after.status == Dead && after.attempts == row.attempts && after.nextAttemptAt == row.nextAttemptAt)
            && (s.Refused? && s.verdict.kind.ChannelDown? ==>
                  && after.status == Pending && after.attempts == row.attempts
                  && after.nextAttemptAt == if s.nextProbeAt.Some? then s.nextProbeAt.value else now + 1000)
            && (s.Refused? && s.verdict.kind.Transient? ==>
                  && after.attempts == s.attempts + 1
                  && (after.status == if s.attempts + 1 >= cfg.maxAttempts then Dead else Pending)
                  && after.nextAttemptAt == now + if s.verdict.retryAfter.Some? && s.verdict.retryAfter.value != 0
                                                  then s.verdict.retryAfter.value else Backoff(s.attempts + 1))
  {
  }

  /** One second, doubled with each attempt, at most five minutes. */
  lemma BackoffDoubles(attempts: nat)
    ensures Backoff(0) == 1000
    ensures Backoff(attempts + 1) == if 2 * Backoff(attempts) <= 300000 then 2 * Backoff(attempts) else 300000
  {
    Pow2IsEven(attempts);
  }

  lemma {:induction false} Pow2IsEven(n: nat)
    ensures Pow2(n) >= 1
    ensures n <= 8 ==> Pow2(n) == [1, 2, 4, 8, 16, 32, 64, 128, 256][n]
    ensures n >= 9 ==> Pow2(n) >= 512
  {
    if n > 0 { Pow2IsEven(n - 1); }
  }

  // ---- what happens to a queue that many workers share --------------------------------------------

  /** The queue, and which rows each lease was ever handed. */
  datatype Shared = Shared(db: Db, handed: set<(Lease, nat)>)

  datatype Act =
    | Claims(available: set<string>, now: int, lease: Lease, limit: nat)
    | Settles(holder: Lease, id: nat, settlement: Settlement, now: int)
    | Coalesces(channel: string)
    | FailsOver(channel: string, now: int)
    | Enqueues(incident: string, channel: string, action: Action, priority: int, now: int)
    | Redirects(member: string, anchor: string, now: int)

  /** A worker settles only rows it was handed, and inserts number on. */
  ghost predicate Possible(s: Shared, a: Act) {
    && (forall id :: id in s.db.rows ==> id < s.db.nextId)
    && (a.Settles? ==> (a.holder, a.id) in s.handed && a.id in s.db.rows)
  }

  ghost function Acted(cfg: Config, s: Shared, a: Act): Shared
    requires Possible(s, a)
  {
    match a
    case Claims(available, now, lease, limit) =>
      var rows := AfterClaim(s.db.rows, available, now, lease, limit);
      Shared(s.db.(rows := rows), s.handed + set id | id in ClaimedBatch(rows, lease) :: (lease, id))
    case Settles(_, id, settlement, now) => s.(db := Settled(cfg, s.db, id, settlement, now))
    case Coalesces(channel) => s.(db := s.db.(rows := Coalesced(s.db.rows, channel)))
    case FailsOver(channel, now) => s.(db := FailOver(s.db, channel, now))
    case Enqueues(incident, channel, action, priority, now) =>
      s.(db := Insert(s.db, NewRow(incident, channel, action, now, priority)))
    case Redirects(member, anchor, now) => s.(db := Redirected(s.db, member, anchor, now))
  }

  ghost predicate IsHistory(cfg: Config, states: seq<Shared>, acts: seq<Act>) {
    && |states| == |acts| + 1
    && forall k :: 0 <= k < |acts| ==> Possible(states[k], acts[k]) && states[k + 1] == Acted(cfg, states[k], acts[k])
  }

  ghost predicate Leased(s: Shared, id: nat, lease: Lease) {
    id in s.db.rows && s.db.rows[id].lease == Some(lease)
  }

  /** No claim comes as late as the end of the lease. */
  predicate InTime(a: Act, lease: Lease) {
    a.Claims? ==> a.now < lease.until
  }

  predicate SettlesRow(a: Act, id: nat) {
    a.Settles? && a.id == id
  }

  lemma ClaimExcludes(s: Shared, available: set<string>, now: int, lease: Lease, limit: nat, id: nat, held: Lease)
    requires Leased(s, id, held) && now < held.until
    ensures var rows := AfterClaim(s.db.rows, available, now, lease, limit);
            id in rows && rows[id].lease == Some(held) && (lease != held ==> id !in ClaimedBatch(rows, lease))
  {
    assert id !in Claimable(s.db.rows, available, now);
    var rows := AfterClaim(s.db.rows, available, now, lease, limit);
    assert lease != held ==> id !in HeldBy(rows, lease);
  }

  lemma FailOverKeepsLeases(db: Db, channel: string, now: int, id: nat)
    requires id in db.rows && forall x :: x in db.rows ==> x < db.nextId
    ensures id in FailOver(db, channel, now).rows && FailOver(db, channel, now).rows[id].lease == db.rows[id].lease
  {
    var available := AvailableChannels(db.health) - {channel};
    var ids := FailOverQueue(db.rows, channel);
    Recovery.MarksAreExact(db, ids, |ids|, channel, available, now);
    assert Recovery.MovedMarks(db, MovedUpTo(db, ids, |ids|, channel, available, now), ids, |ids|, channel, available);
  }

  /** Until the lease ends only settling the row takes it away, and nobody else is newly handed the row. */
  lemma ActKeepsLease(cfg: Config, s: Shared, a: Act, id: nat, lease: Lease)
    requires Possible(s, a) && Leased(s, id, lease) && InTime(a, lease)
    ensures Leased(Acted(cfg, s, a), id, lease) <==> !SettlesRow(a, id)
    ensures forall other :: other != lease && (other, id) in Acted(cfg, s, a).handed ==> (other, id) in s.handed
  {
    match a
    case Claims(available, now, other, limit) => ClaimExcludes(s, available, now, other, limit, id, lease);
    case Settles(_, _, _, _) =>
    case Coalesces(channel) =>
    case FailsOver(channel, now) => FailOverKeepsLeases(s.db, channel, now, id);
    case Enqueues(_, _, _, _, _) =>
    case Redirects(_, _, _) =>
  }

  /** At every place up to `k` the row carries the lease. */
  ghost predicate KeptThrough(states: seq<Shared>, k: nat, id: nat, lease: Lease)
    requires k < |states|
  {
    forall i :: 0 <= i <= k ==> Leased(states[i], id, lease)
  }

  lemma StepOf(cfg: Config, states: seq<Shared>, acts: seq<Act>, k: nat)
    requires IsHistory(cfg, states, acts) && k < |acts|
    ensures Possible(states[k], acts[k]) && states[k + 1] == Acted(cfg, states[k], acts[k])
  {
  }

  lemma KeptOneMore(states: seq<Shared>, k: nat, id: nat, lease: Lease)
    requires 0 < k < |states|
    ensures KeptThrough(states, k, id, lease) <==> KeptThrough(states, k - 1, id, lease) && Leased(states[k], id, lease)
  {
  }

  /** Nobody settled the row before place `k`. */
  predicate Unsettled(acts: seq<Act>, k: nat, id: nat)
    requires k <= |acts|
  {
    forall i :: 0 <= i < k ==> !SettlesRow(acts[i], id)
  }

  lemma {:induction false} LeaseLasts(cfg: Config, states: seq<Shared>, acts: seq<Act>, k: nat, id: nat, lease: Lease)
    requires IsHistory(cfg, states, acts) && k < |states| && Leased(states[0], id, lease)
    requires forall i :: 0 <= i < k ==> InTime(acts[i], lease)
    ensures KeptThrough(states, k, id, lease) <==> Unsettled(acts, k, id)
    ensures KeptThrough(states, k, id, lease) ==>
              forall other :: other != lease && (other, id) in states[k].handed ==> (other, id) in states[0].handed
  {
    if k > 0 {
      LeaseLasts(cfg, states, acts, k - 1, id, lease);
      KeptOneMore(states, k, id, lease);
      assert Unsettled(acts, k, id) <==> Unsettled(acts, k - 1, id) && !SettlesRow(acts[k - 1], id);
      if KeptThrough(states, k - 1, id, lease) {
        assert Leased(states[k - 1], id, lease);
        StepOf(cfg, states, acts, k - 1);
        ActKeepsLease(cfg, states[k - 1], acts[k - 1], id, lease);
      }
    }
  }

  /**
   * Whatever any number of workers and enqueuers do before a lease ends, the row keeps the
   * lease exactly as long as nobody settles the row, its holder or an earlier one; and while
   * it does, the row is in no other lease's batch and is newly handed to nobody else.
   */
  lemma LeasesExclude(cfg: Config, states: seq<Shared>, acts: seq<Act>, k: nat, id: nat, lease: Lease)
    requires IsHistory(cfg, states, acts) && k < |states| && Leased(states[0], id, lease)
    requires forall i :: 0 <= i < k ==> InTime(acts[i], lease)
    ensures KeptThrough(states, k, id, lease) <==> Unsettled(acts, k, id)
    ensures KeptThrough(states, k, id, lease) ==>
              forall other :: other != lease ==>
                id !in ClaimedBatch(states[k].db.rows, other)
                && ((other, id) in states[k].handed ==> (other, id) in states[0].handed)
  {
    LeaseLasts(cfg, states, acts, k, id, lease);
    if KeptThrough(states, k, id, lease) {
      assert Leased(states[k], id, lease);
      forall other | other != lease ensures id !in ClaimedBatch(states[k].db.rows, other) {
        assert id !in HeldBy(states[k].db.rows, other);
      }
    }
  }

  /** A row never handed to anybody else is its holder's until the lease ends or the holder settles it. */
  lemma {:induction false} FirstLeaseIsSafe(cfg: Config, states: seq<Shared>, acts: seq<Act>, k: nat, id: nat, lease: Lease)
    requires IsHistory(cfg, states, acts) && k < |states| && Leased(states[0], id, lease)
    requires forall other :: (other, id) in states[0].handed ==> other == lease
    requires forall i :: 0 <= i < k ==> InTime(acts[i], lease) && !(SettlesRow(acts[i], id) && acts[i].holder == lease)
    ensures KeptThrough(states, k, id, lease)
    ensures forall other :: (other, id) in states[k].handed ==> other == lease
  {
    if k > 0 {
      FirstLeaseIsSafe(cfg, states, acts, k - 1, id, lease);
      assert Leased(states[k - 1], id, lease);
      ActKeepsLease(cfg, states[k - 1], acts[k - 1], id, lease);
    }
  }

  // ---- where a lease is given away ------------------------------------------------------------------

  const LATE := Lease("late", 10)
  const SECOND := Lease("second", 20)
  const THIRD := Lease("third", 22)

  function LateActs(): seq<Act> {
    [Claims({"slack"}, 0, LATE, 1), Claims({"slack"}, 10, SECOND, 1),
     Settles(LATE, 0, Refused(0, Verdict(ChannelDown, None), Some(11)), 11), Claims({"slack"}, 12, THIRD, 1)]
  }

  function OneRow(lease: Option<Lease>, nextAttemptAt: int): Db {
    Db(map[0 := NewRow("i", "slack", Create, 0, 2).(lease := lease, nextAttemptAt := nextAttemptAt)], 1, map[], [])
  }

  lemma OneRowClaimed(cfg: Config, s: Shared, before: Option<Lease>, since: int, now: int, lease: Lease)
    requires s.db == OneRow(before, since) && since <= now && (before.None? || before.value.until <= now)
    ensures Possible(s, Claims({"slack"}, now, lease, 1))
    ensures Acted(cfg, s, Claims({"slack"}, now, lease, 1)) == Shared(OneRow(Some(lease), since), s.handed + {(lease, 0)})
  {
    var rows := s.db.rows;
    assert Claimable(rows, {"slack"}, now) == {0};
    assert InOrder(rows, {0}, 1) == [0] + InOrder(rows, {0} - {0}, 0);
    var after := AfterClaim(rows, {"slack"}, now, lease, 1);
    assert after == OneRow(Some(lease), since).rows;
    assert HeldBy(after, lease) == {0};
    assert InOrder(after, {0}, 1) == [0] + InOrder(after, {0} - {0}, 0);
    assert (set id | id in ClaimedBatch(after, lease) :: (lease, id)) == {(lease, 0)};
  }

  lemma LateSettlement(cfg: Config, s: Shared)
    requires s.db == OneRow(Some(SECOND), 0) && (LATE, 0) in s.handed
    ensures Possible(s, LateActs()[2]) && Acted(cfg, s, LateActs()[2]) == s.(db := OneRow(None, 11))
  {
    assert LateActs()[2] == Settles(LATE, 0, Refused(0, Verdict(ChannelDown, None), Some(11)), 11);
    assert Settled(cfg, s.db, 0, Refused(0, Verdict(ChannelDown, None), Some(11)), 11).rows == OneRow(None, 11).rows;
  }

  /** The queue after each of `LateActs`. */
  function LateStates(): seq<Shared> {
    [Shared(OneRow(None, 0), {}),
     Shared(OneRow(Some(LATE), 0), {(LATE, 0)}),
     Shared(OneRow(Some(SECOND), 0), {(LATE, 0), (SECOND, 0)}),
     Shared(OneRow(None, 11), {(LATE, 0), (SECOND, 0)}),
     Shared(OneRow(Some(THIRD), 11), {(LATE, 0), (SECOND, 0), (THIRD, 0)})]
  }

  lemma LateStep(cfg: Config, k: nat)
    requires k < 4
    ensures Possible(LateStates()[k], LateActs()[k])
    ensures Acted(cfg, LateStates()[k], LateActs()[k]) == LateStates()[k + 1]
  {
    var s := LateStates()[k];
    if k == 0 { OneRowClaimed(cfg, s, None, 0, 0, LATE); }
    else if k == 1 { OneRowClaimed(cfg, s, Some(LATE), 0, 10, SECOND); }
    else if k == 2 { LateSettlement(cfg, s); }
    else { OneRowClaimed(cfg, s, None, 11, 12, THIRD); }
  }

  /**
   * Settling asks nothing of the lease, so a holder that comes back late gives its successor's
   * lease away: the third worker is handed the row while the second one holds it unsettled.
   */
  lemma LateHolderGivesLeaseAway(cfg: Config)
    ensures var states, acts := LateStates(), LateActs();
            && IsHistory(cfg, states, acts)
            && Leased(states[2], 0, SECOND) && InTime(acts[2], SECOND) && InTime(acts[3], SECOND)
            && !(SettlesRow(acts[2], 0) && acts[2].holder == SECOND) && !SettlesRow(acts[3], 0)
            && Leased(states[4], 0, THIRD) && 0 in ClaimedBatch(states[4].db.rows, THIRD)
  {
    forall k | 0 <= k < 4
      ensures Possible(LateStates()[k], LateActs()[k])
      ensures LateStates()[k + 1] == Acted(cfg, LateStates()[k], LateActs()[k])
    {
      LateStep(cfg, k);
    }
    var rows := LateStates()[4].db.rows;
    assert HeldBy(rows, THIRD) == {0};
    assert InOrder(rows, {0}, 1) == [0] + InOrder(rows, {0} - {0}, 0);
  }
}
