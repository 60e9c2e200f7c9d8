/**
 * The outbox table and every statement the delivery worker runs against it, as
 * functions from one committed database state to the next
 * (src/outbox/worker.py, src/outbox/recovery.py).
 */
module OutboxQueue {
  import opened Basics
  import opened ChannelHealth
  import opened Routing

  datatype Status = Pending | Sent | Dead | Superseded

  datatype Lease = Lease(holder: string, until: int)

  /** One outbox row. `fallback` is the payload's `delivered_via_fallback` marker. */
  datatype Row = Row(
    incident: string,
    channel: string,
    action: Action,
    fallback: Option<string>,
    status: Status,
    attempts: nat,
    nextAttemptAt: int,
    priority: int,
    lease: Option<Lease>,
    supersededBy: Option<nat>,
    failoverOf: Option<nat>,
    originChannel: string,
    externalRef: Option<string>)

  type Rows = map<nat, Row>

  datatype Db = Db(
    rows: Rows,
    nextId: nat,
    health: map<string, ChannelState>,
    outages: seq<Outage>)

  function NewRow(incident: string, channel: string, action: Action, now: int, priority: int): Row {
    Row(incident, channel, action, None, Pending, 0, now, priority, None, None, None, channel, None)
  }

  function Insert(db: Db, row: Row): Db {
    db.(rows := db.rows[db.nextId := row], nextId := db.nextId + 1)
  }

  // ---- coalescing --------------------------------------------------------------

  /** The rows `WHERE channel = ? AND status = 'pending' AND incident_id = ?` matches. */
  function PendingOf(rows: Rows, channel: string, incident: string): set<nat> {
    set id | id in rows && rows[id].status.Pending? && rows[id].channel == channel
             && rows[id].incident == incident
  }

  function PendingOn(rows: Rows, channel: string): set<nat> {
    set id | id in rows && rows[id].status.Pending? && rows[id].channel == channel
  }

  function MarkedOf(rows: Rows, channel: string, incident: string): set<nat> {
    set id | id in PendingOf(rows, channel, incident) && rows[id].fallback.Some?
  }

  /** The newest fallback marker any pending row of the incident holds on this channel. */
  ghost function LatestMarker(rows: Rows, channel: string, incident: string): Option<string> {
    var marked := MarkedOf(rows, channel, incident);
    if marked == {} then None else rows[MaxOf(marked)].fallback
  }

  ghost function CoalescedRow(rows: Rows, channel: string, done: set<string>, id: nat): Row
    requires id in rows
  {
    var row := rows[id];
    if !row.status.Pending? || row.channel != channel || row.incident !in done then row
    else
      assert id in PendingOf(rows, channel, row.incident);
      var winner := MaxOf(PendingOf(rows, channel, row.incident));
      if id < winner then row.(status := Superseded, supersededBy := Some(winner))
      else row.(fallback := LatestMarker(rows, channel, row.incident))
  }

  /** Every incident in `done` brought down to its newest pending row on `channel`. */
  ghost function CoalescedFor(rows: Rows, channel: string, done: set<string>): Rows {
    map id | id in rows :: CoalescedRow(rows, channel, done, id)
  }

  ghost function Incidents(rows: Rows): set<string> {
    set id | id in rows :: rows[id].incident
  }

  ghost function Coalesced(rows: Rows, channel: string): Rows {
    CoalescedFor(rows, channel, Incidents(rows))
  }

  /** Coalescing every available channel, in `sorted(available)` order. */
  ghost function CoalescedAll(rows: Rows, channels: seq<string>): Rows {
    if channels == [] then rows else CoalescedAll(Coalesced(rows, channels[0]), channels[1..])
  }

  // ---- claiming ------------------------------------------------------------------

  /** `ORDER BY priority ASC, outbox_id ASC`. */
  predicate Before(rows: Rows, a: nat, b: nat)
    requires a in rows && b in rows
  {
    rows[a].priority < rows[b].priority || (rows[a].priority == rows[b].priority && a < b)
  }

  ghost function Foremost(rows: Rows, ids: set<nat>): (first: nat)
    requires ids != {} && ids <= rows.Keys
    ensures first in ids && forall x | x in ids :: x == first || Before(rows, first, x)
  {
    var x :| x in ids;
    if ids == {x} then x
    else
      var rest := Foremost(rows, ids - {x});
      assert forall y | y in ids :: y == x || y in ids - {x};
      if Before(rows, x, rest) then x else rest
  }

  /** The first `limit` of `ids` in queue order. */
  ghost function InOrder(rows: Rows, ids: set<nat>, limit: nat): (picked: seq<nat>)
    requires ids <= rows.Keys
    ensures forall id :: id in picked ==> id in ids
    ensures forall i, j :: 0 <= i < j < |picked| ==> picked[i] != picked[j]
    decreases limit
  {
    if ids == {} || limit == 0 then []
    else
      var first := Foremost(rows, ids);
      [first] + InOrder(rows, ids - {first}, limit - 1)
  }

  function Claimable(rows: Rows, available: set<string>, now: int): set<nat> {
    set id | id in rows && rows[id].status.Pending? && rows[id].nextAttemptAt <= now
             && rows[id].channel in available
             && (rows[id].lease.None? || rows[id].lease.value.until <= now)
  }

  function Leased(rows: Rows, ids: set<nat>, lease: Lease): Rows {
    map id | id in rows :: if id in ids then rows[id].(lease := Some(lease)) else rows[id]
  }

  function HeldBy(rows: Rows, lease: Lease): set<nat> {
    set id | id in rows && rows[id].status.Pending? && rows[id].lease == Some(lease)
  }

  ghost function AfterClaim(rows: Rows, available: set<string>, now: int, lease: Lease, limit: nat): Rows {
    var picked := InOrder(rows, Claimable(rows, available, now), limit);
    Leased(rows, (set id | id in picked), lease)
  }

  /** The batch `_claim` returns: all pending rows carrying this lease, in queue order. */
  ghost function ClaimedBatch(rows: Rows, lease: Lease): seq<nat> {
    var held := HeldBy(rows, lease);
    InOrder(rows, held, |held|)
  }

  /** The half-open allowance: at most `allowance` rows for each channel on trial. */
  function Trimmed(rows: Rows, batch: seq<nat>, halfOpen: set<string>, allowance: nat): (kept: seq<nat>)
    requires forall id :: id in batch ==> id in rows
    ensures forall id :: id in kept ==> id in batch
  {
    if batch == [] then []
    else
      var init := batch[..|batch| - 1];
      var last := batch[|batch| - 1];
      var kept := Trimmed(rows, init, halfOpen, allowance);
      if rows[last].channel in halfOpen && OnChannel(rows, kept, rows[last].channel) >= allowance
      then kept
      else kept + [last]
  }

  function OnChannel(rows: Rows, ids: seq<nat>, channel: string): nat
    requires forall id :: id in ids ==> id in rows
  {
    if ids == [] then 0
    else
      var last := ids[|ids| - 1];
      OnChannel(rows, ids[..|ids| - 1], channel) + if rows[last].channel == channel then 1 else 0
  }

  // ---- row transitions -----------------------------------------------------------

  function MarkSent(db: Db, id: nat, ref: Option<string>): Db
    requires id in db.rows
  {
    var row := db.rows[id];
    db.(rows := db.rows[id := row.(status := Sent, lease := None,
                                   externalRef := if ref.Some? then ref else row.externalRef)])
  }

  function Park(db: Db, id: nat, nextProbeAt: Option<int>, now: int): Db
    requires id in db.rows
  {
    db.(rows := db.rows[id := db.rows[id].(nextAttemptAt := nextProbeAt.GetOr(now + 1000), lease := None)])
  }

  function Backoff(attempts: nat): nat {
    if Pow2(attempts) < 300 then 1000 * Pow2(attempts) else 300000
  }

  /** `attempts` is the count the worker read when it claimed the row. */
  function RetryLater(cfg: Config, db: Db, id: nat, attempts: nat, retryAfter: Option<int>, now: int): Db
    requires id in db.rows
  {
    var charged := attempts + 1;
    var delay := if retryAfter.GetOr(0) != 0 then retryAfter.value else Backoff(charged);
    db.(rows := db.rows[id := db.rows[id].(
                  attempts := charged,
                  status := if charged >= cfg.maxAttempts then Dead else Pending,
                  nextAttemptAt := now + delay, lease := None)])
  }

  function DeadLetter(db: Db, id: nat): Db
    requires id in db.rows
  {
    db.(rows := db.rows[id := db.rows[id].(status := Dead, lease := None)])
  }

  /** What a worker settles a row of its batch with. */
  datatype Settlement =
    | Arrived(ref: Option<string>)
    | Refused(attempts: nat, verdict: Verdict, nextProbeAt: Option<int>)

  function Settled(cfg: Config, db: Db, id: nat, s: Settlement, now: int): Db
    requires id in db.rows
  {
    match s
    case Arrived(ref) => MarkSent(db, id, ref)
    case Refused(attempts, verdict, nextProbeAt) =>
      match verdict.kind
      case MessageFatal => DeadLetter(db, id)
      case ChannelDown => Park(db, id, nextProbeAt, now)
      case Transient => RetryLater(cfg, db, id, attempts, verdict.retryAfter, now)
  }

  // ---- breaker bookkeeping ---------------------------------------------------------

  ghost function RecordSuccess(db: Db, channel: string, now: int): Db {
    var before := StateOf(db.health, channel);
    db.(health := db.health[channel := INITIAL],
        outages := if before.state.Closed? then db.outages else CloseOutage(db.outages, channel, now))
  }

  ghost function RecordFailure(cfg: Config, db: Db, channel: string, verdict: Verdict, now: int): Db {
    var before := StateOf(db.health, channel);
    db.(health := db.health[channel := AfterFailure(cfg, before, verdict, now)],
        outages := if DeclaresOutage(cfg, before, verdict)
                   then db.outages + [Outage(channel, None, 0, |PendingOn(db.rows, channel)|, 0)]
                   else db.outages)
  }

  ghost function RecordProbe(cfg: Config, db: Db, channel: string, healthy: bool, now: int): Db {
    db.(health := db.health[channel := AfterProbe(cfg, StateOf(db.health, channel), healthy, now)],
        outages := if healthy then db.outages else CountProbe(db.outages, channel))
  }

  /**
   * `_prepare_backlog`: coalesce, then queue the digest when an outage is on record and
   * `digest` names one worth sending.
   */
  ghost function PrepareBacklog(db: Db, channel: string, digest: Option<string>, now: int): Db {
    var collapsed := db.(rows := Coalesced(db.rows, channel));
    if digest.Some? && CurrentOutage(db.outages, channel).Some?
    then Insert(collapsed, NewRow(digest.value, channel, Create, now, -1))
    else collapsed
  }

  // ---- failover ----------------------------------------------------------------------

  function AvailableChannels(health: map<string, ChannelState>): set<string> {
    set c | c in KNOWN_CHANNELS && StateOf(health, c).IsAvailable()
  }

  /** The rows `_failover_pending` reads: queued on the channel and not stand-ins themselves. */
  ghost function Originals(rows: Rows, channel: string): set<nat> {
    set id | id in PendingOn(rows, channel) && rows[id].failoverOf.None?
  }

  function StandIn(row: Row, id: nat, target: Target, channel: string, now: int): Row {
    Row(row.incident, target.channel, target.action, row.fallback, Pending, 0, now, row.priority,
        None, None, Some(id), channel, None)
  }

  function MoveOne(db: Db, rows0: Rows, id: nat, channel: string, available: set<string>, now: int): Db
    requires id in rows0 && id in db.rows
  {
    var row := rows0[id];
    var target := SelectFailover(channel, row.action, available);
    if !IsFailoverWorthy(row.priority) || target.None? then db
    else
      var inserted := Insert(db, StandIn(row, id, target.value, channel, now));
      inserted.(rows := inserted.rows[id := inserted.rows[id].(fallback := Some(target.value.channel))])
  }

  /** The first `k` of the rows read, moved one by one. */
  function MovedUpTo(db: Db, ids: seq<nat>, k: nat, channel: string, available: set<string>, now: int): (r: Db)
    requires k <= |ids| && forall id :: id in ids ==> id in db.rows
    ensures forall id :: id in db.rows ==> id in r.rows
    ensures db.nextId <= r.nextId
  {
    if k == 0 then db
    else MoveOne(MovedUpTo(db, ids, k - 1, channel, available, now), db.rows, ids[k - 1], channel, available, now)
  }

  /** Those rows in queue order. */
  ghost function FailOverQueue(rows: Rows, channel: string): (ids: seq<nat>)
    ensures forall id :: id in ids ==> id in Originals(rows, channel) && id in rows
    ensures forall i, j :: 0 <= i < j < |ids| ==> ids[i] != ids[j]
  {
    var originals := Originals(rows, channel);
    InOrder(rows, originals, |originals|)
  }

  ghost function FailOver(db: Db, channel: string, now: int): Db {
    var available := AvailableChannels(db.health) - {channel};
    if available == {} then db
    else
      var ids := FailOverQueue(db.rows, channel);
      var moved := MovedUpTo(db, ids, |ids|, channel, available, now);
      moved.(outages := CountFailedOver(moved.outages, channel, moved.nextId - db.nextId))
  }
}
