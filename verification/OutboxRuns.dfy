/**
 * Runs of one delivery worker with any number of concurrent enqueuers.
 *
 * Every section of the worker that holds the write lock is one step, and between any
 * two of them the engine may queue rows or redirect a member's queued rows to a storm
 * anchor. A crash may abandon the worker between any two steps. Provider answers,
 * probe outcomes, clock readings and lease expiries are inputs of the steps.
 */
module OutboxRuns {
  import opened Basics
  import opened ChannelHealth
  import opened Routing
  import opened OutboxQueue

  /** A claimed row as the worker read it. */
  datatype Claimed = Claimed(id: nat, channel: string, attempts: nat)

  datatype Answer = Accept(ref: Option<string>) | Reject(verdict: Verdict)

  /** Where the worker stands; the rows it still has in hand are part of the phase. */
  datatype Phase =
    | Idle
    | Probing(due: seq<string>)
    | Draining(batch: seq<Claimed>)
    | Accepted(head: Claimed, ref: Option<string>, rest: seq<Claimed>)
    | Confirmed(channel: string, rest: seq<Claimed>)
    | Rejected(head: Claimed, verdict: Verdict, rest: seq<Claimed>)
    | Judged(head: Claimed, verdict: Verdict, nextProbeAt: Option<int>, newlyDown: bool, rest: seq<Claimed>)
    | FailingOver(channel: string, rest: seq<Claimed>)

  /**
   * The committed database, the worker, and what the outside world has seen: every
   * verdict returned for each row, the rows a provider accepted, and the transient
   * verdicts a crash kept from being charged.
   */
  datatype World = World(
    db: Db,
    phase: Phase,
    heard: map<nat, seq<Kind>>,
    accepted: set<nat>,
    lost: map<nat, nat>)

  datatype Event =
    | Enqueue(incident: string, channel: string, action: Action, priority: int, now: int)
    | Redirect(member: string, anchor: string, now: int)
    | ReadHealth(due: seq<string>)
    | Probe(healthy: bool, digest: Option<string>, now: int)
    | Poll(now: int, lease: Lease)
    | Hear(answer: Answer)
    | Commit(now: int)
    | Crash

  // ---- what the engine does to the queue ----------------------------------------------

  ghost predicate AlreadyPosted(rows: Rows, incident: string) {
    exists id :: id in rows && rows[id].incident == incident && rows[id].channel == "slack"
                 && rows[id].status.Sent? && rows[id].externalRef.Some?
  }

  /** `redirect_member_deliveries` (src/graph/storm_grouping.py). */
  ghost function Retargeted(rows: Rows, member: string, anchor: string): Rows {
    map id | id in rows ::
      if rows[id].status.Pending? && rows[id].incident == member
      then rows[id].(incident := anchor, action := Update)
      else rows[id]
  }

  ghost function Redirected(db: Db, member: string, anchor: string, now: int): Db {
    var moved := db.(rows := Retargeted(db.rows, member, anchor));
    if AlreadyPosted(db.rows, member)
    then Insert(moved, NewRow(member, "slack", Update, now, DEFAULT_PRIORITY))
    else moved
  }

  // ---- the worker -------------------------------------------------------------------------

  /**
   * The channels `_probe_open_channels` finds due, in any order, each once. The clock is read
   * anew for each, so any of the open channels may or may not be among them.
   */
  ghost predicate IsDueList(health: map<string, ChannelState>, due: seq<string>) {
    && (forall c :: c in due ==> c in health && health[c].state.Open? && c in KNOWN_CHANNELS)
    && (forall i, j :: 0 <= i < j < |due| ==> due[i] != due[j])
  }

  function SortedChannels(available: set<string>): seq<string> {
    (if "email" in available then ["email"] else []) +
    (if "pagerduty" in available then ["pagerduty"] else []) +
    (if "slack" in available then ["slack"] else [])
  }

  function HalfOpenChannels(health: map<string, ChannelState>): set<string> {
    set c | c in KNOWN_CHANNELS && StateOf(health, c).state.HalfOpen?
  }

  function ClaimedRows(rows: Rows, ids: seq<nat>): seq<Claimed>
    requires forall id :: id in ids ==> id in rows
  {
    seq(|ids|, i requires 0 <= i < |ids| => Claimed(ids[i], rows[ids[i]].channel, rows[ids[i]].attempts))
  }

  /** The rows after one poll has coalesced every available channel and claimed a batch. */
  ghost function PolledRows(cfg: Config, db: Db, now: int, lease: Lease): Rows {
    var available := AvailableChannels(db.health);
    AfterClaim(CoalescedAll(db.rows, SortedChannels(available)), available, now, lease, cfg.batchSize)
  }

  /** The claimed rows that survive the half-open allowance. */
  ghost function PolledBatch(cfg: Config, db: Db, lease: Lease): (kept: seq<nat>)
    ensures forall id :: id in kept ==> id in db.rows
  {
    var claimed := ClaimedBatch(db.rows, lease);
    var halfOpen := HalfOpenChannels(db.health);
    if halfOpen == {} then claimed else Trimmed(db.rows, claimed, halfOpen, cfg.halfOpenAllowance)
  }

  ghost function AfterPoll(cfg: Config, w: World, now: int, lease: Lease): World {
    if AvailableChannels(w.db.health) == {} then w
    else
      var db := w.db.(rows := PolledRows(cfg, w.db, now, lease));
      w.(db := db, phase := Draining(ClaimedRows(db.rows, PolledBatch(cfg, db, lease))))
  }

  ghost function AfterAnswer(w: World, answer: Answer): World
    requires w.phase.Draining? && w.phase.batch != []
  {
    var head, rest := w.phase.batch[0], w.phase.batch[1..];
    match answer
    case Accept(ref) => w.(phase := Accepted(head, ref, rest), accepted := w.accepted + {head.id})
    case Reject(verdict) => w.(phase := Rejected(head, verdict, rest),
                               heard := w.heard[head.id := Heard(w, head.id) + [verdict.kind]])
  }

  /** `_handle_failure` once the breaker has been told. */
  ghost function AfterVerdict(cfg: Config, w: World, now: int): World
    requires w.phase.Judged? && w.phase.head.id in w.db.rows
  {
    var Judged(head, verdict, nextProbeAt, newlyDown, rest) := w.phase;
    match verdict.kind
    case MessageFatal => w.(db := DeadLetter(w.db, head.id), phase := Draining(rest))
    case ChannelDown => w.(db := Park(w.db, head.id, nextProbeAt, now),
                           phase := if newlyDown then FailingOver(head.channel, rest) else Draining(rest))
    case Transient => w.(db := RetryLater(cfg, w.db, head.id, head.attempts, verdict.retryAfter, now),
                         phase := Draining(rest))
  }

  ghost function AfterCommit(cfg: Config, w: World, now: int): World {
    match w.phase
    case Idle => w
    case Probing(due) => w
    case Draining(batch) =>
      if batch == [] then w.(phase := Idle)
      else if batch[0].channel in KNOWN_CHANNELS || batch[0].id !in w.db.rows then w
      else w.(db := DeadLetter(w.db, batch[0].id), phase := Draining(batch[1..]))
    case Accepted(head, ref, rest) =>
      if head.id !in w.db.rows then w
      else w.(db := MarkSent(w.db, head.id, ref), phase := Confirmed(head.channel, rest))
    case Confirmed(channel, rest) => w.(db := RecordSuccess(w.db, channel, now), phase := Draining(rest))
    case Rejected(head, verdict, rest) =>
      var before := StateOf(w.db.health, head.channel);
      w.(db := RecordFailure(cfg, w.db, head.channel, verdict, now),
         phase := Judged(head, verdict, AfterFailure(cfg, before, verdict, now).nextProbeAt,
                         DeclaresOutage(cfg, before, verdict), rest))
    case Judged(head, _, _, _, _) => if head.id !in w.db.rows then w else AfterVerdict(cfg, w, now)
    case FailingOver(channel, rest) => w.(db := FailOver(w.db, channel, now), phase := Draining(rest))
  }

  ghost function AfterCrash(w: World): World {
    w.(phase := Idle,
       lost := if Uncharged(w.phase).Some?
               then w.lost[Uncharged(w.phase).value := Lost(w, Uncharged(w.phase).value) + 1]
               else w.lost)
  }

  /** One step; an event the worker is not ready for changes nothing. */
  ghost function Next(cfg: Config, w: World, e: Event): World {
    match e
    case Enqueue(incident, channel, action, priority, now) =>
      w.(db := Insert(w.db, NewRow(incident, channel, action, now, priority)))
    case Redirect(member, anchor, now) => w.(db := Redirected(w.db, member, anchor, now))
    case ReadHealth(due) =>
      if w.phase.Idle? && IsDueList(w.db.health, due) then w.(phase := Probing(due)) else w
    case Probe(healthy, digest, now) =>
      if !w.phase.Probing? then w
      else if w.phase.due == [] then w.(phase := Idle)
      else
        var channel := w.phase.due[0];
        var probed := RecordProbe(cfg, w.db, channel, healthy, now);
        w.(db := if healthy then PrepareBacklog(probed, channel, digest, now) else probed,
           phase := Probing(w.phase.due[1..]))
    case Poll(now, lease) => if w.phase.Idle? then AfterPoll(cfg, w, now, lease) else w
    case Hear(answer) =>
      if w.phase.Draining? && w.phase.batch != [] && w.phase.batch[0].channel in KNOWN_CHANNELS
      then AfterAnswer(w, answer) else w
    case Commit(now) => AfterCommit(cfg, w, now)
    case Crash => AfterCrash(w)
  }

  // ---- observations -----------------------------------------------------------------------

  ghost function Heard(w: World, id: nat): seq<Kind> {
    if id in w.heard then w.heard[id] else []
  }

  ghost function Lost(w: World, id: nat): nat {
    if id in w.lost then w.lost[id] else 0
  }

  function Transients(kinds: seq<Kind>): nat {
    if kinds == [] then 0
    else Transients(kinds[..|kinds| - 1]) + if kinds[|kinds| - 1].Transient? then 1 else 0
  }

  /** The row whose transient verdict has been heard but not yet charged. */
  function Uncharged(phase: Phase): Option<nat> {
    match phase
    case Rejected(head, verdict, _) => if verdict.kind.Transient? then Some(head.id) else None
    case Judged(head, verdict, _, _, _) => if verdict.kind.Transient? then Some(head.id) else None
    case _ => None
  }

  ghost function Owed(w: World, id: nat): nat {
    Lost(w, id) + if Uncharged(w.phase) == Some(id) then 1 else 0
  }

  /** The rows the worker still has in hand, all of which the database must show as pending. */
  function InHand(phase: Phase): seq<Claimed> {
    match phase
    case Idle => []
    case Probing(_) => []
    case Draining(batch) => batch
    case Accepted(head, _, rest) => [head] + rest
    case Confirmed(_, rest) => rest
    case Rejected(head, _, rest) => [head] + rest
    case Judged(head, _, _, _, rest) => [head] + rest
    case FailingOver(_, rest) => rest
  }

  // ---- the invariant -----------------------------------------------------------------------

  ghost predicate LinksOk(rows: Rows, id: nat)
    requires id in rows
  {
    var row := rows[id];
    && (row.status.Superseded? <==> row.supersededBy.Some?)
    && (row.supersededBy.Some? ==>
          var winner := row.supersededBy.value;
          winner in rows && id < winner && rows[winner].channel == row.channel)
    && (row.failoverOf.Some? ==>
          var primary := row.failoverOf.value;
          && primary in rows && primary < id && rows[primary].failoverOf.None?
          && rows[primary].channel == row.originChannel != row.channel
          && IsFailoverWorthy(row.priority))
    && (row.lease.Some? ==> row.channel in KNOWN_CHANNELS)
  }

  ghost predicate Shape(db: Db) {
    forall id :: id in db.rows ==> id < db.nextId && LinksOk(db.rows, id)
  }

  /** One row's retry budget against everything its provider ever said about it. */
  ghost predicate BudgetOk(cfg: Config, row: Row, heard: seq<Kind>, accepted: bool, owed: nat) {
    && row.attempts + owed == Transients(heard)
    && (row.status.Pending? ==> row.attempts < cfg.maxAttempts)
    && (row.status.Dead? ==> row.channel in KNOWN_CHANNELS
                             && (MessageFatal in heard || Transients(heard) >= cfg.maxAttempts))
    && (row.status.Sent? ==> accepted)
  }

  ghost predicate Budgets(cfg: Config, w: World) {
    && w.heard.Keys <= w.db.rows.Keys && w.lost.Keys <= w.db.rows.Keys && w.accepted <= w.db.rows.Keys
    && forall id :: id in w.db.rows ==> BudgetOk(cfg, w.db.rows[id], Heard(w, id), id in w.accepted, Owed(w, id))
  }

  ghost predicate HoldsPending(rows: Rows, c: Claimed) {
    && c.id in rows && rows[c.id].status.Pending? && rows[c.id].attempts == c.attempts
    && rows[c.id].channel == c.channel && c.channel in KNOWN_CHANNELS
  }

  ghost predicate HandsOk(w: World) {
    var hand := InHand(w.phase);
    && (forall i :: 0 <= i < |hand| ==> HoldsPending(w.db.rows, hand[i]))
    && (forall i, j :: 0 <= i < j < |hand| ==> hand[i].id != hand[j].id)
  }

  ghost predicate PhaseOk(w: World) {
    match w.phase
    case Probing(due) =>
      && (forall i :: 0 <= i < |due| ==> StateOf(w.db.health, due[i]).state.Open?)
      && (forall i, j :: 0 <= i < j < |due| ==> due[i] != due[j])
    case Accepted(head, _, _) => head.id in w.accepted
    case Rejected(head, verdict, _) => verdict.kind in Heard(w, head.id)
    case Judged(head, verdict, _, _, _) => verdict.kind in Heard(w, head.id)
    case _ => true
  }

  ghost predicate Inv(cfg: Config, w: World) {
    && Shape(w.db)
    && Budgets(cfg, w)
    && HandsOk(w)
    && PhaseOk(w)
    && BreakersAgree(cfg, w.db.health, w.db.outages)
  }

  /** An empty queue, every breaker closed, the worker about to start. */
  ghost predicate Init(w: World) {
    w == World(Db(map[], 0, map[], []), Idle, map[], {}, map[])
  }

  /** The step from place `k` is the event's. */
  ghost predicate Took(cfg: Config, run: seq<World>, events: seq<Event>, k: nat)
    requires k < |events| && k + 1 < |run|
  {
    run[k + 1] == Next(cfg, run[k], events[k])
  }

  ghost predicate IsRun(cfg: Config, run: seq<World>, events: seq<Event>) {
    && |run| == |events| + 1
    && Init(run[0])
    && forall k: nat {:trigger Took(cfg, run, events, k)} :: k < |events| ==> Took(cfg, run, events, k)
  }
}
