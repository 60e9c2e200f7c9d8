/** What every run of the delivery worker guarantees. */
module OutboxTheorems {
  import opened Basics
  import opened ChannelHealth
  import opened Routing
  import opened OutboxQueue
  import opened OutboxRuns
  import opened OutboxSafety
  import Breakers = BreakerHistory

  // ---- an outage kills nothing ------------------------------------------------------------

  lemma {:induction false} OnlyOutages(kinds: seq<Kind>)
    requires forall kind :: kind in kinds ==> kind == ChannelDown
    ensures Transients(kinds) == 0 && MessageFatal !in kinds
  {
    if kinds != [] {
      var init := kinds[..|kinds| - 1];
      assert kinds == init + [kinds[|kinds| - 1]];
      assert forall kind :: kind in init ==> kind in kinds;
      assert kinds[|kinds| - 1] in kinds;
      OnlyOutages(init);
    }
  }

  /**
   * At every moment of every run: a dead row earned it (its payload was refused, or its
   * whole budget went on transient failures), a queued row still has budget, and the
   * budget spent is exactly the transient verdicts heard, less those a crash lost. So a
   * row that has only ever heard CHANNEL_DOWN, however often, is alive and uncharged.
   */
  lemma OutageKillsNothing(cfg: Config, run: seq<World>, events: seq<Event>, k: nat, id: nat)
    requires IsRun(cfg, run, events) && cfg.Sensible() && k < |run| && id in run[k].db.rows
    ensures var row, heard := run[k].db.rows[id], Heard(run[k], id);
            && row.attempts + Owed(run[k], id) == Transients(heard)
            && (row.status.Pending? ==> row.attempts < cfg.maxAttempts)
            && (row.status.Dead? ==> MessageFatal in heard || Transients(heard) >= cfg.maxAttempts)
            && (row.status.Dead? ==> row.channel in KNOWN_CHANNELS)
            && (row.status.Sent? ==> id in run[k].accepted)
            && ((forall kind :: kind in heard ==> kind == ChannelDown) ==> !row.status.Dead? && row.attempts == 0)
  {
    RunKeeps(cfg, run, events, k);
    var row, heard := run[k].db.rows[id], Heard(run[k], id);
    assert BudgetOk(cfg, row, heard, id in run[k].accepted, Owed(run[k], id));
    if forall kind :: kind in heard ==> kind == ChannelDown { OnlyOutages(heard); }
  }

  /** Without crashes nothing heard goes uncharged, except while its own step is under way. */
  lemma {:induction false} ChargesAreExact(cfg: Config, run: seq<World>, events: seq<Event>, k: nat, id: nat)
    requires IsRun(cfg, run, events) && cfg.Sensible() && k < |run| && id in run[k].db.rows
    requires Crash !in events[..k] && Uncharged(run[k].phase).None?
    ensures run[k].db.rows[id].attempts == Transients(Heard(run[k], id))
  {
    OutageKillsNothing(cfg, run, events, k, id);
    NothingLost(cfg, run, events, k);
  }

  lemma {:induction false} NothingLost(cfg: Config, run: seq<World>, events: seq<Event>, k: nat)
    requires IsRun(cfg, run, events) && k < |run| && Crash !in events[..k]
    ensures run[k].lost == map[]
  {
    if k > 0 {
      assert Took(cfg, run, events, k - 1);
      assert events[k - 1] in events[..k];
      assert events[..k - 1] == events[..k][..k - 1];
      NothingLost(cfg, run, events, k - 1);
    }
  }

  // ---- what one step may do to one row -------------------------------------------------------

  /** What a step may do to one row: only the settling of its own verdict charges it or kills it. */
  ghost predicate StepAllows(w: World, e: Event, id: nat, before: Row, after: Row) {
    && SameIdentity(before, after)
    && (!before.status.Pending? ==> after == before)
    && (after.attempts != before.attempts || (after.status.Dead? && !before.status.Dead?) ==>
          w.phase.Judged? && e.Commit? && w.phase.head.id == id && !w.phase.verdict.kind.ChannelDown?)
  }

  /** The events that leave every row as it is. */
  lemma QuietRows(cfg: Config, w: World, e: Event)
    requires e.ReadHealth? || e.Hear? || e.Crash? || e.Enqueue?
    ensures forall id :: id in w.db.rows && id < w.db.nextId ==>
              id in Next(cfg, w, e).db.rows && Next(cfg, w, e).db.rows[id] == w.db.rows[id]
  {
  }

  lemma RedirectRow(cfg: Config, w: World, e: Event, id: nat)
    requires e.Redirect? && id in w.db.rows && id < w.db.nextId
    ensures id in Next(cfg, w, e).db.rows && StepAllows(w, e, id, w.db.rows[id], Next(cfg, w, e).db.rows[id])
  {
  }

  lemma PollAllows(cfg: Config, w: World, e: Event, id: nat)
    requires e.Poll? && Shape(w.db) && id in w.db.rows
    ensures id in Next(cfg, w, e).db.rows && StepAllows(w, e, id, w.db.rows[id], Next(cfg, w, e).db.rows[id])
  {
    if w.phase.Idle? && AvailableChannels(w.db.health) != {} { PollRow(cfg, w, e.now, e.lease, id); }
  }

  /**
   * Rows are never dropped, finished rows are never touched again, and only the settling
   * of a row's own verdict, never a CHANNEL_DOWN one, charges it or kills it.
   */
  lemma OneStep(cfg: Config, w: World, e: Event, id: nat)
    requires Shape(w.db) && HandsOk(w) && id in w.db.rows
    ensures id in Next(cfg, w, e).db.rows
    ensures StepAllows(w, e, id, w.db.rows[id], Next(cfg, w, e).db.rows[id])
  {
    assert id < w.db.nextId;
    match e
    case Enqueue(_, _, _, _, _) => QuietRows(cfg, w, e);
    case Redirect(_, _, _) => RedirectRow(cfg, w, e, id);
    case ReadHealth(_) => QuietRows(cfg, w, e);
    case Probe(healthy, digest, now) => ProbeRow(cfg, w, healthy, digest, now, id);
    case Poll(_, _) => PollAllows(cfg, w, e, id);
    case Hear(_) => QuietRows(cfg, w, e);
    case Commit(now) => CommitRow(cfg, w, now, id);
    case Crash => QuietRows(cfg, w, e);
  }

  /** What coalescing may do to one row. */
  ghost predicate AtMostSuperseded(before: Row, after: Row) {
    && SameIdentity(before, after) && after.attempts == before.attempts
    && (!before.status.Pending? ==> after == before)
    && (after.status.Dead? ==> before.status.Dead?)
  }

  lemma CoalescedAt(rows: Rows, channel: string, id: nat)
    requires id in rows
    ensures id in Coalesced(rows, channel) && AtMostSuperseded(rows[id], Coalesced(rows, channel)[id])
  {
  }

  lemma ProbeRow(cfg: Config, w: World, healthy: bool, digest: Option<string>, now: int, id: nat)
    requires id in w.db.rows && id < w.db.nextId
    ensures var after := Next(cfg, w, Probe(healthy, digest, now)).db.rows;
            id in after && AtMostSuperseded(w.db.rows[id], after[id])
  {
    if w.phase.Probing? && w.phase.due != [] {
      CoalescedAt(w.db.rows, w.phase.due[0], id);
    }
  }

  lemma {:induction false} CoalescedAllFrozen(rows: Rows, channels: seq<string>, id: nat)
    requires id in rows && !rows[id].status.Pending?
    ensures id in CoalescedAll(rows, channels) && CoalescedAll(rows, channels)[id] == rows[id]
    decreases |channels|
  {
    if channels != [] { CoalescedAllFrozen(Coalesced(rows, channels[0]), channels[1..], id); }
  }

  lemma PollRow(cfg: Config, w: World, now: int, lease: Lease, id: nat)
    requires Shape(w.db) && id in w.db.rows
    ensures var after := PolledRows(cfg, w.db, now, lease);
            && id in after && SameIdentity(w.db.rows[id], after[id])
            && (!w.db.rows[id].status.Pending? ==> after[id] == w.db.rows[id])
            && after[id].attempts == w.db.rows[id].attempts
            && (after[id].status.Dead? ==> w.db.rows[id].status.Dead?)
  {
    var channels := SortedChannels(AvailableChannels(w.db.health));
    CoalescedAllExtends(w.db, channels);
    if !w.db.rows[id].status.Pending? { CoalescedAllFrozen(w.db.rows, channels, id); }
    var collapsed := CoalescedAll(w.db.rows, channels);
    var available := AvailableChannels(w.db.health);
    assert collapsed[id].status.Pending? || id !in Claimable(collapsed, available, now);
  }

  lemma HeadRow(cfg: Config, w: World, now: int, id: nat)
    requires HandsOk(w) && id in w.db.rows && InHand(w.phase) != [] && !w.phase.FailingOver?
    ensures var after := AfterCommit(cfg, w, now).db.rows;
            && id in after && SameIdentity(w.db.rows[id], after[id])
            && (!w.db.rows[id].status.Pending? ==> after[id] == w.db.rows[id])
            && (after[id].attempts != w.db.rows[id].attempts || (after[id].status.Dead? && !w.db.rows[id].status.Dead?)
                ==> w.phase.Judged? && w.phase.head.id == id && !w.phase.verdict.kind.ChannelDown?)
  {
    assert HoldsPending(w.db.rows, InHand(w.phase)[0]);
  }

  lemma CommitRow(cfg: Config, w: World, now: int, id: nat)
    requires Shape(w.db) && HandsOk(w) && id in w.db.rows
    ensures var after := AfterCommit(cfg, w, now).db.rows;
            && id in after && SameIdentity(w.db.rows[id], after[id])
            && (!w.db.rows[id].status.Pending? ==> after[id] == w.db.rows[id])
            && (after[id].attempts != w.db.rows[id].attempts || (after[id].status.Dead? && !w.db.rows[id].status.Dead?)
                ==> w.phase.Judged? && w.phase.head.id == id && !w.phase.verdict.kind.ChannelDown?)
  {
    if w.phase.FailingOver? { FailOverShape(w.db, w.phase.channel, now); }
    else if InHand(w.phase) != [] { HeadRow(cfg, w, now, id); }
  }

  /** Sent, dead and superseded are final: from then on the whole row never changes. */
  lemma {:induction false} FinishedRowsStay(cfg: Config, run: seq<World>, events: seq<Event>, j: nat, k: nat, id: nat)
    requires IsRun(cfg, run, events) && cfg.Sensible() && j <= k < |run|
    requires id in run[j].db.rows
    ensures id in run[k].db.rows && SameIdentity(run[j].db.rows[id], run[k].db.rows[id])
    ensures !run[j].db.rows[id].status.Pending? ==> run[k].db.rows[id] == run[j].db.rows[id]
  {
    if j < k {
      FinishedRowsStay(cfg, run, events, j, k - 1, id);
      assert Shape(run[k - 1].db) && HandsOk(run[k - 1]) by { RunKeeps(cfg, run, events, k - 1); }
      assert Took(cfg, run, events, k - 1);
      OneStep(cfg, run[k - 1], events[k - 1], id);
    }
  }

  // ---- superseded rows ---------------------------------------------------------------------------

  /** Where a row's intent ended up: follow `superseded_by` until it stops. */
  ghost function Heir(db: Db, id: nat): nat
    requires Shape(db) && id in db.rows
    decreases db.nextId - id
  {
    assert LinksOk(db.rows, id);
    if db.rows[id].supersededBy.None? then id else Heir(db, db.rows[id].supersededBy.value)
  }

  lemma {:induction false} HeirIsLive(db: Db, id: nat)
    requires Shape(db) && id in db.rows
    ensures var heir := Heir(db, id);
            && heir in db.rows && id <= heir
            && !db.rows[heir].status.Superseded?
            && db.rows[heir].channel == db.rows[id].channel
    decreases db.nextId - id
  {
    assert LinksOk(db.rows, id);
    if db.rows[id].supersededBy.Some? { HeirIsLive(db, db.rows[id].supersededBy.value); }
  }

  /** No superseded row is lost: its chain climbs to a pending, sent or dead row of its channel. */
  lemma SupersededIsNotLost(cfg: Config, run: seq<World>, events: seq<Event>, k: nat, id: nat)
    requires IsRun(cfg, run, events) && cfg.Sensible() && k < |run| && id in run[k].db.rows
    ensures Shape(run[k].db)
    ensures var db := run[k].db; var heir := Heir(db, id);
            && heir in db.rows && db.rows[heir].channel == db.rows[id].channel
            && (db.rows[heir].status.Pending? || db.rows[heir].status.Sent? || db.rows[heir].status.Dead?)
            && (db.rows[id].status.Superseded? <==> id < heir)
  {
    RunKeeps(cfg, run, events, k);
    HeirIsLive(run[k].db, id);
    assert LinksOk(run[k].db.rows, id);
    if run[k].db.rows[id].status.Superseded? {
      HeirIsLive(run[k].db, run[k].db.rows[id].supersededBy.value);
    }
  }

  /** Stand-ins point at an older, original, urgent row of another channel, and are never moved again. */
  lemma StandInsAreWellFounded(cfg: Config, run: seq<World>, events: seq<Event>, k: nat, id: nat)
    requires IsRun(cfg, run, events) && cfg.Sensible() && k < |run| && id in run[k].db.rows
    requires run[k].db.rows[id].failoverOf.Some?
    ensures var rows := run[k].db.rows; var primary := rows[id].failoverOf.value;
            && primary in rows && primary < id && rows[primary].failoverOf.None?
            && rows[primary].channel == rows[id].originChannel != rows[id].channel
            && IsFailoverWorthy(rows[id].priority)
    ensures forall c :: id !in Originals(run[k].db.rows, c)
  {
    RunKeeps(cfg, run, events, k);
    assert LinksOk(run[k].db.rows, id);
  }

  // ---- breakers over runs -------------------------------------------------------------------------

  /** Exactly one unrecovered outage while a channel is down or on trial, none once it is closed. */
  lemma OutagesMatchBreakers(cfg: Config, run: seq<World>, events: seq<Event>, k: nat, c: string)
    requires IsRun(cfg, run, events) && cfg.Sensible() && k < |run|
    ensures var s, open := StateOf(run[k].db.health, c), OpenOutages(run[k].db.outages, c);
            && (s.state.Closed? <==> |open| == 0)
            && (!s.state.Closed? <==> |open| == 1)
            && (s.state.Closed? ==> s.failures < cfg.failureThreshold && s.step == 0)
  {
    RunKeeps(cfg, run, events, k);
    assert Agrees(cfg, StateOf(run[k].db.health, c), OpenOutages(run[k].db.outages, c));
  }

  /** Only probes and settlements touch breakers and outages. */
  lemma QuietBreakers(cfg: Config, w: World, e: Event)
    requires !e.Probe? && !e.Commit?
    ensures Next(cfg, w, e).db.health == w.db.health && Next(cfg, w, e).db.outages == w.db.outages
  {
  }

  lemma ProbeOutage(cfg: Config, w: World, e: Event, c: string, i: nat)
    requires e.Probe? && i in OpenOutages(Next(cfg, w, e).db.outages, c)
    ensures i in OpenOutages(w.db.outages, c)
    ensures StateOf(w.db.health, c).step <= StateOf(Next(cfg, w, e).db.health, c).step
  {
    if w.phase.Probing? && w.phase.due != [] && !e.healthy {
      AmendKeepsOpen(w.db.outages, w.phase.due[0], (o: Outage) => o.(probeAttempts := o.probeAttempts + 1));
    }
  }

  lemma OutageStep(cfg: Config, w: World, e: Event, c: string, i: nat)
    requires Shape(w.db) && BreakersAgree(cfg, w.db.health, w.db.outages)
    requires i < |w.db.outages| && i in OpenOutages(Next(cfg, w, e).db.outages, c)
    ensures i in OpenOutages(w.db.outages, c)
    ensures StateOf(w.db.health, c).step <= StateOf(Next(cfg, w, e).db.health, c).step
  {
    if e.Probe? {
      ProbeOutage(cfg, w, e, c, i);
    } else if e.Commit? {
      CommitOutage(cfg, w, e.now, c, i);
    } else {
      QuietBreakers(cfg, w, e);
    }
  }

  lemma SuccessOutage(cfg: Config, db: Db, channel: string, now: int, c: string, i: nat)
    requires BreakersAgree(cfg, db.health, db.outages)
    requires i in OpenOutages(RecordSuccess(db, channel, now).outages, c)
    ensures i in OpenOutages(db.outages, c)
    ensures StateOf(db.health, c).step <= StateOf(RecordSuccess(db, channel, now).health, c).step
  {
    assert Agrees(cfg, StateOf(db.health, channel), OpenOutages(db.outages, channel));
    if !StateOf(db.health, channel).state.Closed? {
      CloseRemovesCurrent(db.outages, channel, now, c);
      SingletonIs(OpenOutages(db.outages, channel), MaxOf(OpenOutages(db.outages, channel)));
    }
  }

  lemma FailureOutage(cfg: Config, db: Db, channel: string, verdict: Verdict, now: int, c: string, i: nat)
    requires BreakersAgree(cfg, db.health, db.outages)
    requires i < |db.outages| && i in OpenOutages(RecordFailure(cfg, db, channel, verdict, now).outages, c)
    ensures i in OpenOutages(db.outages, c)
    ensures StateOf(db.health, c).step <= StateOf(RecordFailure(cfg, db, channel, verdict, now).health, c).step
  {
    assert Agrees(cfg, StateOf(db.health, channel), OpenOutages(db.outages, channel));
    if DeclaresOutage(cfg, StateOf(db.health, channel), verdict) {
      DeclaringAdds(db.outages, Outage(channel, None, 0, |PendingOn(db.rows, channel)|, 0), c);
    }
  }

  lemma FailOverOutage(cfg: Config, db: Db, channel: string, now: int, c: string, i: nat)
    requires Shape(db) && i in OpenOutages(FailOver(db, channel, now).outages, c)
    ensures i in OpenOutages(db.outages, c)
    ensures StateOf(FailOver(db, channel, now).health, c) == StateOf(db.health, c)
  {
    FailOverShape(db, channel, now);
  }

  lemma RowsOnlyCommit(cfg: Config, w: World, now: int)
    requires !w.phase.Confirmed? && !w.phase.Rejected? && !w.phase.FailingOver?
    ensures AfterCommit(cfg, w, now).db.health == w.db.health && AfterCommit(cfg, w, now).db.outages == w.db.outages
  {
  }

  lemma CommitOutage(cfg: Config, w: World, now: int, c: string, i: nat)
    requires Shape(w.db) && BreakersAgree(cfg, w.db.health, w.db.outages)
    requires i < |w.db.outages| && i in OpenOutages(AfterCommit(cfg, w, now).db.outages, c)
    ensures i in OpenOutages(w.db.outages, c)
    ensures StateOf(w.db.health, c).step <= StateOf(AfterCommit(cfg, w, now).db.health, c).step
  {
    match w.phase
    case Confirmed(channel, _) => SuccessOutage(cfg, w.db, channel, now, c, i);
    case Rejected(head, verdict, _) => FailureOutage(cfg, w.db, head.channel, verdict, now, c, i);
    case FailingOver(channel, _) => FailOverOutage(cfg, w.db, channel, now, c, i);
    case _ => RowsOnlyCommit(cfg, w, now);
  }

  lemma OutagesOnlyGrow(cfg: Config, w: World, e: Event)
    ensures |w.db.outages| <= |Next(cfg, w, e).db.outages|
  {
    match e
    case Commit(now) =>
      if w.phase.FailingOver? { FailOverOutages(w.db, w.phase.channel, now); }
    case _ =>
  }

  lemma FailOverOutages(db: Db, channel: string, now: int)
    ensures |FailOver(db, channel, now).outages| == |db.outages|
  {
    var available := AvailableChannels(db.health) - {channel};
    var ids := FailOverQueue(db.rows, channel);
    MovedOutages(db, ids, |ids|, channel, available, now);
  }

  lemma {:induction false} MovedOutages(db: Db, ids: seq<nat>, k: nat, channel: string, available: set<string>, now: int)
    requires k <= |ids| && forall id :: id in ids ==> id in db.rows
    ensures MovedUpTo(db, ids, k, channel, available, now).outages == db.outages
  {
    if k > 0 { MovedOutages(db, ids, k - 1, channel, available, now); }
  }

  lemma RunOutageStep(cfg: Config, run: seq<World>, events: seq<Event>, k: nat, c: string, i: nat)
    requires IsRun(cfg, run, events) && cfg.Sensible() && k < |events|
    requires i < |run[k].db.outages| && i in OpenOutages(run[k + 1].db.outages, c)
    ensures i in OpenOutages(run[k].db.outages, c)
    ensures StateOf(run[k].db.health, c).step <= StateOf(run[k + 1].db.health, c).step
  {
    RunKeeps(cfg, run, events, k);
    assert Took(cfg, run, events, k);
    OutageStep(cfg, run[k], events[k], c, i);
  }

  /** While one outage lasts, the probe interval never shrinks back. */
  lemma {:induction false} ProbeStepsNeverFall(
      cfg: Config, run: seq<World>, events: seq<Event>, j: nat, k: nat, c: string, i: nat)
    requires IsRun(cfg, run, events) && cfg.Sensible() && j <= k < |run|
    requires i < |run[j].db.outages| && i in OpenOutages(run[k].db.outages, c)
    ensures i in OpenOutages(run[j].db.outages, c)
    ensures StateOf(run[j].db.health, c).step <= StateOf(run[k].db.health, c).step
  {
    if j < k {
      GrownBy(cfg, run, events, j, k - 1);
      RunOutageStep(cfg, run, events, k - 1, c, i);
      ProbeStepsNeverFall(cfg, run, events, j, k - 1, c, i);
    }
  }

  lemma {:induction false} GrownBy(cfg: Config, run: seq<World>, events: seq<Event>, j: nat, k: nat)
    requires IsRun(cfg, run, events) && j <= k < |run|
    ensures |run[j].db.outages| <= |run[k].db.outages|
  {
    if j < k {
      GrownBy(cfg, run, events, j, k - 1);
      assert Took(cfg, run, events, k - 1);
      OutagesOnlyGrow(cfg, run[k - 1], events[k - 1]);
    }
  }

  // ---- breakers as functions of their history -------------------------------------------------------

  /** What a step tells the breaker of channel `c`, if anything. */
  ghost function Told(w: World, e: Event, c: string): seq<Input> {
    match e
    case Probe(healthy, _, now) =>
      if w.phase.Probing? && w.phase.due != [] && w.phase.due[0] == c then [Probed(healthy, now)] else []
    case Commit(now) =>
      (match w.phase
       case Confirmed(channel, _) => if channel == c then [Delivered] else []
       case Rejected(head, verdict, _) => if head.channel == c then [Failed(verdict, now)] else []
       case _ => [])
    case _ => []
  }

  ghost function History(run: seq<World>, events: seq<Event>, c: string, k: nat): seq<Input>
    requires k <= |events| && |run| == |events| + 1
  {
    if k == 0 then [] else History(run, events, c, k - 1) + Told(run[k - 1], events[k - 1], c)
  }

  lemma ToldIsAll(cfg: Config, w: World, e: Event, c: string)
    ensures var told := Told(w, e, c);
            && |told| <= 1
            && StateOf(Next(cfg, w, e).db.health, c)
               == if told == [] then StateOf(w.db.health, c) else After(cfg, StateOf(w.db.health, c), told[0])
  {
    match e
    case Commit(now) =>
      if w.phase.FailingOver? { FailOverHealth(w.db, w.phase.channel, now); }
    case _ =>
  }

  lemma FailOverHealth(db: Db, channel: string, now: int)
    ensures FailOver(db, channel, now).health == db.health
  {
    var available := AvailableChannels(db.health) - {channel};
    var ids := FailOverQueue(db.rows, channel);
    MovedHealth(db, ids, |ids|, channel, available, now);
  }

  lemma {:induction false} MovedHealth(db: Db, ids: seq<nat>, k: nat, channel: string, available: set<string>, now: int)
    requires k <= |ids| && forall id :: id in ids ==> id in db.rows
    ensures MovedUpTo(db, ids, k, channel, available, now).health == db.health
  {
    if k > 0 { MovedHealth(db, ids, k - 1, channel, available, now); }
  }

  lemma ToldReplays(cfg: Config, w: World, e: Event, c: string, history: seq<Input>)
    requires StateOf(w.db.health, c) == Replay(cfg, INITIAL, history)
    ensures StateOf(Next(cfg, w, e).db.health, c) == Replay(cfg, INITIAL, history + Told(w, e, c))
  {
    ToldIsAll(cfg, w, e, c);
    Breakers.ReplayAppends(cfg, INITIAL, history, Told(w, e, c));
  }

  lemma {:induction false} HistoryReplays(cfg: Config, run: seq<World>, events: seq<Event>, k: nat, c: string)
    requires IsRun(cfg, run, events) && k < |run|
    ensures StateOf(run[k].db.health, c) == Replay(cfg, INITIAL, History(run, events, c, k))
  {
    if k > 0 {
      HistoryReplays(cfg, run, events, k - 1, c);
      assert Took(cfg, run, events, k - 1);
      ToldReplays(cfg, run[k - 1], events[k - 1], c, History(run, events, c, k - 1));
    }
  }

  /**
   * In every run a breaker is where its deliveries, probes and CHANNEL_DOWN verdicts alone
   * put it: striking every transient and message-fatal failure from its history changes nothing.
   */
  lemma BreakerIgnoresRowFaults(cfg: Config, run: seq<World>, events: seq<Event>, k: nat, c: string)
    requires IsRun(cfg, run, events) && k < |run|
    ensures StateOf(run[k].db.health, c) == Replay(cfg, INITIAL, History(run, events, c, k))
    ensures StateOf(run[k].db.health, c) == Replay(cfg, INITIAL, Implicating(History(run, events, c, k)))
  {
    HistoryReplays(cfg, run, events, k, c);
    OnlyChannelFailuresCount(cfg, INITIAL, History(run, events, c, k));
  }
}
