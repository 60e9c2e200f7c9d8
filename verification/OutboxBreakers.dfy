/** Breakers and the outage log over runs of the worker (src/outbox/channel_health.py). */
module OutboxBreakers {
  import opened Basics
  import opened ChannelHealth
  import opened BreakerHistory
  import opened Routing
  import opened OutboxQueue
  import opened OutboxRuns
  import opened OutboxSafety
  import opened OutboxTheorems

  // ---- the breaker ----------------------------------------------------------------------------

  /** What channel `c` was told since its last delivery, up to place `k`. */
  ghost function Lately(run: seq<World>, events: seq<Event>, c: string, k: nat): seq<Input>
    requires k <= |events| && |run| == |events| + 1
  {
    Since(History(run, events, c, k))
  }

  lemma ToldProbesOpen(cfg: Config, w: World, e: Event, c: string)
    requires PhaseOk(w) && Told(w, e, c) != [] && Told(w, e, c)[0].Probed?
    ensures StateOf(w.db.health, c).state.Open?
  {
  }

  lemma OneMoreTold(cfg: Config, history: seq<Input>, told: seq<Input>)
    requires ProbesFindOutages(cfg, history) && |told| <= 1
    requires told != [] && told[0].Probed? ==> Downs(Since(history)) >= cfg.failureThreshold
    ensures ProbesFindOutages(cfg, history + told)
  {
    var more := history + told;
    if told == [] {
      assert more == history;
    } else {
      assert more[..|more| - 1] == history;
      ProbesFindOutagesBefore(cfg, more);
    }
  }

  /** Only an OPEN breaker is probed, and such a one has reached its threshold. */
  lemma ProbeFindsOutage(cfg: Config, run: seq<World>, events: seq<Event>, k: nat, c: string)
    requires IsRun(cfg, run, events) && cfg.Sensible() && k < |events|
    requires ProbesFindOutages(cfg, History(run, events, c, k))
    requires Told(run[k], events[k], c) != [] && Told(run[k], events[k], c)[0].Probed?
    ensures Downs(Lately(run, events, c, k)) >= cfg.failureThreshold
  {
    assert PhaseOk(run[k]) by { RunKeeps(cfg, run, events, k); }
    ToldProbesOpen(cfg, run[k], events[k], c);
    HistoryReplays(cfg, run, events, k, c);
    BreakerIsItsHistory(cfg, History(run, events, c, k));
  }

  lemma {:induction false} RunsProbeWhenDown(cfg: Config, run: seq<World>, events: seq<Event>, k: nat, c: string)
    requires IsRun(cfg, run, events) && cfg.Sensible() && k < |run|
    ensures ProbesFindOutages(cfg, History(run, events, c, k))
  {
    if k > 0 {
      RunsProbeWhenDown(cfg, run, events, k - 1, c);
      var told := Told(run[k - 1], events[k - 1], c);
      assert |told| <= 1;
      if told != [] && told[0].Probed? { ProbeFindsOutage(cfg, run, events, k - 1, c); }
      OneMoreTold(cfg, History(run, events, c, k - 1), told);
    }
  }

  /** At every moment of every run each breaker is what its channel was told since the last delivery. */
  lemma BreakersCount(cfg: Config, run: seq<World>, events: seq<Event>, k: nat, c: string)
    requires IsRun(cfg, run, events) && cfg.Sensible() && k < |run|
    ensures IsLeftBy(cfg, StateOf(run[k].db.health, c), Lately(run, events, c, k))
  {
    RunsProbeWhenDown(cfg, run, events, k, c);
    HistoryReplays(cfg, run, events, k, c);
    BreakerIsItsHistory(cfg, History(run, events, c, k));
  }

  // ---- the outage log ---------------------------------------------------------------------------

  /** An outage after a step that told its channel `told` at `now` and failed `moved` rows over. */
  function Logged(o: Outage, told: seq<Input>, now: int, moved: nat): Outage {
    if o.recoveredAt.Some? then o
    else Outage(o.channel, if told == [Delivered] then Some(now) else None,
                o.probeAttempts + (if told != [] && told[0].Probed? && !told[0].healthy then 1 else 0),
                o.queuedAtPeak, o.failedOver + moved)
  }

  /** Each outage of the log as one step of its channel leaves it. */
  ghost predicate LogStep(before: seq<Outage>, after: seq<Outage>, channel: string, told: seq<Input>, now: int, moved: nat) {
    && |before| <= |after|
    && forall i :: 0 <= i < |before| ==>
         after[i] == if before[i].channel == channel then Logged(before[i], told, now, moved) else before[i]
  }

  lemma OnlyOneOpen(cfg: Config, db: Db, channel: string, i: nat)
    requires BreakersAgree(cfg, db.health, db.outages) && i in OpenOutages(db.outages, channel)
    ensures CurrentOutage(db.outages, channel) == Some(i) && !StateOf(db.health, channel).state.Closed?
    ensures OpenOutages(db.outages, channel) == {i}
  {
    var open := OpenOutages(db.outages, channel);
    assert Agrees(cfg, StateOf(db.health, channel), open);
    SingletonIs(open, i);
  }

  /** Amending the current outage amends all that are open, as there is but one. */
  lemma AmendIsExact(cfg: Config, db: Db, channel: string, amend: Outage -> Outage)
    requires BreakersAgree(cfg, db.health, db.outages)
    ensures var after := AmendOutage(db.outages, channel, amend);
            forall i :: 0 <= i < |db.outages| ==>
              after[i] == if db.outages[i].channel == channel && db.outages[i].recoveredAt.None? then amend(db.outages[i])
                          else db.outages[i]
  {
    forall i | 0 <= i < |db.outages| && db.outages[i].channel == channel && db.outages[i].recoveredAt.None?
      ensures CurrentOutage(db.outages, channel) == Some(i)
    {
      OnlyOneOpen(cfg, db, channel, i);
    }
  }

  lemma SuccessLogged(cfg: Config, db: Db, channel: string, now: int)
    requires BreakersAgree(cfg, db.health, db.outages)
    ensures LogStep(db.outages, RecordSuccess(db, channel, now).outages, channel, [Delivered], now, 0)
    ensures |RecordSuccess(db, channel, now).outages| == |db.outages|
  {
    AmendIsExact(cfg, db, channel, (o: Outage) => o.(recoveredAt := Some(now)));
    forall i | 0 <= i < |db.outages| && db.outages[i].channel == channel && db.outages[i].recoveredAt.None?
      ensures !StateOf(db.health, channel).state.Closed?
    {
      OnlyOneOpen(cfg, db, channel, i);
    }
  }

  lemma ProbeLogged(cfg: Config, db: Db, channel: string, healthy: bool, now: int)
    requires BreakersAgree(cfg, db.health, db.outages)
    ensures LogStep(db.outages, RecordProbe(cfg, db, channel, healthy, now).outages, channel, [Probed(healthy, now)], now, 0)
    ensures |RecordProbe(cfg, db, channel, healthy, now).outages| == |db.outages|
  {
    AmendIsExact(cfg, db, channel, (o: Outage) => o.(probeAttempts := o.probeAttempts + 1));
  }

  lemma FailureLogged(cfg: Config, db: Db, channel: string, verdict: Verdict, now: int)
    ensures LogStep(db.outages, RecordFailure(cfg, db, channel, verdict, now).outages, channel, [Failed(verdict, now)], now, 0)
  {
  }

  lemma FailOverLogged(cfg: Config, db: Db, channel: string, now: int)
    requires BreakersAgree(cfg, db.health, db.outages)
    ensures var after := FailOver(db, channel, now);
            && db.nextId <= after.nextId && |after.outages| == |db.outages|
            && LogStep(db.outages, after.outages, channel, [], now, after.nextId - db.nextId)
  {
    var available := AvailableChannels(db.health) - {channel};
    if available != {} {
      var ids := FailOverQueue(db.rows, channel);
      var moved := MovedUpTo(db, ids, |ids|, channel, available, now);
      MovedOutages(db, ids, |ids|, channel, available, now);
      var count := moved.nextId - db.nextId;
      AmendIsExact(cfg, db, channel, (o: Outage) => o.(failedOver := o.failedOver + count));
    } else {
      assert FailOver(db, channel, now) == db;
    }
  }

  ghost function Clock(e: Event): int {
    if e.Commit? || e.Probe? then e.now else 0
  }

  /** The rows a step fails over from channel `c`: those it inserts while it is failing that channel over. */
  ghost function FailedOver(w: World, e: Event, after: World, c: string): nat {
    if e.Commit? && w.phase.FailingOver? && w.phase.channel == c && w.db.nextId <= after.db.nextId
    then after.db.nextId - w.db.nextId else 0
  }

  ghost predicate LogsExactly(w: World, e: Event, after: World) {
    && |w.db.outages| <= |after.db.outages| <= |w.db.outages| + 1
    && forall i :: 0 <= i < |w.db.outages| ==>
         var c := w.db.outages[i].channel;
         after.db.outages[i] == Logged(w.db.outages[i], Told(w, e, c), Clock(e), FailedOver(w, e, after, c))
  }

  lemma ConfirmedLogs(cfg: Config, w: World, now: int)
    requires BreakersAgree(cfg, w.db.health, w.db.outages) && w.phase.Confirmed?
    ensures LogsExactly(w, Commit(now), AfterCommit(cfg, w, now))
  {
    SuccessLogged(cfg, w.db, w.phase.channel, now);
  }

  lemma RejectedLogs(cfg: Config, w: World, now: int)
    requires w.phase.Rejected?
    ensures LogsExactly(w, Commit(now), AfterCommit(cfg, w, now))
  {
    FailureLogged(cfg, w.db, w.phase.head.channel, w.phase.verdict, now);
  }

  lemma FailingOverLogs(cfg: Config, w: World, now: int)
    requires BreakersAgree(cfg, w.db.health, w.db.outages) && w.phase.FailingOver?
    ensures LogsExactly(w, Commit(now), AfterCommit(cfg, w, now))
  {
    FailOverLogged(cfg, w.db, w.phase.channel, now);
  }

  lemma CommitLogs(cfg: Config, w: World, now: int)
    requires BreakersAgree(cfg, w.db.health, w.db.outages)
    ensures LogsExactly(w, Commit(now), AfterCommit(cfg, w, now))
  {
    if w.phase.Confirmed? { ConfirmedLogs(cfg, w, now); }
    else if w.phase.Rejected? { RejectedLogs(cfg, w, now); }
    else if w.phase.FailingOver? { FailingOverLogs(cfg, w, now); }
    else { RowsOnlyCommit(cfg, w, now); }
  }

  lemma ProbeOutages(cfg: Config, w: World, healthy: bool, digest: Option<string>, now: int)
    ensures Next(cfg, w, Probe(healthy, digest, now)).db.outages
         == if w.phase.Probing? && w.phase.due != []
            then RecordProbe(cfg, w.db, w.phase.due[0], healthy, now).outages else w.db.outages
  {
  }

  lemma ProbeLogs(cfg: Config, w: World, healthy: bool, digest: Option<string>, now: int)
    requires BreakersAgree(cfg, w.db.health, w.db.outages)
    ensures LogsExactly(w, Probe(healthy, digest, now), Next(cfg, w, Probe(healthy, digest, now)))
  {
    var after := Next(cfg, w, Probe(healthy, digest, now));
    ProbeOutages(cfg, w, healthy, digest, now);
    if w.phase.Probing? && w.phase.due != [] {
      var channel := w.phase.due[0];
      ProbeLogged(cfg, w.db, channel, healthy, now);
      assert LogStep(w.db.outages, after.db.outages, channel, [Probed(healthy, now)], now, 0);
    } else {
      assert after.db.outages == w.db.outages;
    }
  }

  lemma StepLogs(cfg: Config, w: World, e: Event)
    requires BreakersAgree(cfg, w.db.health, w.db.outages)
    ensures LogsExactly(w, e, Next(cfg, w, e))
  {
    match e
    case Commit(now) => CommitLogs(cfg, w, now);
    case Probe(healthy, digest, now) => ProbeLogs(cfg, w, healthy, digest, now);
    case _ => QuietBreakers(cfg, w, e);
  }

  /** A new row at the end of the log, for channel `c` with the rows then waiting on it. */
  ghost predicate Declares(w: World, after: World, c: string) {
    && |after.db.outages| == |w.db.outages| + 1
    && after.db.outages[|w.db.outages|]
       == Outage(c, None, 0, |set id | id in w.db.rows && w.db.rows[id].status.Pending? && w.db.rows[id].channel == c|, 0)
  }

  ghost predicate DeclaresSome(w: World, after: World) {
    exists c :: Declares(w, after, c)
  }

  lemma DeclaringStep(cfg: Config, w: World, e: Event, c: string)
    requires BreakersAgree(cfg, w.db.health, w.db.outages)
    ensures Declares(w, Next(cfg, w, e), c) <==>
              && Told(w, e, c) != [] && Accuses(Told(w, e, c)[0]) && StateOf(w.db.health, c).state.Closed?
              && StateOf(w.db.health, c).failures + 1 >= cfg.failureThreshold
    ensures |Next(cfg, w, e).db.outages| > |w.db.outages| ==> DeclaresSome(w, Next(cfg, w, e))
  {
    StepLogs(cfg, w, e);
    if e.Commit? && w.phase.Rejected? {
      var head, verdict := w.phase.head, w.phase.verdict;
      assert PendingOn(w.db.rows, head.channel)
          == set id | id in w.db.rows && w.db.rows[id].status.Pending? && w.db.rows[id].channel == head.channel;
      if DeclaresOutage(cfg, StateOf(w.db.health, head.channel), verdict) {
        assert Declares(w, Next(cfg, w, e), head.channel);
      }
    } else {
      SameLength(cfg, w, e);
    }
  }

  lemma SameLength(cfg: Config, w: World, e: Event)
    requires BreakersAgree(cfg, w.db.health, w.db.outages) && !(e.Commit? && w.phase.Rejected?)
    ensures |Next(cfg, w, e).db.outages| == |w.db.outages|
  {
    match e
    case Commit(now) =>
      if w.phase.Confirmed? { SuccessLogged(cfg, w.db, w.phase.channel, now); }
      else if w.phase.FailingOver? { FailOverLogged(cfg, w.db, w.phase.channel, now); }
      else { RowsOnlyCommit(cfg, w, now); }
    case Probe(_, _, _) =>
    case _ => QuietBreakers(cfg, w, e);
  }

  /**
   * In every run an outage is declared by exactly the CHANNEL_DOWN verdict that makes as many
   * since the channel's last delivery as the threshold asks; it counts the rows waiting then.
   */
  lemma OutagesAreDeclaredAtTheThreshold(cfg: Config, run: seq<World>, events: seq<Event>, k: nat, c: string)
    requires IsRun(cfg, run, events) && cfg.Sensible() && k < |events|
    ensures var told := Told(run[k], events[k], c);
            Declares(run[k], run[k + 1], c) <==>
              told != [] && Accuses(told[0]) && Downs(Lately(run, events, c, k)) + 1 == cfg.failureThreshold
    ensures |run[k + 1].db.outages| > |run[k].db.outages| ==> DeclaresSome(run[k], run[k + 1])
  {
    assert BreakersAgree(cfg, run[k].db.health, run[k].db.outages) by { RunKeeps(cfg, run, events, k); }
    assert Took(cfg, run, events, k);
    BreakersCount(cfg, run, events, k, c);
    DeclaringStep(cfg, run[k], events[k], c);
  }

  /**
   * In every run the log keeps its rows, and an open one changes in just these ways: it recovers
   * with its channel's next delivery, and counts its failed probes and the rows failed over.
   */
  lemma OutageLogIsExact(cfg: Config, run: seq<World>, events: seq<Event>, k: nat)
    requires IsRun(cfg, run, events) && cfg.Sensible() && k < |events|
    ensures LogsExactly(run[k], events[k], run[k + 1])
  {
    assert BreakersAgree(cfg, run[k].db.health, run[k].db.outages) by { RunKeeps(cfg, run, events, k); }
    assert Took(cfg, run, events, k);
    StepLogs(cfg, run[k], events[k]);
  }
}
