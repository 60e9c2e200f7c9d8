/**
 * A breaker as its history makes it (src/outbox/channel_health.py): the whole state, read off
 * the deliveries, probes and CHANNEL_DOWN verdicts since the last delivery.
 */
module BreakerHistory {
  import opened Basics
  import opened ChannelHealth

  predicate Accuses(i: Input) {
    i.Failed? && i.verdict.kind.ChannelDown?
  }

  /** What a breaker was told since its last delivery, row faults left out. */
  function Since(history: seq<Input>): seq<Input> {
    if history == [] then []
    else
      var before, last := Since(history[..|history| - 1]), history[|history| - 1];
      if last.Delivered? then []
      else if last.Probed? || Accuses(last) then before + [last]
      else before
  }

  /** CHANNEL_DOWN verdicts. */
  function Downs(told: seq<Input>): nat {
    if told == [] then 0
    else Downs(told[..|told| - 1]) + if Accuses(told[|told| - 1]) then 1 else 0
  }

  /** CHANNEL_DOWN verdicts since the last healthy probe. */
  function DownsOnTrial(told: seq<Input>): nat {
    if told == [] then 0
    else
      var last := told[|told| - 1];
      if last.Probed? && last.healthy then 0
      else DownsOnTrial(told[..|told| - 1]) + if Accuses(last) then 1 else 0
  }

  function FailedProbes(told: seq<Input>): nat {
    if told == [] then 0
    else
      var last := told[|told| - 1];
      FailedProbes(told[..|told| - 1]) + if last.Probed? && !last.healthy then 1 else 0
  }

  /** When the `n`th CHANNEL_DOWN verdict came. */
  function DownAt(told: seq<Input>, n: nat): int
    requires 1 <= n <= Downs(told)
  {
    var init, last := told[..|told| - 1], told[|told| - 1];
    if n <= Downs(init) then DownAt(init, n) else last.at
  }

  /** A channel is probed only once it is down, as only OPEN channels are. */
  ghost predicate ProbedWhenDown(cfg: Config, told: seq<Input>) {
    forall i :: 0 <= i < |told| && told[i].Probed? ==> Downs(told[..i]) >= cfg.failureThreshold
  }

  function Wait(cfg: Config, step: nat, last: Input): int {
    if step == 0 && last.Failed? && last.verdict.retryAfter.GetOr(0) != 0 then last.verdict.retryAfter.value
    else ProbeDelay(cfg, step)
  }

  /** The breaker `told` leaves since the last delivery, field by field. */
  ghost predicate IsLeftBy(cfg: Config, s: ChannelState, told: seq<Input>) {
    && (s.state.Closed? <==> Downs(told) < cfg.failureThreshold)
    && (s.state.Closed? ==> s == ChannelState(Closed, Downs(told), 0, None, None))
    && (!s.state.Closed? ==>
          && told != []
          && var last := told[|told| - 1];
             && (last.Failed? || last.Probed?)
             && (s.state.HalfOpen? <==> last.Probed? && last.healthy)
             && s.failures == DownsOnTrial(told)
             && s.step == Downs(told) + FailedProbes(told) - cfg.failureThreshold
             && cfg.failureThreshold >= 1 && s.openedAt == Some(DownAt(told, cfg.failureThreshold))
             && s.nextProbeAt == if s.state.HalfOpen? then None else Some(last.at + Wait(cfg, s.step, last)))
  }

  /** Below the threshold there are only CHANNEL_DOWN verdicts. */
  lemma {:induction false} OnlyDowns(cfg: Config, told: seq<Input>)
    requires ProbedWhenDown(cfg, told) && Downs(told) <= cfg.failureThreshold
    requires told != [] ==> Downs(told[..|told| - 1]) < cfg.failureThreshold
    ensures FailedProbes(told) == 0 && DownsOnTrial(told) == Downs(told)
  {
    if told != [] {
      var init := told[..|told| - 1];
      assert !told[|told| - 1].Probed?;
      ProbedWhenDownBefore(cfg, told);
      if init != [] { assert Downs(init[..|init| - 1]) <= Downs(init); }
      OnlyDowns(cfg, init);
    }
  }

  lemma ProbedWhenDownBefore(cfg: Config, told: seq<Input>)
    requires told != [] && ProbedWhenDown(cfg, told)
    ensures ProbedWhenDown(cfg, told[..|told| - 1])
    ensures told[|told| - 1].Probed? ==> Downs(told[..|told| - 1]) >= cfg.failureThreshold
  {
    var init := told[..|told| - 1];
    forall i | 0 <= i < |init| && init[i].Probed? ensures Downs(init[..i]) >= cfg.failureThreshold {
      assert told[i].Probed? && told[..i] == init[..i];
    }
  }

  /** One more input, from a breaker that is what it was told. */
  lemma ToldOnce(cfg: Config, s: ChannelState, told: seq<Input>, input: Input)
    requires cfg.failureThreshold >= 1 && IsLeftBy(cfg, s, told)
    requires ProbedWhenDown(cfg, told + [input])
    requires Accuses(input) || input.Probed?
    ensures IsLeftBy(cfg, After(cfg, s, input), told + [input])
  {
    var more := told + [input];
    assert more[..|more| - 1] == told;
    ProbedWhenDownBefore(cfg, more);
    if s.state.Closed? { OnlyDowns(cfg, more); }
  }

  lemma {:induction false} ReplayAppends(cfg: Config, s: ChannelState, history: seq<Input>, more: seq<Input>)
    requires |more| <= 1
    ensures Replay(cfg, s, history + more)
         == if more == [] then Replay(cfg, s, history) else After(cfg, Replay(cfg, s, history), more[0])
    decreases |history|
  {
    if more == [] { assert history + more == history; }
    else if history == [] { assert history + more == more; }
    else {
      assert (history + more)[0] == history[0] && (history + more)[1..] == history[1..] + more;
      ReplayAppends(cfg, After(cfg, s, history[0]), history[1..], more);
    }
  }

  /** Every probe of the history found its channel down. */
  ghost predicate ProbesFindOutages(cfg: Config, history: seq<Input>) {
    forall n :: 0 <= n < |history| && history[n].Probed? ==> Downs(Since(history[..n])) >= cfg.failureThreshold
  }

  lemma ProbesFindOutagesBefore(cfg: Config, history: seq<Input>)
    requires history != []
    ensures var init, last := history[..|history| - 1], history[|history| - 1];
            ProbesFindOutages(cfg, history) <==>
              ProbesFindOutages(cfg, init) && (last.Probed? ==> Downs(Since(init)) >= cfg.failureThreshold)
  {
    var init := history[..|history| - 1];
    assert forall n :: 0 <= n < |init| ==> init[n] == history[n] && init[..n] == history[..n];
  }

  lemma LastIsProbedWhenDown(cfg: Config, told: seq<Input>, last: Input)
    requires ProbedWhenDown(cfg, told) && (last.Probed? ==> Downs(told) >= cfg.failureThreshold)
    ensures ProbedWhenDown(cfg, told + [last])
  {
    var more := told + [last];
    forall i | 0 <= i < |more| && more[i].Probed? ensures Downs(more[..i]) >= cfg.failureThreshold {
      if i < |told| { assert told[i].Probed? && more[..i] == told[..i]; } else { assert more[..i] == told; }
    }
  }

  /**
   * Replaying a history step by step gives the breaker that can be read off it: CLOSED while
   * the CHANNEL_DOWN verdicts since the last delivery are fewer than the threshold, and after
   * that on trial if the last word was a healthy probe; every verdict since then is counted,
   * the outage dates from the verdict that reached the threshold, and the next probe is due
   * after a wait that doubles with each verdict or failed probe since.
   */
  lemma {:induction false} BreakerIsItsHistory(cfg: Config, history: seq<Input>)
    requires cfg.failureThreshold >= 1 && ProbesFindOutages(cfg, history)
    ensures ProbedWhenDown(cfg, Since(history)) && IsLeftBy(cfg, Replay(cfg, INITIAL, history), Since(history))
  {
    if history != [] {
      var init, last := history[..|history| - 1], history[|history| - 1];
      ProbesFindOutagesBefore(cfg, history);
      BreakerIsItsHistory(cfg, init);
      assert history == init + [last];
      ReplayAppends(cfg, INITIAL, init, [last]);
      if last.Probed? || Accuses(last) {
        LastIsProbedWhenDown(cfg, Since(init), last);
        ToldOnce(cfg, Replay(cfg, INITIAL, init), Since(init), last);
      }
    }
  }

  /** The wait doubles from the base up to the ceiling. */
  lemma ProbeDelayDoubles(cfg: Config, step: nat)
    ensures ProbeDelay(cfg, 0) == if cfg.probeBaseMs <= cfg.probeMaxMs then cfg.probeBaseMs else cfg.probeMaxMs
    ensures ProbeDelay(cfg, step + 1)
         == if 2 * ProbeDelay(cfg, step) <= cfg.probeMaxMs then 2 * ProbeDelay(cfg, step) else cfg.probeMaxMs
  {
    var base, p := cfg.probeBaseMs, Pow2(step);
    assert base * (2 * p) == 2 * (base * p);
  }
}
