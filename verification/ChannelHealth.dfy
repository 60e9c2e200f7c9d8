/**
 * The per-channel circuit breaker and the outage log (src/outbox/channel_health.py).
 *
 * Times are integer milliseconds. The breaker row of a channel that has never
 * been written reads as CLOSED with zero counters.
 */
module ChannelHealth {
  import opened Basics

  datatype Kind = MessageFatal | ChannelDown | Transient

  /** What a failed delivery implies; `retryAfter` is the provider's hint. */
  datatype Verdict = Verdict(kind: Kind, retryAfter: Option<int>)

  datatype BreakerState = Closed | Open | HalfOpen

  datatype ChannelState = ChannelState(
    state: BreakerState,
    failures: nat,
    step: nat,
    openedAt: Option<int>,
    nextProbeAt: Option<int>)
  {
    predicate IsAvailable() { state.Closed? || state.HalfOpen? }
  }

  datatype Outage = Outage(
    channel: string,
    recoveredAt: Option<int>,
    probeAttempts: nat,
    queuedAtPeak: nat,
    failedOver: nat)

  datatype Config = Config(
    failureThreshold: nat,
    probeBaseMs: nat,
    probeMaxMs: nat,
    halfOpenAllowance: nat,
    maxAttempts: nat,
    batchSize: nat)
  {
    /** A threshold or a budget of zero would declare outages and deaths out of nothing. */
    ghost predicate Sensible() { failureThreshold >= 1 && maxAttempts >= 1 }
  }

  const INITIAL := ChannelState(Closed, 0, 0, None, None)

  function Pow2(n: nat): nat {
    if n == 0 then 1 else 2 * Pow2(n - 1)
  }

  function ProbeDelay(cfg: Config, step: nat): nat {
    var doubled := cfg.probeBaseMs * Pow2(step);
    if doubled <= cfg.probeMaxMs then doubled else cfg.probeMaxMs
  }

  /** `ChannelHealthStore.get`: an absent row reads as a closed breaker. */
  function StateOf(health: map<string, ChannelState>, channel: string): ChannelState {
    if channel in health then health[channel] else INITIAL
  }

  // ---- one breaker, as values -------------------------------------------------

  function AfterFailure(cfg: Config, before: ChannelState, verdict: Verdict, now: int): ChannelState {
    if !verdict.kind.ChannelDown? then before
    else
      var failures := before.failures + 1;
      match before.state
      case HalfOpen =>
        var step := before.step + 1;
        ChannelState(Open, failures, step, Some(before.openedAt.GetOr(now)), Some(now + ProbeDelay(cfg, step)))
      case Open =>
        var step := before.step + 1;
        before.(failures := failures, step := step, nextProbeAt := Some(now + ProbeDelay(cfg, step)))
      case Closed =>
        if failures < cfg.failureThreshold then before.(failures := failures)
        else
          var delay := if verdict.retryAfter.GetOr(0) != 0 then verdict.retryAfter.value else ProbeDelay(cfg, 0);
          ChannelState(Open, failures, 0, Some(now), Some(now + delay))
  }

  predicate DeclaresOutage(cfg: Config, before: ChannelState, verdict: Verdict) {
    verdict.kind.ChannelDown? && before.state.Closed? && before.failures + 1 >= cfg.failureThreshold
  }

  function AfterProbe(cfg: Config, before: ChannelState, healthy: bool, now: int): ChannelState {
    if healthy then before.(state := HalfOpen, failures := 0, nextProbeAt := None)
    else
      var step := before.step + 1;
      before.(state := Open, step := step, openedAt := Some(before.openedAt.GetOr(now)),
              nextProbeAt := Some(now + ProbeDelay(cfg, step)))
  }

  // ---- the outage log ----------------------------------------------------------

  /** Positions of the outages of one channel that have not recovered. */
  ghost function OpenOutages(outages: seq<Outage>, channel: string): set<nat> {
    set i: nat | i < |outages| && outages[i].channel == channel && outages[i].recoveredAt.None?
  }

  /** The outage `ORDER BY outage_id DESC LIMIT 1` picks, when there is one. */
  ghost function CurrentOutage(outages: seq<Outage>, channel: string): Option<nat> {
    var open := OpenOutages(outages, channel);
    if open == {} then None else Some(MaxOf(open))
  }

  ghost function AmendOutage(outages: seq<Outage>, channel: string, amend: Outage -> Outage): (r: seq<Outage>)
    ensures |r| == |outages|
  {
    match CurrentOutage(outages, channel)
    case None => outages
    case Some(i) => outages[i := amend(outages[i])]
  }

  ghost function CloseOutage(outages: seq<Outage>, channel: string, now: int): seq<Outage> {
    AmendOutage(outages, channel, (o: Outage) => o.(recoveredAt := Some(now)))
  }

  ghost function CountProbe(outages: seq<Outage>, channel: string): seq<Outage> {
    AmendOutage(outages, channel, (o: Outage) => o.(probeAttempts := o.probeAttempts + 1))
  }

  ghost function CountFailedOver(outages: seq<Outage>, channel: string, moved: nat): seq<Outage> {
    AmendOutage(outages, channel, (o: Outage) => o.(failedOver := o.failedOver + moved))
  }

  // ---- what a breaker and its log agree on ---------------------------------------

  /** One breaker against the number of its unrecovered outages. */
  ghost predicate Agrees(cfg: Config, s: ChannelState, open: set<nat>) {
    && (s.state.Closed? ==> s.failures < cfg.failureThreshold && s.step == 0 && open == {})
    && (!s.state.Closed? ==> |open| == 1)
  }

  ghost predicate BreakersAgree(cfg: Config, health: map<string, ChannelState>, outages: seq<Outage>) {
    forall c: string :: Agrees(cfg, StateOf(health, c), OpenOutages(outages, c))
  }

  /** Amending a field other than `recoveredAt` leaves every channel's open outages alone. */
  lemma AmendKeepsOpen(outages: seq<Outage>, channel: string, amend: Outage -> Outage)
    requires forall o :: amend(o).channel == o.channel && amend(o).recoveredAt == o.recoveredAt
    ensures forall c :: OpenOutages(AmendOutage(outages, channel, amend), c) == OpenOutages(outages, c)
  {
  }

  /** Recovery closes exactly the newest open outage of its channel. */
  lemma CloseRemovesCurrent(outages: seq<Outage>, channel: string, now: int, c: string)
    requires OpenOutages(outages, channel) != {}
    ensures OpenOutages(CloseOutage(outages, channel, now), c)
         == if c == channel then OpenOutages(outages, c) - {MaxOf(OpenOutages(outages, c))}
            else OpenOutages(outages, c)
  {
    var i := MaxOf(OpenOutages(outages, channel));
    var after := CloseOutage(outages, channel, now);
    assert after == outages[i := outages[i].(recoveredAt := Some(now))];
    assert after[i].recoveredAt.Some?;
    var expected := if c == channel then OpenOutages(outages, c) - {i} else OpenOutages(outages, c);
    forall k: nat ensures k in OpenOutages(after, c) <==> k in expected {
      if k < |outages| && k != i { assert after[k] == outages[k]; }
    }
  }

  lemma SingletonIs(s: set<nat>, x: nat)
    requires |s| == 1 && x in s
    ensures s == {x}
  {
    assert |s - {x}| == 0;
    assert s == (s - {x}) + {x};
  }

  lemma DeclaringAdds(outages: seq<Outage>, fresh_: Outage, c: string)
    requires fresh_.recoveredAt.None?
    ensures OpenOutages(outages + [fresh_], c)
         == if c == fresh_.channel then OpenOutages(outages, c) + {|outages|} else OpenOutages(outages, c)
  {
  }

  // ---- breaker histories -----------------------------------------------------------

  /** One input to a breaker, with the clock reading that accompanies it. */
  datatype Input = Delivered | Failed(verdict: Verdict, at: int) | Probed(healthy: bool, at: int)

  function After(cfg: Config, s: ChannelState, input: Input): ChannelState {
    match input
    case Delivered => INITIAL
    case Failed(verdict, at) => AfterFailure(cfg, s, verdict, at)
    case Probed(healthy, at) => AfterProbe(cfg, s, healthy, at)
  }

  function Replay(cfg: Config, s: ChannelState, history: seq<Input>): ChannelState
    decreases |history|
  {
    if history == [] then s else Replay(cfg, After(cfg, s, history[0]), history[1..])
  }

  /** The history with every failure that does not accuse the channel struck out. */
  function Implicating(history: seq<Input>): seq<Input> {
    if history == [] then []
    else if history[0].Failed? && !history[0].verdict.kind.ChannelDown? then Implicating(history[1..])
    else [history[0]] + Implicating(history[1..])
  }

  /** A poison payload or a rate limit can never convince the breaker of anything. */
  lemma {:induction false} OnlyChannelFailuresCount(cfg: Config, s: ChannelState, history: seq<Input>)
    ensures Replay(cfg, s, history) == Replay(cfg, s, Implicating(history))
    decreases |history|
  {
    if history != [] {
      var next := After(cfg, s, history[0]);
      OnlyChannelFailuresCount(cfg, next, history[1..]);
      if !(history[0].Failed? && !history[0].verdict.kind.ChannelDown?) {
        var kept := Implicating(history);
        assert kept[0] == history[0] && kept[1..] == Implicating(history[1..]);
      }
    }
  }
}
