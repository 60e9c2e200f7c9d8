/**
 * The decayed co-occurrence counters of one scope (src/graph/observe_incident.py,
 * src/graph/edge_decay.py).
 *
 * Times are whole milliseconds, and decay is `q` to the elapsed time for the half-life's
 * `0 < q <= 1`. A fingerprint fixes its scope, so the incidents of a round share one.
 */
module CoOccurrence {
  import opened Basics
  import opened RealArithmetic

  datatype Counter = Counter(value: real, at: int)

  type Edge = (nat, nat)

  /** graph_node_stats, edges, and the scope's row of graph_scope_stats. */
  datatype Tables = Tables(nodes: map<nat, Counter>, edges: map<Edge, Counter>, rounds: Option<Counter>)

  /** One observation: the current incident, its time, and when each related one last fired. */
  datatype Round = Round(current: nat, time: int, related: map<nat, int>)

  // ---- decay ----------------------------------------------------------------------------------

  function Elapsed(now: int, before: int): nat {
    if now < before then 0 else now - before
  }

  function Decayed(q: real, value: real, elapsed: nat): real {
    Times(value, Pow(q, elapsed))
  }

  predicate IsDecay(q: real) {
    0.0 < q <= 1.0
  }

  // ---- counters -------------------------------------------------------------------------------

  /** Age a counter to `now`, then add one observation. */
  function Bumped(q: real, counter: Option<Counter>, now: int): Counter {
    match counter
    case None => Counter(1.0, now)
    case Some(c) => Counter(Decayed(q, c.value, Elapsed(now, c.at)) + 1.0, now)
  }

  function Find<K>(counters: map<K, Counter>, key: K): Option<Counter> {
    if key in counters then Some(counters[key]) else None
  }

  function Participants(r: Round): set<nat> {
    r.related.Keys + {r.current}
  }

  /** Whichever fired first is the source; at the same time it is the related one. */
  function EdgeOf(r: Round, other: nat): Edge
    requires other in r.related
  {
    if r.related[other] <= r.time then (other, r.current) else (r.current, other)
  }

  function EdgesOf(r: Round): set<Edge> {
    set other | other in r.related && other != r.current :: EdgeOf(r, other)
  }

  /** One round: every participant and the scope once, and every pair with the current incident. */
  function AfterRound(q: real, t: Tables, r: Round): Tables {
    Tables(
      map p | p in t.nodes.Keys + Participants(r) ::
        if p in Participants(r) then Bumped(q, Find(t.nodes, p), r.time) else t.nodes[p],
      map e | e in t.edges.Keys + EdgesOf(r) ::
        if e in EdgesOf(r) then Bumped(q, Find(t.edges, e), r.time) else t.edges[e],
      Some(Bumped(q, t.rounds, r.time)))
  }

  ghost function After(q: real, history: seq<Round>): Tables {
    if history == [] then Tables(map[], map[], None)
    else AfterRound(q, After(q, history[..|history| - 1]), history[|history| - 1])
  }

  // ---- what a counter should say ----------------------------------------------------------------

  type Selector = Round -> bool

  ghost function Seen(p: nat): Selector {
    r => p in Participants(r)
  }

  ghost function Joined(e: Edge): Selector {
    r => e in EdgesOf(r)
  }

  ghost function Any(): Selector {
    r => true
  }

  /** The sum over the selected rounds of the decay from each to `now`. */
  ghost function Sum(q: real, history: seq<Round>, now: int, counts: Selector): real {
    if history == [] then 0.0
    else
      var last := history[|history| - 1];
      Sum(q, history[..|history| - 1], now, counts)
      + if counts(last) then Pow(q, Elapsed(now, last.time)) else 0.0
  }

  /** A counter as its row would be read at `now`. */
  function ReadAt(q: real, counter: Option<Counter>, now: int): real {
    match counter
    case None => 0.0
    case Some(c) => Decayed(q, c.value, Elapsed(now, c.at))
  }

  /** The rounds selected come in time order. */
  ghost predicate InOrder(history: seq<Round>, counts: Selector) {
    forall j, k :: 0 <= j < k < |history| && counts(history[j]) && counts(history[k]) ==>
      history[j].time <= history[k].time
  }

  ghost predicate Before(history: seq<Round>, now: int) {
    forall k :: 0 <= k < |history| ==> history[k].time <= now
  }

  /** The counter the selected rounds leave. */
  ghost function CounterOf(q: real, history: seq<Round>, counts: Selector): Option<Counter> {
    if history == [] then None
    else
      var last, before := history[|history| - 1], CounterOf(q, history[..|history| - 1], counts);
      if counts(last) then Some(Bumped(q, before, last.time)) else before
  }

  lemma {:induction false} TablesHoldCounters(q: real, history: seq<Round>)
    ensures forall p :: Find(After(q, history).nodes, p) == CounterOf(q, history, Seen(p))
    ensures forall e :: Find(After(q, history).edges, e) == CounterOf(q, history, Joined(e))
    ensures After(q, history).rounds == CounterOf(q, history, Any())
  {
    if history != [] {
      TablesHoldCounters(q, history[..|history| - 1]);
    }
  }

  /** Adding one keeps a counter in step with its sum, unless the round is late: then the counter falls behind. */
  lemma BumpReads(q: real, c: Counter, time: int, now: int)
    requires IsDecay(q) && c.value >= 1.0 && c.at <= now && time <= now
    ensures var after, sum := ReadAt(q, Some(Bumped(q, Some(c), time)), now),
                              ReadAt(q, Some(c), now) + Pow(q, Elapsed(now, time));
            && after <= sum
            && (time >= c.at || q == 1.0 ==> after == sum)
            && (time < c.at && q < 1.0 ==> after < sum)
    ensures Bumped(q, Some(c), time).value >= 1.0
  {
    var aged, left := Elapsed(time, c.at), Elapsed(now, time);
    Distributes(Pow(q, left), Decayed(q, c.value, aged), 1.0);
    Shuffle(c.value, Pow(q, aged), Pow(q, left));
    PowAdds(q, aged, left);
    assert ReadAt(q, Some(Bumped(q, Some(c), time)), now) == Decayed(q, c.value, aged + left) + Pow(q, left);
    if time >= c.at {
      assert aged + left == Elapsed(now, c.at);
    } else if q < 1.0 {
      PowFalls(q, Elapsed(now, c.at), left);
      StrictlyGrows(Pow(q, left), Pow(q, Elapsed(now, c.at)), c.value);
    } else {
      PowOfOne(left);
      PowOfOne(Elapsed(now, c.at));
    }
    PowInRange(q, aged);
    Scale(c.value, 0.0, Pow(q, aged));
  }

  lemma {:induction false} PowOfOne(n: nat)
    ensures Pow(1.0, n) == 1.0
  {
    if n > 0 { PowOfOne(n - 1); }
  }

  /** A counter bears the time of the last round it counted, the latest of them if they came in order. */
  lemma {:induction false} CounterBears(q: real, history: seq<Round>, now: int, counts: Selector)
    requires IsDecay(q) && Before(history, now)
    ensures var c := CounterOf(q, history, counts);
            if c.None? then forall k :: 0 <= k < |history| ==> !counts(history[k])
            else
              && c.value.value >= 1.0 && c.value.at <= now
              && (exists k :: 0 <= k < |history| && counts(history[k]) && history[k].time == c.value.at)
              && (InOrder(history, counts) ==>
                    forall k :: 0 <= k < |history| && counts(history[k]) ==> history[k].time <= c.value.at)
  {
    if history != [] {
      var n := |history| - 1;
      CounterBears(q, history[..n], now, counts);
      var c := CounterOf(q, history[..n], counts);
      if counts(history[n]) && c.Some? { BumpReads(q, c.value, history[n].time, now); }
    }
  }

  lemma InOrderOneMore(history: seq<Round>, counts: Selector)
    requires history != []
    ensures var n := |history| - 1;
            InOrder(history, counts) <==>
              && InOrder(history[..n], counts)
              && (counts(history[n]) ==> forall k :: 0 <= k < n && counts(history[k]) ==> history[k].time <= history[n].time)
  {
  }

  /**
   * A counter never exceeds the decayed sum of its own observations, and it is that sum
   * exactly if the rounds it counted came in time order, or nothing decays.
   */
  lemma {:induction false} CounterIsSum(q: real, history: seq<Round>, now: int, counts: Selector)
    requires IsDecay(q) && Before(history, now)
    ensures ReadAt(q, CounterOf(q, history, counts), now) <= Sum(q, history, now, counts)
    ensures ReadAt(q, CounterOf(q, history, counts), now) == Sum(q, history, now, counts)
       <==> InOrder(history, counts) || q == 1.0
  {
    if history != [] {
      var n := |history| - 1;
      var init, last := history[..n], history[n];
      CounterIsSum(q, init, now, counts);
      CounterBears(q, init, now, counts);
      InOrderOneMore(history, counts);
      var c := CounterOf(q, init, counts);
      if counts(last) {
        if c.None? {
          SumOfNone(q, init, now, counts);
        } else {
          BumpReads(q, c.value, last.time, now);
          LateOrNot(history, counts, c.value.at);
        }
      }
    }
  }

  /** In order up to the last round: whether that is late shows against the time the counter bears. */
  lemma LateOrNot(history: seq<Round>, counts: Selector, at: int)
    requires history != [] && counts(history[|history| - 1])
    requires exists k :: 0 <= k < |history| - 1 && counts(history[k]) && history[k].time == at
    requires var init := history[..|history| - 1];
             InOrder(init, counts) ==> forall k :: 0 <= k < |init| && counts(init[k]) ==> init[k].time <= at
    ensures InOrder(history, counts) <==>
              InOrder(history[..|history| - 1], counts) && at <= history[|history| - 1].time
  {
    InOrderOneMore(history, counts);
    var n := |history| - 1;
    if InOrder(history[..n], counts) && at <= history[n].time {
      forall k | 0 <= k < n && counts(history[k]) ensures history[k].time <= history[n].time {
        assert history[..n][k].time <= at;
      }
    }
  }

  lemma {:induction false} SumOfNone(q: real, history: seq<Round>, now: int, counts: Selector)
    requires forall k :: 0 <= k < |history| ==> !counts(history[k])
    ensures Sum(q, history, now, counts) == 0.0
    ensures InOrder(history, counts)
  {
    if history != [] { SumOfNone(q, history[..|history| - 1], now, counts); }
  }

  /** What `CounterIsSum` says, of one row of the tables. */
  ghost predicate IsItsSum(q: real, history: seq<Round>, now: int, counter: Option<Counter>, counts: Selector) {
    && ReadAt(q, counter, now) <= Sum(q, history, now, counts)
    && (ReadAt(q, counter, now) == Sum(q, history, now, counts) <==> InOrder(history, counts) || q == 1.0)
  }

  /** Every counter of the tables: at most the decayed sum of its observations, and that sum exactly if they came in order. */
  lemma CountersAreSums(q: real, history: seq<Round>, now: int)
    requires IsDecay(q) && Before(history, now)
    ensures var t := After(q, history);
            && (forall p :: IsItsSum(q, history, now, Find(t.nodes, p), Seen(p)))
            && (forall e :: IsItsSum(q, history, now, Find(t.edges, e), Joined(e)))
            && IsItsSum(q, history, now, t.rounds, Any())
  {
    TablesHoldCounters(q, history);
    forall p ensures IsItsSum(q, history, now, Find(After(q, history).nodes, p), Seen(p)) {
      CounterIsSum(q, history, now, Seen(p));
    }
    forall e ensures IsItsSum(q, history, now, Find(After(q, history).edges, e), Joined(e)) {
      CounterIsSum(q, history, now, Joined(e));
    }
    CounterIsSum(q, history, now, Any());
  }

  // ---- how counters compare -----------------------------------------------------------------------

  lemma {:induction false} SumsCompare(q: real, history: seq<Round>, now: int, one: Selector, other: Selector, all: Selector)
    requires IsDecay(q)
    requires forall r :: !(one(r) && other(r)) && (one(r) || other(r) ==> all(r))
    ensures Sum(q, history, now, one) + Sum(q, history, now, other) <= Sum(q, history, now, all)
  {
    if history != [] {
      var last := history[|history| - 1];
      SumsCompare(q, history[..|history| - 1], now, one, other, all);
      PowInRange(q, Elapsed(now, last.time));
    }
  }

  /** A pair is counted in one direction a round, and only in rounds both take part in. */
  lemma OneDirectionARound(r: Round, a: nat, b: nat)
    ensures !(Joined((a, b))(r) && Joined((b, a))(r))
    ensures Joined((a, b))(r) || Joined((b, a))(r) ==> Seen(a)(r) && Seen(b)(r)
  {
  }

  /** A round counts a pair from the one that fired first; at one moment the related one goes first. */
  lemma EdgesMean(r: Round, src: nat, dst: nat)
    ensures (src, dst) in EdgesOf(r) <==>
              || (dst == r.current && src != r.current && src in r.related && r.related[src] <= r.time)
              || (src == r.current && dst != r.current && dst in r.related && r.related[dst] > r.time)
  {
    if dst == r.current && src in r.related && src != r.current { assert EdgeOf(r, src) in EdgesOf(r); }
    if src == r.current && dst in r.related && dst != r.current { assert EdgeOf(r, dst) in EdgesOf(r); }
  }

  lemma SumsAreBounded(q: real, history: seq<Round>, now: int, a: nat, b: nat)
    requires IsDecay(q)
    ensures Sum(q, history, now, Joined((a, b))) + Sum(q, history, now, Joined((b, a)))
         <= Sum(q, history, now, Seen(a)) <= Sum(q, history, now, Any())
  {
    var nobody: Selector := r => false;
    SumOfNone(q, history, now, nobody);
    forall r
      ensures !(Joined((a, b))(r) && Joined((b, a))(r))
      ensures Joined((a, b))(r) || Joined((b, a))(r) ==> Seen(a)(r)
    {
      OneDirectionARound(r, a, b);
    }
    SumsCompare(q, history, now, Joined((a, b)), Joined((b, a)), Seen(a));
    SumsCompare(q, history, now, Seen(a), nobody, Any());
  }

  /**
   * Everything read at one moment: what two incidents share, in both directions, is no more
   * than one was observed if that one's own rounds came in order, and no incident was observed
   * more than the scope had rounds if all rounds did. Edges may have come in any order.
   */
  lemma SharedIsBounded(q: real, history: seq<Round>, now: int, a: nat, b: nat)
    requires IsDecay(q) && Before(history, now)
    ensures var t := After(q, history);
            var shared := ReadAt(q, Find(t.edges, (a, b)), now) + ReadAt(q, Find(t.edges, (b, a)), now);
            && (InOrder(history, Seen(a)) ==> shared <= ReadAt(q, Find(t.nodes, a), now))
            && (InOrder(history, Any()) ==> ReadAt(q, Find(t.nodes, a), now) <= ReadAt(q, t.rounds, now))
            && (InOrder(history, Any()) ==> shared <= ReadAt(q, t.rounds, now))
  {
    TablesHoldCounters(q, history);
    CounterIsSum(q, history, now, Joined((a, b)));
    CounterIsSum(q, history, now, Joined((b, a)));
    CounterIsSum(q, history, now, Seen(a));
    CounterIsSum(q, history, now, Any());
    SumsAreBounded(q, history, now, a, b);
  }

  /** A round of two, and late by `gap` a round of `a` alone. */
  function LateRound(a: nat, b: nat, gap: nat): seq<Round> {
    [Round(a, gap, map[b := gap]), Round(a, 0, map[])]
  }

  /**
   * However slow the decay, a round late enough breaks the bound: it moves the node's clock
   * back and not the edge's, so one node ages faster than what it shares.
   */
  lemma OutOfOrderCanUndercount(q: real, a: nat, b: nat) returns (gap: nat)
    requires 0.0 < q < 1.0 && a != b
    ensures Before(LateRound(a, b, gap), gap)
    ensures var t := After(q, LateRound(a, b, gap));
            ReadAt(q, Find(t.nodes, a), gap) < ReadAt(q, Find(t.edges, (b, a)), gap)
  {
    gap := PowVanishes(q);
    LateRoundReads(q, a, b, gap);
  }

  lemma LateRoundReads(q: real, a: nat, b: nat, gap: nat)
    requires a != b && gap > 0
    ensures var t := After(q, LateRound(a, b, gap));
            && ReadAt(q, Find(t.nodes, a), gap) == Pow(q, gap) + Pow(q, gap)
            && ReadAt(q, Find(t.edges, (b, a)), gap) == 1.0
  {
    var history := LateRound(a, b, gap);
    var first, late := history[0], history[1];
    TablesHoldCounters(q, history);
    assert history[..1] == [first] && [first][..0] == [];
    assert EdgeOf(first, b) == (b, a) && Joined((b, a))(first) && !Joined((b, a))(late);
    assert Seen(a)(first) && Seen(a)(late);
    assert CounterOf(q, [first], Seen(a)) == CounterOf(q, [first], Joined((b, a))) == Some(Counter(1.0, gap));
    assert Pow(q, 0) == 1.0;
    assert CounterOf(q, history, Seen(a)) == Some(Counter(2.0, 0));
    Distributes(Pow(q, gap), 1.0, 1.0);
  }

  // ---- the tables as they are written ---------------------------------------------------------------

  class Graph {
    const q: real
    var nodes: map<nat, Counter>
    var edges: map<Edge, Counter>
    var rounds: Option<Counter>

    ghost function State(): Tables
      reads this
    {
      Tables(nodes, edges, rounds)
    }

    constructor (q: real)
      ensures this.q == q && State() == Tables(map[], map[], None)
    {
      this.q := q;
      nodes, edges, rounds := map[], map[], None;
    }

    /** `_record_round`. */
    method RecordRound(participants: set<nat>, now: int)
      modifies this`nodes, this`rounds
      ensures nodes == map p | p in old(nodes).Keys + participants ::
                if p in participants then Bumped(q, Find(old(nodes), p), now) else old(nodes)[p]
      ensures rounds == Some(Bumped(q, old(rounds), now))
    {
      var todo := participants;
      while todo != {}
        invariant todo <= participants && rounds == old(rounds)
        invariant nodes.Keys == old(nodes).Keys + (participants - todo)
        invariant forall p :: p in nodes ==>
                    nodes[p] == if p in participants - todo then Bumped(q, Find(old(nodes), p), now) else old(nodes)[p]
        decreases todo
      {
        var p :| p in todo;
        nodes := nodes[p := Bumped(q, Find(nodes, p), now)];
        todo := todo - {p};
      }
      assert participants - todo == participants;
      rounds := Some(Bumped(q, rounds, now));
    }

    /** The edge of each pair, from whichever fired first. */
    method RecordEdges(r: Round)
      modifies this`edges
      ensures edges == map e | e in old(edges).Keys + EdgesOf(r) ::
                if e in EdgesOf(r) then Bumped(q, Find(old(edges), e), r.time) else old(edges)[e]
    {
      var todo := r.related.Keys - {r.current};
      ghost var done: set<Edge> := {};
      while todo != {}
        invariant todo <= r.related.Keys - {r.current}
        invariant forall other :: other in r.related && other != r.current ==> (EdgeOf(r, other) in done <==> other !in todo)
        invariant done <= EdgesOf(r)
        invariant edges.Keys == old(edges).Keys + done
        invariant forall e :: e in edges ==>
                    edges[e] == if e in done then Bumped(q, Find(old(edges), e), r.time) else old(edges)[e]
        decreases todo
      {
        var other :| other in todo;
        var e := if r.related[other] <= r.time then (other, r.current) else (r.current, other);
        edges := edges[e := Bumped(q, Find(edges, e), r.time)];
        done := done + {e};
        todo := todo - {other};
      }
      assert done == EdgesOf(r);
    }

    /** `observe_incident`: `None` where the current incident is not among the active ones found. */
    method Observe(current: nat, alerts: map<nat, int>) returns (round: Option<Round>)
      modifies this
      ensures round == if current in alerts then Some(Round(current, alerts[current], alerts)) else None
      ensures State() == if current in alerts then AfterRound(q, old(State()), round.value) else old(State())
    {
      if current !in alerts { return None; }
      var r := Round(current, alerts[current], alerts);
      assert Participants(r) == alerts.Keys;
      RecordRound(alerts.Keys, r.time);
      RecordEdges(r);
      round := Some(r);
    }
  }
}
