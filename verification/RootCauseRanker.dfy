/**
 * Ranking the likely cause (src/graph/root_cause_ranker.py), over reals.
 *
 * Incident ids are numbers; ties between equal scores fall to the greater one as they fall
 * to the greater text.
 */
module RootCauseRanker {
  import opened Basics
  import opened RealArithmetic
  import opened CoOccurrence

  const MIN_SUPPORT := 1.5
  const FULL_SUPPORT := 6.0
  const MIN_CONFIDENCE := 0.35
  const MIN_DOMINANCE := 0.25
  const LIFT_CAP := 4.0

  /** A row of `edges`. */
  datatype Row = Row(src: nat, dst: nat, weight: real, lastSeen: int)

  /** A row as `_score` counts it: aged to the newest row, and how far above chance it is. */
  datatype Weighed = Weighed(src: nat, dst: nat, weight: real, lift: real)

  datatype Verdict = Verdict(incident: nat, confidence: real, support: real, meanLift: real)

  datatype Marginals = Marginals(observations: map<nat, real>, rounds: real)

  // ---- weighing -------------------------------------------------------------------------------

  function Observed(m: Marginals, node: nat): real {
    if node in m.observations then m.observations[node] else 0.0
  }

  /** `_lift`: 1 without usable marginals. */
  function Lift(weight: real, src: nat, dst: nat, m: Marginals): real {
    var s, d := Observed(m, src), Observed(m, dst);
    if m.rounds <= 0.0 || s <= 0.0 || d <= 0.0 then 1.0
    else
      assert s * d != 0.0;
      var lift := Over(Times(weight, m.rounds), s * d);
      if LIFT_CAP < lift then LIFT_CAP else lift
  }

  function Weigh(q: real, m: Marginals, reference: int, row: Row): Weighed {
    var weight := Decayed(q, row.weight, Elapsed(reference, row.lastSeen));
    Weighed(row.src, row.dst, weight, Lift(weight, row.src, row.dst, m))
  }

  function Newest(rows: seq<Row>): (newest: int)
    requires rows != []
    ensures exists k :: 0 <= k < |rows| && rows[k].lastSeen == newest
    ensures forall k :: 0 <= k < |rows| ==> rows[k].lastSeen <= newest
  {
    var n := |rows| - 1;
    if n == 0 then rows[0].lastSeen
    else
      var before := Newest(rows[..n]);
      if before < rows[n].lastSeen then rows[n].lastSeen else before
  }

  function WeighAll(q: real, m: Marginals, reference: int, rows: seq<Row>): (ws: seq<Weighed>)
    ensures |ws| == |rows| && forall k :: 0 <= k < |rows| ==> ws[k] == Weigh(q, m, reference, rows[k])
  {
    seq(|rows|, k requires 0 <= k < |rows| => Weigh(q, m, reference, rows[k]))
  }

  // ---- sums over rows -------------------------------------------------------------------------

  type Term = Weighed -> real

  ghost function Sum(ws: seq<Weighed>, f: Term): real {
    if ws == [] then 0.0 else Sum(ws[..|ws| - 1], f) + f(ws[|ws| - 1])
  }

  function Contribution(w: Weighed): real {
    Times(w.weight, w.lift)
  }

  ghost function OutOf(n: nat): Term { (w: Weighed) => if w.src == n then Contribution(w) else 0.0 }
  ghost function Into(n: nat): Term { (w: Weighed) => if w.dst == n then Contribution(w) else 0.0 }
  ghost function RawOutOf(n: nat): Term { (w: Weighed) => if w.src == n then w.weight else 0.0 }
  ghost function LiftOutOf(n: nat): Term { (w: Weighed) => if w.src == n then w.lift else 0.0 }
  ghost function RowsOutOf(n: nat): Term { (w: Weighed) => if w.src == n then 1.0 else 0.0 }

  ghost function Outbound(ws: seq<Weighed>, n: nat): real { Sum(ws, OutOf(n)) }
  ghost function Inbound(ws: seq<Weighed>, n: nat): real { Sum(ws, Into(n)) }

  ghost function Net(ws: seq<Weighed>, n: nat): real {
    Outbound(ws, n) - Inbound(ws, n)
  }

  ghost function Sources(ws: seq<Weighed>): set<nat> {
    set w | w in ws :: w.src
  }

  /** The nodes that lead more than they follow, with how much. */
  ghost function Leading(ws: seq<Weighed>): map<nat, real> {
    map n | n in Sources(ws) && Net(ws, n) > 0.0 :: Net(ws, n)
  }

  // ---- the verdict ----------------------------------------------------------------------------

  predicate Ahead(nets: map<nat, real>, a: nat, b: nat)
    requires a in nets && b in nets
  {
    nets[a] > nets[b] || (nets[a] == nets[b] && a > b)
  }

  ghost function Leader(nets: map<nat, real>): (leader: nat)
    requires nets != map[]
    ensures leader in nets && forall n :: n in nets && n != leader ==> Ahead(nets, leader, n)
    decreases |nets|
  {
    var x :| x in nets;
    var others := nets - {x};
    assert others.Keys == nets.Keys - {x};
    if nets.Keys == {x} then x
    else
      assert others.Keys != {};
      var rest := Leader(others);
      assert forall n :: n in nets ==> n == x || n in others;
      if Ahead(nets, x, rest) then x else rest
  }

  ghost function RunnerUp(nets: map<nat, real>, leader: nat): real
    requires leader in nets
  {
    var others := nets - {leader};
    if others == map[] then 0.0 else others[Leader(others)]
  }

  /** From the totals of a leader to its verdict, in the order the thresholds are checked. */
  function Decide(leader: nat, score: real, runnerUp: real, outbound: real, support: real, lifts: real, count: real)
      : Option<Verdict>
    requires score > 0.0
  {
    if support < MIN_SUPPORT then None
    else if (if outbound != 0.0 then Over(score, outbound) else 0.0) < MIN_DOMINANCE then None
    else
      var factor := if Over(support, FULL_SUPPORT) < 1.0 then Over(support, FULL_SUPPORT) else 1.0;
      var confidence := Times(Over(score - runnerUp, score), factor);
      if confidence < MIN_CONFIDENCE then None
      else Some(Verdict(leader, confidence, support, Over(lifts, if count < 1.0 then 1.0 else count)))
  }

  ghost function Judge(ws: seq<Weighed>): Option<Verdict> {
    var nets := Leading(ws);
    if nets == map[] then None
    else
      var leader := Leader(nets);
      Decide(leader, nets[leader], RunnerUp(nets, leader), Outbound(ws, leader),
             Sum(ws, RawOutOf(leader)), Sum(ws, LiftOutOf(leader)), Sum(ws, RowsOutOf(leader)))
  }

  /** `_score`. */
  ghost function Score(q: real, m: Marginals, rows: seq<Row>): Option<Verdict> {
    if rows == [] then None else Judge(WeighAll(q, m, Newest(rows), rows))
  }

  // ---- conservation -----------------------------------------------------------------------------

  ghost function Total(nodes: set<nat>, f: nat -> real): real {
    if nodes == {} then 0.0
    else
      var n := MinOf(nodes);
      f(n) + Total(nodes - {n}, f)
  }

  lemma {:induction false} TotalsAdd(nodes: set<nat>, f: nat -> real, h: nat -> real, k: nat, c: real)
    requires forall n :: n in nodes ==> h(n) == f(n) + (if n == k then c else 0.0)
    ensures Total(nodes, h) == Total(nodes, f) + if k in nodes then c else 0.0
    decreases |nodes|
  {
    if nodes != {} {
      TotalsAdd(nodes - {MinOf(nodes)}, f, h, k, c);
    }
  }

  lemma {:induction false} TotalOfZero(nodes: set<nat>, f: nat -> real)
    requires forall n :: n in nodes ==> f(n) == 0.0
    ensures Total(nodes, f) == 0.0
    decreases |nodes|
  {
    if nodes != {} { TotalOfZero(nodes - {MinOf(nodes)}, f); }
  }

  ghost function OutboundOf(ws: seq<Weighed>): nat -> real { (n: nat) => Outbound(ws, n) }
  ghost function InboundOf(ws: seq<Weighed>): nat -> real { (n: nat) => Inbound(ws, n) }

  /** Whatever the rows: what all nodes lead adds up to what all nodes follow. */
  lemma {:induction false} LeadingIsFollowing(ws: seq<Weighed>, nodes: set<nat>)
    requires forall w :: w in ws ==> w.src in nodes && w.dst in nodes
    ensures Total(nodes, OutboundOf(ws)) == Total(nodes, InboundOf(ws))
  {
    if ws == [] {
      TotalOfZero(nodes, OutboundOf(ws));
      TotalOfZero(nodes, InboundOf(ws));
    } else {
      var init, last := ws[..|ws| - 1], ws[|ws| - 1];
      LeadingIsFollowing(init, nodes);
      TotalsAdd(nodes, OutboundOf(init), OutboundOf(ws), last.src, Contribution(last));
      TotalsAdd(nodes, InboundOf(init), InboundOf(ws), last.dst, Contribution(last));
    }
  }

  /** Where every node follows exactly as much as it leads, nobody is named. */
  lemma BystandersAreNotNamed(ws: seq<Weighed>)
    requires forall n :: n in Sources(ws) ==> Outbound(ws, n) == Inbound(ws, n)
    ensures Judge(ws).None?
  {
  }

  // ---- separation -------------------------------------------------------------------------------

  /** What the rows of a store give: no negative weight, hence no negative lift. */
  ghost predicate NonNegative(ws: seq<Weighed>) {
    forall w :: w in ws ==> w.weight >= 0.0 && w.lift >= 0.0
  }

  lemma {:induction false} SumNonNegative(ws: seq<Weighed>, f: Term)
    requires forall w :: w in ws ==> f(w) >= 0.0
    ensures Sum(ws, f) >= 0.0
  {
    if ws != [] { SumNonNegative(ws[..|ws| - 1], f); }
  }

  lemma ContributionsNonNegative(ws: seq<Weighed>, n: nat)
    requires NonNegative(ws)
    ensures Outbound(ws, n) >= 0.0 && Inbound(ws, n) >= 0.0
  {
    forall w | w in ws ensures Contribution(w) >= 0.0 { assert w.weight * w.lift >= 0.0; }
    SumNonNegative(ws, OutOf(n));
    SumNonNegative(ws, Into(n));
  }

  lemma {:induction false} SilentWithoutRows(ws: seq<Weighed>, n: nat)
    requires n !in Sources(ws)
    ensures Outbound(ws, n) == 0.0
  {
    if ws != [] {
      assert ws[|ws| - 1] in ws;
      SilentWithoutRows(ws[..|ws| - 1], n);
    }
  }

  /** A confidence that passes means a margin that passes, and a dominance that passes bounds what came in. */
  lemma DecisionSeparates(leader: nat, score: real, runnerUp: real, outbound: real, support: real, lifts: real, count: real)
    requires score > 0.0 && 0.0 <= runnerUp <= score && outbound >= score
    requires Decide(leader, score, runnerUp, outbound, support, lifts, count).Some?
    ensures var v := Decide(leader, score, runnerUp, outbound, support, lifts, count).value;
            && v.incident == leader && v.support == support >= MIN_SUPPORT
            && MIN_CONFIDENCE <= v.confidence <= 1.0
            && runnerUp <= Times(0.65, score) && Times(0.25, outbound) <= score
  {
    var v := Decide(leader, score, runnerUp, outbound, support, lifts, count).value;
    var factor := if Over(support, FULL_SUPPORT) < 1.0 then Over(support, FULL_SUPPORT) else 1.0;
    assert 0.0 < factor <= 1.0;
    var margin := Over(score - runnerUp, score);
    OverTimes(score - runnerUp, score);
    OverTimes(score, outbound);
    Scale(outbound, MIN_DOMINANCE, Over(score, outbound));
    MarginAtMostOne(score, runnerUp);
    FactorShrinks(margin, factor);
    Scale(score, MIN_CONFIDENCE, margin);
  }

  lemma MarginAtMostOne(score: real, runnerUp: real)
    requires score > 0.0 && 0.0 <= runnerUp <= score
    ensures 0.0 <= Over(score - runnerUp, score) <= 1.0
  {
    var margin := Over(score - runnerUp, score);
    OverTimes(score - runnerUp, score);
    Cancels(margin, 1.0, score);
    Cancels(0.0, margin, score);
  }

  lemma FactorShrinks(margin: real, factor: real)
    requires 0.0 <= margin && 0.0 < factor <= 1.0
    ensures Times(margin, factor) <= margin
  {
    assert margin * (1.0 - factor) >= 0.0;
    assert margin * (1.0 - factor) == margin - margin * factor;
  }

  /**
   * A verdict is never a coin flip: every other node's net lead is at most 0.65 of the
   * leader's, the leader follows at most 0.75 of what it leads, and the confidence is in
   * range. So neither ties nor their breaking decide who is named.
   */
  lemma VerdictsAreSeparated(ws: seq<Weighed>, other: nat)
    requires NonNegative(ws) && Judge(ws).Some?
    ensures var v := Judge(ws).value;
            && Net(ws, v.incident) > 0.0
            && (other != v.incident ==> Net(ws, other) <= Times(0.65, Net(ws, v.incident)) < Net(ws, v.incident))
            && Inbound(ws, v.incident) <= Times(0.75, Outbound(ws, v.incident))
            && MIN_CONFIDENCE <= v.confidence <= 1.0 && v.support >= MIN_SUPPORT
  {
    var nets := Leading(ws);
    var leader := Leader(nets);
    var others := nets - {leader};
    ContributionsNonNegative(ws, leader);
    ContributionsNonNegative(ws, other);
    if other !in Sources(ws) { SilentWithoutRows(ws, other); }
    RunnerUpIsNext(nets, leader, other);
    DecisionSeparates(leader, nets[leader], RunnerUp(nets, leader), Outbound(ws, leader),
                      Sum(ws, RawOutOf(leader)), Sum(ws, LiftOutOf(leader)), Sum(ws, RowsOutOf(leader)));
  }

  lemma RunnerUpIsNext(nets: map<nat, real>, leader: nat, other: nat)
    requires leader in nets && (forall n :: n in nets ==> 0.0 < nets[n] <= nets[leader])
    ensures 0.0 <= RunnerUp(nets, leader) <= nets[leader]
    ensures other in nets && other != leader ==> nets[other] <= RunnerUp(nets, leader)
  {
    var others := nets - {leader};
    if other in nets && other != leader {
      assert other in others;
      assert other == Leader(others) || Ahead(others, Leader(others), other);
    }
  }

  // ---- exactly when there is a verdict ------------------------------------------------------------

  /** The greatest net lead of anybody else, or nothing if nobody else leads. */
  ghost predicate IsSecond(ws: seq<Weighed>, leader: nat, second: real) {
    && second >= 0.0 && (forall m: nat :: m != leader ==> Net(ws, m) <= second)
    && (second > 0.0 ==> exists m: nat :: m != leader && Net(ws, m) == second)
  }

  /** Nobody else leads as much, or only one with a lesser id. */
  ghost predicate LeadsAll(ws: seq<Weighed>, n: nat) {
    Net(ws, n) > 0.0 && forall m: nat :: m != n ==> Net(ws, m) < Net(ws, n) || (Net(ws, m) == Net(ws, n) && m < n)
  }

  lemma LeadersAreSources(ws: seq<Weighed>, n: nat)
    requires NonNegative(ws)
    ensures Net(ws, n) > 0.0 <==> n in Leading(ws)
    ensures n in Leading(ws) ==> Leading(ws)[n] == Net(ws, n) && Outbound(ws, n) >= Net(ws, n)
  {
    ContributionsNonNegative(ws, n);
    if n !in Sources(ws) { SilentWithoutRows(ws, n); }
  }

  lemma LeaderLeads(ws: seq<Weighed>)
    requires NonNegative(ws) && Leading(ws) != map[]
    ensures LeadsAll(ws, Leader(Leading(ws)))
  {
    var nets := Leading(ws);
    var n := Leader(nets);
    forall m: nat | m != n ensures Net(ws, m) < Net(ws, n) || (Net(ws, m) == Net(ws, n) && m < n) {
      LeadersAreSources(ws, m);
      if m in nets { assert Ahead(nets, n, m); }
    }
  }

  lemma OneLeadsAll(ws: seq<Weighed>, n: nat)
    requires NonNegative(ws) && LeadsAll(ws, n)
    ensures Leading(ws) != map[] && Leader(Leading(ws)) == n
  {
    LeadersAreSources(ws, n);
    LeaderLeads(ws);
  }

  lemma SecondIsOne(ws: seq<Weighed>, leader: nat, second: real, other: real)
    requires IsSecond(ws, leader, second) && IsSecond(ws, leader, other)
    ensures second == other
  {
  }

  /** A verdict's field has a second. */
  lemma SomeSecond(ws: seq<Weighed>, leader: nat) returns (second: real)
    requires NonNegative(ws) && leader in Leading(ws)
    ensures IsSecond(ws, leader, second) && second == RunnerUp(Leading(ws), leader)
  {
    var others := Leading(ws) - {leader};
    second := RunnerUp(Leading(ws), leader);
    forall m | m != leader ensures Net(ws, m) <= second {
      LeadersAreSources(ws, m);
      if m in others { assert m == Leader(others) || Ahead(others, Leader(others), m); }
      else { assert Net(ws, m) <= 0.0; }
    }
    if others != map[] { assert others[Leader(others)] == Net(ws, Leader(others)); }
  }

  lemma {:induction false} RowsAreCounted(ws: seq<Weighed>, n: nat)
    ensures Sum(ws, RowsOutOf(n)) >= 0.0 && (n in Sources(ws) ==> Sum(ws, RowsOutOf(n)) >= 1.0)
  {
    if ws != [] {
      var init := ws[..|ws| - 1];
      RowsAreCounted(init, n);
      assert ws == init + [ws[|ws| - 1]];
      if n in Sources(ws) {
        var w :| w in ws && w.src == n;
        assert w in init || w == ws[|ws| - 1];
      }
    }
  }

  /** What `v` must be, of a leader with these totals. */
  ghost predicate Convinces(v: Verdict, net: real, second: real, outbound: real, support: real, lifts: real, count: real) {
    && v.support == support && support >= 1.5
    && net >= Times(0.25, outbound)
    && Times(v.confidence, net) == (if support < 6.0 then Times(net - second, support / 6.0) else net - second)
    && v.confidence >= 0.35
    && Times(v.meanLift, count) == lifts
  }

  lemma UniqueOver(x: real, y: real, z: real)
    requires y > 0.0
    ensures Times(z, y) == x <==> z == Over(x, y)
  {
    OverTimes(x, y);
    if Times(z, y) == x {
      Cancels(z, Over(x, y), y);
      Cancels(Over(x, y), z, y);
    }
  }

  lemma ConfidenceIs(net: real, second: real, factor: real)
    requires net > 0.0
    ensures Times(Times(Over(net - second, net), factor), net) == Times(net - second, factor)
  {
    OverTimes(net - second, net);
    Shuffle(net, Over(net - second, net), factor);
  }

  lemma DominanceIs(net: real, outbound: real)
    requires outbound >= net > 0.0
    ensures Over(net, outbound) >= MIN_DOMINANCE <==> net >= Times(0.25, outbound)
  {
    OverTimes(net, outbound);
    if Over(net, outbound) >= MIN_DOMINANCE { Scale(outbound, MIN_DOMINANCE, Over(net, outbound)); }
    else { StrictlyGrows(Over(net, outbound), MIN_DOMINANCE, outbound); }
  }

  lemma DecideIsExact(v: Verdict, net: real, second: real, outbound: real, support: real, lifts: real, count: real)
    requires outbound >= net > 0.0 && count >= 1.0
    ensures Decide(v.incident, net, second, outbound, support, lifts, count) == Some(v)
       <==> Convinces(v, net, second, outbound, support, lifts, count)
  {
    var share := Over(support, FULL_SUPPORT);
    var factor := if share < 1.0 then share else 1.0;
    assert share == support / 6.0;
    DominanceIs(net, outbound);
    ConfidenceIs(net, second, factor);
    assert Times(net - second, 1.0) == net - second;
    UniqueOver(Times(net - second, factor), net, v.confidence);
    UniqueOver(Times(net - second, factor), net, Times(Over(net - second, net), factor));
    UniqueOver(lifts, count, v.meanLift);
  }

  /**
   * When there is a verdict, and which: somebody leads all others, has the support, leads a
   * quarter of what it sends out, and by a margin over the second that, scaled down where
   * support is short of six, makes at least 0.35 of its lead.
   */
  lemma VerdictIsExact(ws: seq<Weighed>, v: Verdict, second: real)
    requires NonNegative(ws) && IsSecond(ws, v.incident, second)
    ensures Judge(ws) == Some(v) <==>
              && LeadsAll(ws, v.incident)
              && Convinces(v, Net(ws, v.incident), second, Outbound(ws, v.incident), Sum(ws, RawOutOf(v.incident)),
                           Sum(ws, LiftOutOf(v.incident)), Sum(ws, RowsOutOf(v.incident)))
  {
    var n := v.incident;
    if LeadsAll(ws, n) {
      OneLeadsAll(ws, n);
      LeadersAreSources(ws, n);
      var other := SomeSecond(ws, n);
      SecondIsOne(ws, n, second, other);
      RowsAreCounted(ws, n);
      DecideIsExact(v, Net(ws, n), second, Outbound(ws, n), Sum(ws, RawOutOf(n)), Sum(ws, LiftOutOf(n)), Sum(ws, RowsOutOf(n)));
    } else if Judge(ws) == Some(v) {
      DecideNames(ws, v);
      LeaderLeads(ws);
    }
  }

  lemma DecideNames(ws: seq<Weighed>, v: Verdict)
    requires Judge(ws) == Some(v)
    ensures Leading(ws) != map[] && Leader(Leading(ws)) == v.incident
  {
  }

  /** What one more row adds to each total: weight times lift where it leaves and where it arrives. */
  lemma TotalsGrow(ws: seq<Weighed>, w: Weighed, n: nat)
    ensures var more := ws + [w];
            && Outbound(more, n) == Outbound(ws, n) + (if w.src == n then w.weight * w.lift else 0.0)
            && Inbound(more, n) == Inbound(ws, n) + (if w.dst == n then w.weight * w.lift else 0.0)
            && Sum(more, RawOutOf(n)) == Sum(ws, RawOutOf(n)) + (if w.src == n then w.weight else 0.0)
            && Sum(more, LiftOutOf(n)) == Sum(ws, LiftOutOf(n)) + (if w.src == n then w.lift else 0.0)
            && Sum(more, RowsOutOf(n)) == Sum(ws, RowsOutOf(n)) + (if w.src == n then 1.0 else 0.0)
  {
    assert (ws + [w])[..|ws|] == ws;
  }

  /** How a row is weighed: decayed since the newest, and lifted by how far it is above chance, at most fourfold. */
  lemma WeighedExactly(q: real, m: Marginals, rows: seq<Row>, k: nat)
    requires k < |rows|
    ensures var row, w := rows[k], WeighAll(q, m, Newest(rows), rows)[k];
            && row.lastSeen <= Newest(rows)
            && w.src == row.src && w.dst == row.dst
            && w.weight == Times(row.weight, Pow(q, Newest(rows) - row.lastSeen))
            && IsLift(w.lift, w.weight, m, row.src, row.dst)
  {
    LiftIsExact(Weigh(q, m, Newest(rows), rows[k]).weight, rows[k].src, rows[k].dst, m);
  }

  ghost predicate IsLift(lift: real, weight: real, m: Marginals, src: nat, dst: nat) {
    var s := if src in m.observations then m.observations[src] else 0.0;
    var d := if dst in m.observations then m.observations[dst] else 0.0;
    if s <= 0.0 || d <= 0.0 || m.rounds <= 0.0 then lift == 1.0
    else
      var product, chance := Times(weight, m.rounds), Times(s, d);
      Times(lift, chance) == if product <= Times(4.0, chance) then product else Times(4.0, chance)
  }

  lemma LiftIsExact(weight: real, src: nat, dst: nat, m: Marginals)
    ensures IsLift(Lift(weight, src, dst, m), weight, m, src, dst)
  {
    var s, d := Observed(m, src), Observed(m, dst);
    if s > 0.0 && d > 0.0 && m.rounds > 0.0 {
      Positive(s, d);
      LiftIs(Times(weight, m.rounds), Times(s, d));
    }
  }

  lemma LiftIs(product: real, chance: real)
    requires chance > 0.0
    ensures var lift := if LIFT_CAP < Over(product, chance) then LIFT_CAP else Over(product, chance);
            Times(lift, chance) == if product <= Times(4.0, chance) then product else Times(4.0, chance)
  {
    OverTimes(product, chance);
    if LIFT_CAP < Over(product, chance) { StrictlyGrows(LIFT_CAP, Over(product, chance), chance); }
    else { Scale(chance, Over(product, chance), LIFT_CAP); }
  }

  // ---- what the verdict does not depend on ----------------------------------------------------------

  lemma {:induction false} SumTakesOut(ws: seq<Weighed>, f: Term, k: nat)
    requires k < |ws|
    ensures Sum(ws, f) == f(ws[k]) + Sum(ws[..k] + ws[k + 1..], f)
    decreases |ws|
  {
    var n := |ws| - 1;
    if k < n {
      SumTakesOut(ws[..n], f, k);
      var without := ws[..k] + ws[k + 1..];
      assert without[..|without| - 1] == ws[..n][..k] + ws[..n][k + 1..];
      assert without[|without| - 1] == ws[n];
    } else {
      assert ws[..k] + ws[k + 1..] == ws[..n];
    }
  }

  /** The last of a sequence, found in a permutation of it. */
  lemma FindLast<T>(one: seq<T>, other: seq<T>) returns (k: nat)
    requires one != [] && multiset(one) == multiset(other)
    ensures k < |other| && other[k] == one[|one| - 1]
    ensures multiset(one[..|one| - 1]) == multiset(other[..k] + other[k + 1..])
  {
    var n := |one| - 1;
    assert one == one[..n] + [one[n]];
    assert one[n] in multiset(other);
    k :| 0 <= k < |other| && other[k] == one[n];
    assert other == other[..k] + [other[k]] + other[k + 1..];
    assert multiset(other[..k] + other[k + 1..]) == multiset(other) - multiset{other[k]};
    assert multiset(one[..n]) == multiset(one) - multiset{one[n]};
  }

  lemma {:induction false} SumOfPermuted(one: seq<Weighed>, other: seq<Weighed>, f: Term)
    requires multiset(one) == multiset(other)
    ensures Sum(one, f) == Sum(other, f)
    decreases |one|
  {
    assert |one| == |multiset(one)| == |multiset(other)| == |other|;
    if one != [] {
      var k := FindLast(one, other);
      SumOfPermuted(one[..|one| - 1], other[..k] + other[k + 1..], f);
      SumTakesOut(other, f, k);
    }
  }

  /** The order the rows are read in decides nothing. */
  lemma OrderDecidesNothing(one: seq<Weighed>, other: seq<Weighed>)
    requires multiset(one) == multiset(other)
    ensures Judge(one) == Judge(other)
  {
    forall f: Term ensures Sum(one, f) == Sum(other, f) { SumOfPermuted(one, other, f); }
    forall w ensures w in one <==> w in other { assert w in multiset(one) <==> w in multiset(other); }
    assert Sources(one) == Sources(other);
    forall n ensures Net(one, n) == Net(other, n) {}
    assert Leading(one) == Leading(other);
  }

  function Shifted(rows: seq<Row>, shift: int): (shifted: seq<Row>)
    ensures |shifted| == |rows| && forall k :: 0 <= k < |rows| ==> shifted[k] == rows[k].(lastSeen := rows[k].lastSeen + shift)
  {
    seq(|rows|, k requires 0 <= k < |rows| => rows[k].(lastSeen := rows[k].lastSeen + shift))
  }

  /** Ages are measured from the newest row, so moving every time by as much changes nothing. */
  lemma {:induction false} ShiftingTimesChangesNothing(q: real, m: Marginals, rows: seq<Row>, shift: int)
    ensures Score(q, m, Shifted(rows, shift)) == Score(q, m, rows)
  {
    if rows == [] {
      assert Shifted(rows, shift) == [];
    } else {
      NewestShifts(rows, shift);
      ShiftedWeighsTheSame(q, m, Newest(rows), rows, shift);
      SameWeighedSameScore(q, m, rows, Shifted(rows, shift));
    }
  }

  lemma {:induction false} SameWeighedSameScore(q: real, m: Marginals, one: seq<Row>, other: seq<Row>)
    requires one != [] && other != [] && WeighAll(q, m, Newest(one), one) == WeighAll(q, m, Newest(other), other)
    ensures Score(q, m, one) == Score(q, m, other)
  {
    var ws := WeighAll(q, m, Newest(one), one);
    JudgesTheWeighed(q, m, one, ws);
    JudgesTheWeighed(q, m, other, ws);
  }

  lemma JudgesTheWeighed(q: real, m: Marginals, rows: seq<Row>, ws: seq<Weighed>)
    requires rows != [] && ws == WeighAll(q, m, Newest(rows), rows)
    ensures Score(q, m, rows) == Judge(ws)
  {
  }

  lemma ShiftedWeighsTheSame(q: real, m: Marginals, reference: int, rows: seq<Row>, shift: int)
    ensures WeighAll(q, m, reference + shift, Shifted(rows, shift)) == WeighAll(q, m, reference, rows)
  {
    var one, other := WeighAll(q, m, reference + shift, Shifted(rows, shift)), WeighAll(q, m, reference, rows);
    forall k | 0 <= k < |rows| ensures one[k] == other[k] {
      assert Elapsed(reference + shift, rows[k].lastSeen + shift) == Elapsed(reference, rows[k].lastSeen);
    }
  }

  lemma NewestShifts(rows: seq<Row>, shift: int)
    requires rows != []
    ensures Newest(Shifted(rows, shift)) == Newest(rows) + shift
  {
    var shifted := Shifted(rows, shift);
    var j :| 0 <= j < |rows| && rows[j].lastSeen == Newest(rows);
    var k :| 0 <= k < |shifted| && shifted[k].lastSeen == Newest(shifted);
    assert shifted[j].lastSeen <= Newest(shifted) && rows[k].lastSeen <= Newest(rows);
  }

  lemma {:induction false} WeighedPermuted(q: real, m: Marginals, reference: int, one: seq<Row>, other: seq<Row>)
    requires multiset(one) == multiset(other)
    ensures multiset(WeighAll(q, m, reference, one)) == multiset(WeighAll(q, m, reference, other))
    decreases |one|
  {
    assert |one| == |multiset(one)| == |multiset(other)| == |other|;
    if one != [] {
      var n := |one| - 1;
      var k := FindLast(one, other);
      WeighedPermuted(q, m, reference, one[..n], other[..k] + other[k + 1..]);
      WeighingSplits(q, m, reference, one, n);
      WeighingSplits(q, m, reference, other, k);
      assert one[..n] + one[n + 1..] == one[..n];
    }
  }

  lemma WeighingSplits(q: real, m: Marginals, reference: int, rows: seq<Row>, k: nat)
    requires k < |rows|
    ensures multiset(WeighAll(q, m, reference, rows))
         == multiset(WeighAll(q, m, reference, rows[..k] + rows[k + 1..])) + multiset{Weigh(q, m, reference, rows[k])}
  {
    var ws := WeighAll(q, m, reference, rows);
    assert ws == ws[..k] + [ws[k]] + ws[k + 1..];
    assert WeighAll(q, m, reference, rows[..k] + rows[k + 1..]) == ws[..k] + ws[k + 1..];
  }

  lemma NewestIgnoresOrder(one: seq<Row>, other: seq<Row>)
    requires one != [] && other != [] && multiset(one) == multiset(other)
    ensures Newest(one) == Newest(other)
  {
    var j :| 0 <= j < |one| && one[j].lastSeen == Newest(one);
    var k :| 0 <= k < |other| && other[k].lastSeen == Newest(other);
    assert one[j] in multiset(other) && other[k] in multiset(one);
    var j' :| 0 <= j' < |other| && other[j'] == one[j];
    var k' :| 0 <= k' < |one| && one[k'] == other[k];
  }

  /** Nor does the order of the rows a verdict is computed from. */
  lemma ScoreIgnoresOrder(q: real, m: Marginals, one: seq<Row>, other: seq<Row>)
    requires multiset(one) == multiset(other)
    ensures Score(q, m, one) == Score(q, m, other)
  {
    assert |one| == |multiset(one)| == |multiset(other)| == |other|;
    if one != [] {
      NewestIgnoresOrder(one, other);
      WeighedPermuted(q, m, Newest(one), one, other);
      OrderDecidesNothing(WeighAll(q, m, Newest(one), one), WeighAll(q, m, Newest(one), other));
    }
  }

  lemma WeighingIsNonNegative(q: real, m: Marginals, reference: int, rows: seq<Row>)
    requires IsDecay(q) && forall k :: 0 <= k < |rows| ==> rows[k].weight >= 0.0
    ensures NonNegative(WeighAll(q, m, reference, rows))
  {
    forall k | 0 <= k < |rows|
      ensures Weigh(q, m, reference, rows[k]).weight >= 0.0 && Weigh(q, m, reference, rows[k]).lift >= 0.0
    {
      var elapsed := Elapsed(reference, rows[k].lastSeen);
      PowInRange(q, elapsed);
      assert rows[k].weight * Pow(q, elapsed) >= 0.0;
      LiftIsNonNegative(Decayed(q, rows[k].weight, elapsed), rows[k].src, rows[k].dst, m);
    }
  }

  /** For any rows with non-negative weights, no verdict is a coin flip. */
  lemma {:induction false} NoCoinFlips(q: real, m: Marginals, rows: seq<Row>, other: nat)
    requires IsDecay(q) && (forall k :: 0 <= k < |rows| ==> rows[k].weight >= 0.0) && Score(q, m, rows).Some?
    ensures var v, ws := Score(q, m, rows).value, WeighAll(q, m, Newest(rows), rows);
            && (other != v.incident ==> Net(ws, other) <= Times(0.65, Net(ws, v.incident)) < Net(ws, v.incident))
            && Inbound(ws, v.incident) <= Times(0.75, Outbound(ws, v.incident))
            && MIN_CONFIDENCE <= v.confidence <= 1.0 && v.support >= MIN_SUPPORT
  {
    var ws := WeighAll(q, m, Newest(rows), rows);
    JudgesTheWeighed(q, m, rows, ws);
    WeighingIsNonNegative(q, m, Newest(rows), rows);
    VerdictsAreSeparated(ws, other);
  }

  lemma LiftIsNonNegative(weight: real, src: nat, dst: nat, m: Marginals)
    requires weight >= 0.0
    ensures 0.0 <= Lift(weight, src, dst, m) <= LIFT_CAP
  {
    var s, d := Observed(m, src), Observed(m, dst);
    if m.rounds > 0.0 && s > 0.0 && d > 0.0 {
      var product, chance := weight * m.rounds, s * d;
      assert product >= 0.0 && chance > 0.0;
      OverTimes(product, chance);
      if Over(product, chance) < 0.0 { assert Over(product, chance) * chance < 0.0; }
    }
  }

  // ---- the accumulators ---------------------------------------------------------------------------

  /** The dictionaries `_score` fills. */
  datatype Totals = Totals(
    outbound: map<nat, real>,
    inbound: map<nat, real>,
    raw: map<nat, real>,
    lifts: map<nat, real>,
    counts: map<nat, real>)

  function At(totals: map<nat, real>, n: nat): real {
    if n in totals then totals[n] else 0.0
  }

  function Added(totals: map<nat, real>, n: nat, x: real): map<nat, real> {
    totals[n := At(totals, n) + x]
  }

  /** A dictionary holds a sum of the rows for every node. */
  ghost predicate Holds(totals: map<nat, real>, ws: seq<Weighed>, f: nat -> Term) {
    forall n: nat :: At(totals, n) == Sum(ws, f(n))
  }

  ghost predicate Accumulates(t: Totals, ws: seq<Weighed>) {
    && t.outbound.Keys == Sources(ws)
    && Holds(t.outbound, ws, OutOf) && Holds(t.inbound, ws, Into) && Holds(t.raw, ws, RawOutOf)
    && Holds(t.lifts, ws, LiftOutOf) && Holds(t.counts, ws, RowsOutOf)
  }

  function Accumulated(t: Totals, w: Weighed): Totals {
    Totals(Added(t.outbound, w.src, Contribution(w)), Added(t.inbound, w.dst, Contribution(w)),
           Added(t.raw, w.src, w.weight), Added(t.lifts, w.src, w.lift), Added(t.counts, w.src, 1.0))
  }

  lemma OneMoreHeld(totals: map<nat, real>, ws: seq<Weighed>, w: Weighed, f: nat -> Term, key: nat, x: real)
    requires Holds(totals, ws, f) && forall n: nat :: f(n)(w) == if n == key then x else 0.0
    ensures Holds(Added(totals, key, x), ws + [w], f)
  {
    assert (ws + [w])[..|ws|] == ws;
  }

  lemma OneMoreAccumulated(t: Totals, ws: seq<Weighed>, w: Weighed)
    requires Accumulates(t, ws)
    ensures Accumulates(Accumulated(t, w), ws + [w])
  {
    OneMoreHeld(t.outbound, ws, w, OutOf, w.src, Contribution(w));
    OneMoreHeld(t.inbound, ws, w, Into, w.dst, Contribution(w));
    OneMoreHeld(t.raw, ws, w, RawOutOf, w.src, w.weight);
    OneMoreHeld(t.lifts, ws, w, LiftOutOf, w.src, w.lift);
    OneMoreHeld(t.counts, ws, w, RowsOutOf, w.src, 1.0);
  }

  method Accumulate(q: real, m: Marginals, reference: int, rows: seq<Row>) returns (t: Totals)
    ensures Accumulates(t, WeighAll(q, m, reference, rows))
  {
    t := Totals(map[], map[], map[], map[], map[]);
    var k := 0;
    while k < |rows|
      invariant 0 <= k <= |rows| && Accumulates(t, WeighAll(q, m, reference, rows[..k]))
    {
      var w := Weigh(q, m, reference, rows[k]);
      OneMoreAccumulated(t, WeighAll(q, m, reference, rows[..k]), w);
      assert WeighAll(q, m, reference, rows[..k + 1]) == WeighAll(q, m, reference, rows[..k]) + [w];
      t := Accumulated(t, w);
      k := k + 1;
    }
    assert rows[..k] == rows;
  }

  method FindLeader(nets: map<nat, real>) returns (leader: nat)
    requires nets != map[]
    ensures leader == Leader(nets)
  {
    leader :| leader in nets;
    var todo := nets.Keys - {leader};
    ghost var done := {leader};
    while todo != {}
      invariant done + todo == nets.Keys && leader in done
      invariant forall n | n in done :: n == leader || Ahead(nets, leader, n)
      decreases todo
    {
      var n :| n in todo;
      if Ahead(nets, n, leader) { leader := n; }
      todo, done := todo - {n}, done + {n};
    }
    assert done == nets.Keys;
  }

  /** `_score`. */
  method ScoreRootCause(q: real, m: Marginals, rows: seq<Row>) returns (v: Option<Verdict>)
    ensures v == Score(q, m, rows)
  {
    if rows == [] { return None; }
    var reference := Newest(rows);
    var t := Accumulate(q, m, reference, rows);
    ghost var ws := WeighAll(q, m, reference, rows);
    var nets := map n | n in t.outbound && t.outbound[n] - At(t.inbound, n) > 0.0 :: t.outbound[n] - At(t.inbound, n);
    NetsAreLeading(t, ws, nets);
    if nets == map[] { return None; }
    var leader := FindLeader(nets);
    var runnerUp, others := 0.0, nets - {leader};
    if others != map[] {
      var second := FindLeader(others);
      runnerUp := others[second];
    }
    v := Decide(leader, nets[leader], runnerUp, At(t.outbound, leader), At(t.raw, leader), At(t.lifts, leader), At(t.counts, leader));
  }

  lemma NetsAreLeading(t: Totals, ws: seq<Weighed>, nets: map<nat, real>)
    requires Accumulates(t, ws)
    requires nets == map n | n in t.outbound && t.outbound[n] - At(t.inbound, n) > 0.0 :: t.outbound[n] - At(t.inbound, n)
    ensures nets == Leading(ws)
  {
    forall n: nat ensures At(t.outbound, n) - At(t.inbound, n) == Net(ws, n) {}
  }
}
