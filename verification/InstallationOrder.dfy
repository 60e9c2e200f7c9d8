/**
 * What the order of delivery decides (src/github_integration/store.py).
 *
 * A batch is a set of webhooks about one installation; an order of it delivers each once.
 */
module InstallationOrder {
  import opened Basics
  import opened InstallationState

  /** Handled webhooks about one installation, none delivered before, with ids of their own. */
  ghost predicate IsBatch(s: Store, batch: set<Webhook>, installation: nat) {
    && (forall h :: h in batch ==> h.installation == installation && Handled(h) && h.delivery !in s.deliveries)
    && (forall g, h :: g in batch && h in batch && g.delivery == h.delivery ==> g == h)
  }

  ghost predicate Distinct(q: seq<Webhook>) {
    forall i, j :: 0 <= i < j < |q| ==> q[i] != q[j]
  }

  ghost predicate IsOrder(order: seq<Webhook>, batch: set<Webhook>) {
    Distinct(order) && forall h :: h in order <==> h in batch
  }

  ghost function AllReceived(s: Store, hooks: seq<Webhook>): Store {
    if hooks == [] then s else Received(AllReceived(s, hooks[..|hooks| - 1]), hooks[|hooks| - 1])
  }

  /** The installation is as the webhook left it. */
  predicate Rules(s: Store, h: Webhook) {
    match Find(s, h.installation)
    case None => false
    case Some(i) => i.version == Some(VersionOf(h)) && i.status == StatusOf(h)
  }

  ghost predicate IsNewest(batch: set<Webhook>, w: Webhook) {
    w in batch && forall h :: h in batch && h != w ==> Newer(VersionOf(w), VersionOf(h))
  }

  /** In whatever order the batch arrives, `w` has the last word. */
  ghost predicate AlwaysRules(s: Store, batch: set<Webhook>, w: Webhook) {
    forall order :: IsOrder(order, batch) ==> Rules(AllReceived(s, order), w)
  }

  /** `w` applies now, and after any other webhook that does: none revokes what `w` cannot restore. */
  ghost predicate Unblocked(s: Store, batch: set<Webhook>, w: Webhook) {
    Applies(s, w) && forall h :: h in batch && h != w && Applies(s, h) ==> Admissible(StatusOf(h), w.action)
  }

  // ---- sequences of deliveries ------------------------------------------------------------------

  lemma {:induction false} SomeOrder(batch: set<Webhook>) returns (order: seq<Webhook>)
    ensures IsOrder(order, batch)
    decreases |batch|
  {
    if batch == {} { return []; }
    var h :| h in batch;
    var rest := SomeOrder(batch - {h});
    order := [h] + rest;
  }

  lemma OrderFrom(batch: set<Webhook>, first: seq<Webhook>) returns (order: seq<Webhook>)
    requires Distinct(first) && forall h :: h in first ==> h in batch
    ensures IsOrder(order, batch) && first <= order
  {
    var named := set h | h in first;
    var rest := SomeOrder(batch - named);
    order := first + rest;
    assert forall h :: h in order <==> h in first || h in rest;
    forall i, j | 0 <= i < j < |order| ensures order[i] != order[j] {
      if i < |first| <= j {
        assert order[i] in first && order[j] in rest;
      }
    }
  }

  lemma OrderSplits(batch: set<Webhook>, head: seq<Webhook>, order: seq<Webhook>) returns (rest: seq<Webhook>)
    requires IsOrder(order, batch) && head <= order
    ensures order == head + rest && Distinct(head) && Distinct(rest)
    ensures forall h :: h in head ==> h in batch
    ensures forall h :: h in rest ==> h in batch - (set g | g in head)
  {
    rest := order[|head|..];
    assert forall h :: h in head ==> h in order;
    assert forall h :: h in rest ==> h in order;
    forall h | h in rest ensures h !in head {
      var i :| 0 <= i < |rest| && rest[i] == h;
      assert order[|head| + i] == h;
    }
  }

  lemma {:induction false} AllReceivedConcat(s: Store, p: seq<Webhook>, q: seq<Webhook>)
    ensures AllReceived(s, p + q) == AllReceived(AllReceived(s, p), q)
    decreases |q|
  {
    if q == [] {
      assert p + q == p;
    } else {
      assert (p + q)[..|p + q| - 1] == p + q[..|q| - 1];
      AllReceivedConcat(s, p, q[..|q| - 1]);
    }
  }

  lemma OneReceived(s: Store, h: Webhook)
    ensures AllReceived(s, [h]) == Received(s, h)
  {
    assert [h][..0] == [];
  }

  lemma TwoReceived(s: Store, g: Webhook, h: Webhook)
    ensures AllReceived(s, [g, h]) == Received(Received(s, g), h)
  {
    assert [g, h] == [g] + [h];
    AllReceivedConcat(s, [g], [h]);
    OneReceived(s, g);
    OneReceived(Received(s, g), h);
  }

  /** What was not delivered is not recorded as delivered. */
  lemma {:induction false} NotYetDelivered(s: Store, batch: set<Webhook>, installation: nat, q: seq<Webhook>, h: Webhook)
    requires IsBatch(s, batch, installation) && (forall g :: g in q ==> g in batch) && h in batch && h !in q
    ensures h.delivery !in AllReceived(s, q).deliveries
  {
    if q != [] {
      var n := |q| - 1;
      NotYetDelivered(s, batch, installation, q[..n], h);
      assert q[n] in q;
    }
  }

  // ---- who has the last word ----------------------------------------------------------------------

  /** The installation's row is the starting one, or as a webhook of `q` left it, and no older than at the start. */
  ghost predicate ComesFrom(s: Store, t: Store, q: seq<Webhook>, installation: nat) {
    Find(t, installation) == Find(s, installation)
    || exists u :: u in q && Rules(t, u) && Follows(s, u)
  }

  /** Not older than the row at the start. */
  predicate Follows(s: Store, u: Webhook) {
    match Find(s, u.installation)
    case None => true
    case Some(i) => i.version.None? || Newer(VersionOf(u), i.version.value)
  }

  lemma FollowsApplied(s: Store, t: Store, q: seq<Webhook>, h: Webhook)
    requires ComesFrom(s, t, q, h.installation) && (forall u :: u in q ==> u.installation == h.installation)
    requires Applies(t, h)
    ensures Follows(s, h)
  {
  }

  lemma {:induction false} RowsComeFrom(s: Store, batch: set<Webhook>, installation: nat, q: seq<Webhook>)
    requires IsBatch(s, batch, installation) && Distinct(q) && forall h :: h in q ==> h in batch
    ensures ComesFrom(s, AllReceived(s, q), q, installation)
  {
    if q != [] {
      var n := |q| - 1;
      var init, t, h := q[..n], AllReceived(s, q[..n]), q[n];
      RowsComeFrom(s, batch, installation, init);
      NotYetDelivered(s, batch, installation, init, h);
      WebhooksAreVersioned(t, h);
      assert h in q;
      if Applies(t, h) { FollowsApplied(s, t, init, h); }
    }
  }

  /** Where `w` is unblocked, whatever else applies on the way leaves it so. */
  lemma StaysAdmissible(s: Store, batch: set<Webhook>, w: Webhook, h: Webhook)
    requires Unblocked(s, batch, w) && IsNewest(batch, w) && h in batch && h != w && h.installation == w.installation
    requires Follows(s, h)
    ensures Admissible(StatusOf(h), w.action)
  {
  }

  lemma {:induction false} NewestSettles(s: Store, batch: set<Webhook>, w: Webhook, q: seq<Webhook>)
    requires IsBatch(s, batch, w.installation) && IsNewest(batch, w) && Unblocked(s, batch, w)
    requires Distinct(q) && forall h :: h in q ==> h in batch
    ensures if w in q then Rules(AllReceived(s, q), w) else Applies(AllReceived(s, q), w)
    decreases |q|
  {
    if q != [] {
      var n := |q| - 1;
      var init, t, h := q[..n], AllReceived(s, q[..n]), q[n];
      assert h in q && q == init + [h];
      NewestSettles(s, batch, w, init);
      NotYetDelivered(s, batch, w.installation, init, h);
      WebhooksAreVersioned(t, h);
      if w !in q && Applies(t, h) {
        RowsComeFrom(s, batch, w.installation, init);
        FollowsApplied(s, t, init, h);
        StaysAdmissible(s, batch, w, h);
      }
    }
  }

  /** Once `w` has been turned away, the installation is never as `w` would have left it. */
  lemma {:induction false} TurnedAway(t: Store, batch: set<Webhook>, w: Webhook, q: seq<Webhook>)
    requires IsBatch(t, batch, w.installation) && Distinct(q) && forall h :: h in q ==> h in batch
    requires forall h :: h in batch ==> Newer(VersionOf(w), VersionOf(h))
    requires !Rules(t, w)
    ensures !Rules(AllReceived(t, q), w)
    decreases |q|
  {
    if q != [] {
      var n := |q| - 1;
      assert q[n] in q;
      TurnedAway(t, batch, w, q[..n]);
      NotYetDelivered(t, batch, w.installation, q[..n], q[n]);
      WebhooksAreVersioned(AllReceived(t, q[..n]), q[n]);
    }
  }

  /** Deliveries that find `w` turned away leave the rest of the batch to come. */
  lemma RestIsBatch(s: Store, batch: set<Webhook>, installation: nat, first: seq<Webhook>)
    requires IsBatch(s, batch, installation) && Distinct(first) && forall h :: h in first ==> h in batch
    ensures IsBatch(AllReceived(s, first), batch - (set h | h in first), installation)
  {
    forall h | h in batch - (set g | g in first) ensures h.delivery !in AllReceived(s, first).deliveries {
      NotYetDelivered(s, batch, installation, first, h);
    }
  }

  /** Some order begins like this, and what comes after cannot make up for `w` turned away. */
  lemma TurnedAwayFirst(s: Store, batch: set<Webhook>, w: Webhook, first: seq<Webhook>)
    requires IsBatch(s, batch, w.installation) && IsNewest(batch, w)
    requires Distinct(first) && w in first && forall h :: h in first ==> h in batch
    requires !Rules(AllReceived(s, first), w)
    ensures !AlwaysRules(s, batch, w)
  {
    var order := OrderFrom(batch, first);
    var rest := OrderSplits(batch, first, order);
    AllReceivedConcat(s, first, rest);
    RestIsBatch(s, batch, w.installation, first);
    TurnedAway(AllReceived(s, first), batch - (set h | h in first), w, rest);
  }

  lemma BlockedIsTurnedAway(s: Store, batch: set<Webhook>, w: Webhook)
    requires IsBatch(s, batch, w.installation) && IsNewest(batch, w)
    requires !Rules(s, w) && !Unblocked(s, batch, w)
    ensures !AlwaysRules(s, batch, w)
  {
    if !Applies(s, w) {
      OneReceived(s, w);
      WebhooksAreVersioned(s, w);
      TurnedAwayFirst(s, batch, w, [w]);
    } else {
      var h :| h in batch && h != w && Applies(s, h) && !Admissible(StatusOf(h), w.action);
      TwoReceived(s, h, w);
      WebhooksAreVersioned(s, h);
      WebhooksAreVersioned(Received(s, h), w);
      TurnedAwayFirst(s, batch, w, [h, w]);
    }
  }

  lemma {:induction false} AlreadyRules(s: Store, batch: set<Webhook>, w: Webhook, q: seq<Webhook>)
    requires IsBatch(s, batch, w.installation) && IsNewest(batch, w) && Rules(s, w)
    requires Distinct(q) && forall h :: h in q ==> h in batch
    ensures Rules(AllReceived(s, q), w)
    decreases |q|
  {
    if q != [] {
      var n := |q| - 1;
      assert q[n] in q;
      AlreadyRules(s, batch, w, q[..n]);
      WebhooksAreVersioned(AllReceived(s, q[..n]), q[n]);
    }
  }

  /**
   * Exactly when the newest webhook has the last word in every order: the installation is as
   * it would leave it already, or it applies, and no other one that applies leaves a status
   * its action cannot lift.
   */
  lemma NewestWins(s: Store, batch: set<Webhook>, w: Webhook)
    requires IsBatch(s, batch, w.installation) && IsNewest(batch, w)
    ensures AlwaysRules(s, batch, w) <==> Rules(s, w) || Unblocked(s, batch, w)
  {
    if Rules(s, w) || Unblocked(s, batch, w) {
      forall order | IsOrder(order, batch) ensures Rules(AllReceived(s, order), w) {
        if Rules(s, w) { AlreadyRules(s, batch, w, order); } else { NewestSettles(s, batch, w, order); }
      }
    } else {
      BlockedIsTurnedAway(s, batch, w);
    }
  }

  /** All orders of the batch end in one version and status. */
  ghost predicate OneStanding(s: Store, batch: set<Webhook>, installation: nat) {
    forall one, other :: IsOrder(one, batch) && IsOrder(other, batch) ==>
      Standing(AllReceived(s, one), installation) == Standing(AllReceived(s, other), installation)
  }

  function Standing(s: Store, installation: nat): Option<(Option<Version>, Status)> {
    match Find(s, installation)
    case None => None
    case Some(i) => Some((i.version, i.status))
  }

  /** Where the newest applies at all, version and status ignore the order exactly if it is unblocked. */
  lemma StatusIgnoresOrder(s: Store, batch: set<Webhook>, w: Webhook)
    requires IsBatch(s, batch, w.installation) && IsNewest(batch, w) && Applies(s, w)
    ensures OneStanding(s, batch, w.installation) <==>
              forall h :: h in batch && h != w && Applies(s, h) ==> Admissible(StatusOf(h), w.action)
  {
    NewestWins(s, batch, w);
    if AlwaysRules(s, batch, w) {
      forall one, other | IsOrder(one, batch) && IsOrder(other, batch)
        ensures Standing(AllReceived(s, one), w.installation) == Standing(AllReceived(s, other), w.installation)
      {
        assert Rules(AllReceived(s, one), w) && Rules(AllReceived(s, other), w);
      }
    } else {
      var bad :| IsOrder(bad, batch) && !Rules(AllReceived(s, bad), w);
      var good := OrderFrom(batch, [w]);
      NewestFirst(s, batch, w, good);
    }
  }

  lemma NewestFirst(s: Store, batch: set<Webhook>, w: Webhook, order: seq<Webhook>)
    requires IsBatch(s, batch, w.installation) && IsNewest(batch, w) && Applies(s, w)
    requires IsOrder(order, batch) && [w] <= order
    ensures Rules(AllReceived(s, order), w)
  {
    OneReceived(s, w);
    WebhooksAreVersioned(s, w);
    NothingAfter(s, batch, w, [w], order);
  }

  lemma {:induction false} RulesThrough(t: Store, batch: set<Webhook>, w: Webhook, q: seq<Webhook>)
    requires IsBatch(t, batch, w.installation) && Rules(t, w)
    requires forall h :: h in batch ==> Newer(VersionOf(w), VersionOf(h))
    requires forall h :: h in q ==> h in batch
    ensures Rules(AllReceived(t, q), w)
    ensures Find(AllReceived(t, q), w.installation) == Find(t, w.installation)
    ensures AllReceived(t, q).repositories == t.repositories
    decreases |q|
  {
    if q != [] {
      var n := |q| - 1;
      assert q[n] in q;
      RulesThrough(t, batch, w, q[..n]);
      WebhooksAreVersioned(AllReceived(t, q[..n]), q[n]);
    }
  }

  /** After `w` nothing else of the batch changes its installation or any repository. */
  lemma NothingAfter(s: Store, batch: set<Webhook>, w: Webhook, head: seq<Webhook>, order: seq<Webhook>)
    requires IsBatch(s, batch, w.installation) && IsNewest(batch, w) && IsOrder(order, batch)
    requires w in head && head <= order && Rules(AllReceived(s, head), w)
    ensures Find(AllReceived(s, order), w.installation) == Find(AllReceived(s, head), w.installation)
    ensures AllReceived(s, order).repositories == AllReceived(s, head).repositories
  {
    var rest := OrderSplits(batch, head, order);
    AllReceivedConcat(s, head, rest);
    RestIsBatch(s, batch, w.installation, head);
    RulesThrough(AllReceived(s, head), batch - (set g | g in head), w, rest);
  }

  // ---- which repositories end up selected -----------------------------------------------------------

  function Selection(s: Store, installation: nat): set<nat> {
    set r | r in s.repositories && s.repositories[r] == Repository(installation, true)
  }

  /** The repositories a webhook names, and those of them it leaves selected. */
  function Touched(h: Webhook): set<nat> {
    (set r | r in h.added) + (if h.repositoryEvent then set r | r in h.removed else {})
  }

  function Gained(h: Webhook): set<nat> {
    set r | r in h.added && !(h.repositoryEvent && r in h.removed)
  }

  function SelectionAfter(selected: set<nat>, h: Webhook): set<nat> {
    if StatusOf(h).ACTIVE? then selected - Touched(h) + Gained(h) else {}
  }

  lemma ReceivedSelects(t: Store, h: Webhook)
    ensures Selection(Received(t, h), h.installation)
         == if TakesEffect(t, h) then SelectionAfter(Selection(t, h.installation), h) else Selection(t, h.installation)
  {
    if TakesEffect(t, h) && StatusOf(h).ACTIVE? {
      SelectedIs(t.repositories, h.installation, h.added);
    }
  }

  /** Coming before one that touches `touched`, the webhook makes no difference to what is selected after it. */
  predicate MakesNoDifference(h: Webhook, selected: set<nat>, touched: set<nat>) {
    if StatusOf(h).ACTIVE?
    then Gained(h) <= selected + touched && selected * (Touched(h) - Gained(h)) <= touched
    else selected <= touched
  }

  lemma EqualOutside(a: set<nat>, b: set<nat>, touched: set<nat>)
    ensures a - touched == b - touched <==> forall r :: r !in touched ==> (r in a <==> r in b)
  {
    if a - touched == b - touched {
      forall r | r !in touched ensures r in a <==> r in b {
        assert r in a - touched <==> r in b - touched;
      }
    }
  }

  lemma NoDifferenceMeans(h: Webhook, selected: set<nat>, touched: set<nat>)
    ensures MakesNoDifference(h, selected, touched) <==> SelectionAfter(selected, h) - touched == selected - touched
  {
    EqualOutside(SelectionAfter(selected, h), selected, touched);
    assert Gained(h) <= Touched(h);
  }

  lemma NoDifferenceOutside(h: Webhook, selected: set<nat>, other: set<nat>, touched: set<nat>)
    requires selected - touched == other - touched
    ensures SelectionAfter(selected, h) - touched == SelectionAfter(other, h) - touched
  {
    forall r ensures r in SelectionAfter(selected, h) - touched <==> r in SelectionAfter(other, h) - touched {
      assert r in selected - touched <==> r in other - touched;
    }
  }

  /** `h` can take effect before `w` does: at once, or after one other webhook. */
  ghost predicate MayPrecede(s: Store, batch: set<Webhook>, w: Webhook, h: Webhook) {
    && h in batch && h != w
    && (Applies(s, h)
        || exists u :: u in batch && u != w && u != h && Applies(s, u)
                       && Admissible(StatusOf(u), h.action) && Newer(VersionOf(h), VersionOf(u)))
  }

  /** The installation's row is the starting one, or as a webhook that may precede `w` left it. */
  ghost predicate Precedes(s: Store, batch: set<Webhook>, w: Webhook, t: Store) {
    Find(t, w.installation) == Find(s, w.installation)
    || exists u :: Rules(t, u) && u.installation == w.installation && MayPrecede(s, batch, w, u)
  }

  lemma AppliedMayPrecede(s: Store, batch: set<Webhook>, w: Webhook, t: Store, h: Webhook)
    requires forall g :: g in batch ==> g.installation == w.installation
    requires Precedes(s, batch, w, t) && h in batch && h != w && Applies(t, h)
    ensures MayPrecede(s, batch, w, h)
  {
    if Find(t, w.installation) != Find(s, w.installation) {
      var u :| Rules(t, u) && u.installation == w.installation && MayPrecede(s, batch, w, u);
      if !Applies(s, u) {
        var v :| v in batch && v != w && v != u && Applies(s, v)
                 && Admissible(StatusOf(v), u.action) && Newer(VersionOf(u), VersionOf(v));
        ThroughTwo(s, v, u, h);
      }
    }
  }

  /** Two steps to a state in which `h` applies could have been one, or none. */
  lemma ThroughTwo(s: Store, v: Webhook, u: Webhook, h: Webhook)
    requires v.installation == u.installation == h.installation
    requires Applies(s, v) && Admissible(StatusOf(v), u.action) && Newer(VersionOf(u), VersionOf(v)) && !Applies(s, u)
    requires Admissible(StatusOf(u), h.action) && Newer(VersionOf(h), VersionOf(u))
    ensures Applies(s, h) || (Admissible(StatusOf(v), h.action) && Newer(VersionOf(h), VersionOf(v)) && v != h)
  {
  }

  lemma {:induction false} RowsPrecede(s: Store, batch: set<Webhook>, w: Webhook, q: seq<Webhook>)
    requires IsBatch(s, batch, w.installation) && Distinct(q) && w !in q && forall h :: h in q ==> h in batch
    ensures Precedes(s, batch, w, AllReceived(s, q))
  {
    if q != [] {
      var n := |q| - 1;
      var t, h := AllReceived(s, q[..n]), q[n];
      assert h in q;
      RowsPrecede(s, batch, w, q[..n]);
      NotYetDelivered(s, batch, w.installation, q[..n], h);
      WebhooksAreVersioned(t, h);
      if Applies(t, h) {
        AppliedMayPrecede(s, batch, w, t, h);
        assert Rules(Received(t, h), h);
      }
    }
  }

  /** What `w` decides about every repository whatever came before it: nothing that may precede it makes a difference. */
  ghost predicate DecidesAll(s: Store, batch: set<Webhook>, w: Webhook) {
    StatusOf(w).ACTIVE? ==>
      forall h :: MayPrecede(s, batch, w, h) ==> MakesNoDifference(h, Selection(s, w.installation), Touched(w))
  }

  lemma {:induction false} SameOutside(s: Store, batch: set<Webhook>, w: Webhook, q: seq<Webhook>)
    requires IsBatch(s, batch, w.installation) && Distinct(q) && w !in q && forall h :: h in q ==> h in batch
    requires forall h :: MayPrecede(s, batch, w, h) ==> MakesNoDifference(h, Selection(s, w.installation), Touched(w))
    ensures Selection(AllReceived(s, q), w.installation) - Touched(w) == Selection(s, w.installation) - Touched(w)
  {
    if q != [] {
      var n := |q| - 1;
      var t, h := AllReceived(s, q[..n]), q[n];
      assert h in q;
      SameOutside(s, batch, w, q[..n]);
      ReceivedSelects(t, h);
      if TakesEffect(t, h) {
        RowsPrecede(s, batch, w, q[..n]);
        AppliedMayPrecede(s, batch, w, t, h);
        NoDifferenceOutside(h, Selection(t, w.installation), Selection(s, w.installation), Touched(w));
        NoDifferenceMeans(h, Selection(s, w.installation), Touched(w));
      }
    }
  }

  /** `w`, whatever came before it, settles status and selection. */
  lemma NewestSelects(s: Store, batch: set<Webhook>, w: Webhook, front: seq<Webhook>)
    requires IsBatch(s, batch, w.installation) && IsNewest(batch, w) && Unblocked(s, batch, w)
    requires Distinct(front) && w !in front && forall h :: h in front ==> h in batch
    ensures Rules(AllReceived(s, front + [w]), w)
    ensures Selection(AllReceived(s, front + [w]), w.installation)
         == SelectionAfter(Selection(AllReceived(s, front), w.installation), w)
  {
    NewestSettles(s, batch, w, front);
    NotYetDelivered(s, batch, w.installation, front, w);
    var t := AllReceived(s, front);
    ReceivedSelects(t, w);
    WebhooksAreVersioned(t, w);
    AllReceivedConcat(s, front, [w]);
    OneReceived(t, w);
  }

  lemma FrontOf(batch: set<Webhook>, w: Webhook, order: seq<Webhook>) returns (front: seq<Webhook>)
    requires IsOrder(order, batch) && w in batch
    ensures front + [w] <= order && Distinct(front) && w !in front && forall h :: h in front ==> h in batch
  {
    var k :| 0 <= k < |order| && order[k] == w;
    front := order[..k];
    assert forall h :: h in front ==> h in order;
  }

  lemma SelectionIsSettled(s: Store, batch: set<Webhook>, w: Webhook, order: seq<Webhook>) returns (front: seq<Webhook>)
    requires IsBatch(s, batch, w.installation) && IsNewest(batch, w) && Unblocked(s, batch, w) && IsOrder(order, batch)
    ensures front + [w] <= order && Distinct(front) && w !in front && forall h :: h in front ==> h in batch
    ensures Selection(AllReceived(s, order), w.installation)
         == SelectionAfter(Selection(AllReceived(s, front), w.installation), w)
  {
    front := FrontOf(batch, w, order);
    NewestSelects(s, batch, w, front);
    NothingAfter(s, batch, w, front + [w], order);
  }

  ghost predicate OneSelection(s: Store, batch: set<Webhook>, installation: nat) {
    forall one, other :: IsOrder(one, batch) && IsOrder(other, batch) ==>
      Selection(AllReceived(s, one), installation) == Selection(AllReceived(s, other), installation)
  }

  lemma AfterIgnoresTouched(w: Webhook, selected: set<nat>, other: set<nat>)
    ensures StatusOf(w).ACTIVE? ==>
              (SelectionAfter(selected, w) == SelectionAfter(other, w) <==> selected - Touched(w) == other - Touched(w))
  {
    assert Gained(w) <= Touched(w);
    if StatusOf(w).ACTIVE? && SelectionAfter(selected, w) == SelectionAfter(other, w) {
      assert selected - Touched(w) == SelectionAfter(selected, w) - Touched(w);
      assert other - Touched(w) == SelectionAfter(other, w) - Touched(w);
    }
  }

  /**
   * Where the newest webhook always has the last word, what ends up selected ignores the
   * order exactly if the newest leaves the installation without access, or every webhook that
   * may take effect before it selects and deselects only what the newest names itself.
   */
  lemma SelectionIgnoresOrder(s: Store, batch: set<Webhook>, w: Webhook)
    requires IsBatch(s, batch, w.installation) && IsNewest(batch, w) && Unblocked(s, batch, w)
    ensures OneSelection(s, batch, w.installation) <==> DecidesAll(s, batch, w)
  {
    if DecidesAll(s, batch, w) {
      forall one, other | IsOrder(one, batch) && IsOrder(other, batch)
        ensures Selection(AllReceived(s, one), w.installation) == Selection(AllReceived(s, other), w.installation)
      {
        var front := SelectionIsSettled(s, batch, w, one);
        var before := SelectionIsSettled(s, batch, w, other);
        if StatusOf(w).ACTIVE? {
          SameOutside(s, batch, w, front);
          SameOutside(s, batch, w, before);
          AfterIgnoresTouched(w, Selection(AllReceived(s, front), w.installation), Selection(AllReceived(s, before), w.installation));
        }
      }
    }
    if OneSelection(s, batch, w.installation) && StatusOf(w).ACTIVE? {
      forall h | MayPrecede(s, batch, w, h)
        ensures MakesNoDifference(h, Selection(s, w.installation), Touched(w))
      {
        NoDifferenceSeen(s, batch, w, h);
      }
    }
  }

  /** Any front without `w` is the front of an order, and shows in what `w` leaves. */
  lemma FrontShows(s: Store, batch: set<Webhook>, w: Webhook, front: seq<Webhook>)
    requires IsBatch(s, batch, w.installation) && IsNewest(batch, w) && Unblocked(s, batch, w)
    requires StatusOf(w).ACTIVE? && OneSelection(s, batch, w.installation)
    requires Distinct(front) && w !in front && forall h :: h in front ==> h in batch
    ensures Selection(AllReceived(s, front), w.installation) - Touched(w) == Selection(s, w.installation) - Touched(w)
  {
    var one := OrderFrom(batch, front + [w]);
    var other := OrderFrom(batch, [w]);
    var f := SelectionIsSettled(s, batch, w, one);
    var g := SelectionIsSettled(s, batch, w, other);
    FrontIsUnique(one, front, f, w);
    FrontIsUnique(other, [], g, w);
    AfterIgnoresTouched(w, Selection(AllReceived(s, front), w.installation), Selection(s, w.installation));
  }

  lemma FrontIsUnique(order: seq<Webhook>, f: seq<Webhook>, g: seq<Webhook>, w: Webhook)
    requires Distinct(order) && f + [w] <= order && g + [w] <= order
    ensures f == g
  {
    assert order[|f|] == (f + [w])[|f|] == w && order[|g|] == (g + [w])[|g|] == w;
    assert f == order[..|f|] && g == order[..|g|];
  }

  lemma NoDifferenceSeen(s: Store, batch: set<Webhook>, w: Webhook, h: Webhook)
    requires IsBatch(s, batch, w.installation) && IsNewest(batch, w) && Unblocked(s, batch, w)
    requires StatusOf(w).ACTIVE? && OneSelection(s, batch, w.installation) && MayPrecede(s, batch, w, h)
    ensures MakesNoDifference(h, Selection(s, w.installation), Touched(w))
  {
    NoDifferenceMeans(h, Selection(s, w.installation), Touched(w));
    if Applies(s, h) {
      FrontShows(s, batch, w, [h]);
      OneReceived(s, h);
      ReceivedSelects(s, h);
    } else {
      var u :| u in batch && u != w && u != h && Applies(s, u)
               && Admissible(StatusOf(u), h.action) && Newer(VersionOf(h), VersionOf(u));
      NoDifferenceAfter(s, batch, w, u, h);
    }
  }

  lemma NoDifferenceAfter(s: Store, batch: set<Webhook>, w: Webhook, u: Webhook, h: Webhook)
    requires IsBatch(s, batch, w.installation) && IsNewest(batch, w) && Unblocked(s, batch, w)
    requires StatusOf(w).ACTIVE? && OneSelection(s, batch, w.installation)
    requires u in batch && h in batch && u != w && h != w && u != h
    requires Applies(s, u) && Admissible(StatusOf(u), h.action) && Newer(VersionOf(h), VersionOf(u))
    ensures SelectionAfter(Selection(s, w.installation), h) - Touched(w) == Selection(s, w.installation) - Touched(w)
  {
    var t := Received(s, u);
    FrontShows(s, batch, w, [u]);
    OneReceived(s, u);
    FrontShows(s, batch, w, [u, h]);
    TwoReceived(s, u, h);
    AppliesAfter(s, u, h);
    ReceivedSelects(t, h);
    NoDifferenceOutside(h, Selection(t, w.installation), Selection(s, w.installation), Touched(w));
  }

  lemma AppliesAfter(s: Store, u: Webhook, h: Webhook)
    requires u.installation == h.installation && TakesEffect(s, u) && Handled(h)
    requires h.delivery !in s.deliveries && h.delivery != u.delivery
    requires Admissible(StatusOf(u), h.action) && Newer(VersionOf(h), VersionOf(u))
    ensures TakesEffect(Received(s, u), h)
  {
    WebhooksAreVersioned(s, u);
  }

  // ---- revisions ----------------------------------------------------------------------------------

  ghost predicate OneRevision(s: Store, batch: set<Webhook>, installation: nat) {
    forall one, other :: IsOrder(one, batch) && IsOrder(other, batch) ==>
      Revision(AllReceived(s, one), installation) == Revision(AllReceived(s, other), installation)
  }

  lemma RevisionAfter(s: Store, batch: set<Webhook>, w: Webhook, front: seq<Webhook>, order: seq<Webhook>)
    requires IsBatch(s, batch, w.installation) && IsNewest(batch, w) && Unblocked(s, batch, w)
    requires IsOrder(order, batch) && front + [w] <= order && w !in front
    requires Distinct(front) && forall h :: h in front ==> h in batch
    ensures Revision(AllReceived(s, order), w.installation) == Revision(AllReceived(s, front), w.installation) + 1
  {
    NewestSelects(s, batch, w, front);
    NothingAfter(s, batch, w, front + [w], order);
    NewestSettles(s, batch, w, front);
    NotYetDelivered(s, batch, w.installation, front, w);
    WebhooksAreVersioned(AllReceived(s, front), w);
    AllReceivedConcat(s, front, [w]);
    OneReceived(AllReceived(s, front), w);
  }

  /** The revision ignores the order exactly if no other webhook of the batch applies at all. */
  lemma RevisionIgnoresOrder(s: Store, batch: set<Webhook>, w: Webhook)
    requires IsBatch(s, batch, w.installation) && IsNewest(batch, w) && Unblocked(s, batch, w)
    ensures OneRevision(s, batch, w.installation) <==> forall h :: h in batch && h != w ==> !Applies(s, h)
  {
    if h :| h in batch && h != w && Applies(s, h) {
      var one := OrderFrom(batch, [h, w]);
      var other := OrderFrom(batch, [w]);
      assert [h, w] == [h] + [w] && [w] == [] + [w];
      RevisionAfter(s, batch, w, [h], one);
      RevisionAfter(s, batch, w, [], other);
      OneReceived(s, h);
      WebhooksAreVersioned(s, h);
    } else {
      forall order | IsOrder(order, batch)
        ensures Revision(AllReceived(s, order), w.installation) == Revision(s, w.installation) + 1
      {
        var front := FrontOf(batch, w, order);
        RowsPrecede(s, batch, w, front);
        RevisionAfter(s, batch, w, front, order);
      }
    }
  }

  // ---- where the order decides ----------------------------------------------------------------------

  /** Revocations are absorbing only once they are seen: a deletion older than another event can be missed. */
  lemma OrderCanMatter(installation: nat) returns (first: Webhook, second: Webhook)
    ensures var s := Store(map[], map[], {});
            && IsBatch(s, {first, second}, installation) && IsNewest({first, second}, second)
            && StatusOf(first).DELETED? && Rules(AllReceived(s, [first, second]), first)
            && StatusOf(second).ACTIVE? && Rules(AllReceived(s, [second, first]), second)
  {
    first := Webhook("a", false, installation, Action.Deleted, 1, false, false, true, [], []);
    second := Webhook("b", false, installation, Created, 2, false, false, true, [], []);
    var s := Store(map[], map[], {});
    TwoReceived(s, first, second);
    TwoReceived(s, second, first);
  }

  function Grant(delivery: string, installation: nat, timestamp: int, r: nat): Webhook {
    Webhook(delivery, true, installation, Added, timestamp, false, false, true, [r], [])
  }

  /** A grant overtaken by a newer one is lost, though neither revokes: only the first order keeps repository 1. */
  lemma SelectionCanMatter(installation: nat)
    ensures var s, first, second := Store(map[], map[], {}), Grant("a", installation, 1, 1), Grant("b", installation, 2, 2);
            && IsBatch(s, {first, second}, installation) && IsNewest({first, second}, second)
            && Unblocked(s, {first, second}, second)
            && Selection(AllReceived(s, [first, second]), installation) == {1, 2}
            && Revision(AllReceived(s, [first, second]), installation) == 2
            && Selection(AllReceived(s, [second, first]), installation) == {2}
            && Revision(AllReceived(s, [second, first]), installation) == 1
  {
    var s, first, second := Store(map[], map[], {}), Grant("a", installation, 1, 1), Grant("b", installation, 2, 2);
    GrantsAreBatch(s, installation);
    TwoReceived(s, first, second);
    TwoReceived(s, second, first);
    GrantThenGrant(s, first, second);
    GrantTooLate(s, second, first);
  }

  lemma GrantsAreBatch(s: Store, installation: nat)
    requires s == Store(map[], map[], {})
    ensures var first, second := Grant("a", installation, 1, 1), Grant("b", installation, 2, 2);
            && IsBatch(s, {first, second}, installation) && IsNewest({first, second}, second)
            && Unblocked(s, {first, second}, second)
  {
    assert "a"[0] != "b"[0];
  }

  lemma GrantThenGrant(s: Store, first: Webhook, second: Webhook)
    requires s == Store(map[], map[], {})
    requires first == Grant("a", first.installation, 1, 1) && second == Grant("b", first.installation, 2, 2)
    ensures Selection(Received(Received(s, first), second), first.installation) == {1, 2}
    ensures Revision(Received(Received(s, first), second), first.installation) == 2
  {
    SelectsOne(s, first, 1);
    WebhooksAreVersioned(s, first);
    SelectsOne(Received(s, first), second, 2);
    assert Selection(s, first.installation) == {};
  }

  lemma GrantTooLate(s: Store, first: Webhook, second: Webhook)
    requires s == Store(map[], map[], {})
    requires first == Grant("b", first.installation, 2, 2) && second == Grant("a", first.installation, 1, 1)
    ensures Selection(Received(Received(s, first), second), first.installation) == {2}
    ensures Revision(Received(Received(s, first), second), first.installation) == 1
  {
    SelectsOne(s, first, 2);
    WebhooksAreVersioned(s, first);
    ReceivedSelects(Received(s, first), second);
    WebhooksAreVersioned(Received(s, first), second);
    assert Selection(s, first.installation) == {};
  }

  lemma SelectsOne(t: Store, h: Webhook, r: nat)
    requires TakesEffect(t, h) && StatusOf(h).ACTIVE? && h.added == [r] && h.removed == []
    ensures Selection(Received(t, h), h.installation) == Selection(t, h.installation) + {r}
    ensures Revision(Received(t, h), h.installation) == Revision(t, h.installation) + 1
  {
    ReceivedSelects(t, h);
    WebhooksAreVersioned(t, h);
    assert Touched(h) == Gained(h) == {r};
  }

  /** One webhook takes more away than another. */
  predicate RevokesMore(h: Webhook, g: Webhook) {
    if h.action.Deleted? then !g.action.Deleted?
    else if g.action.Deleted? then false
    else if h.action.Suspend? then !g.action.Suspend?
    else if g.action.Suspend? then false
    else if h.allRepositories then !g.allRepositories
    else h.action.Removed? && !g.allRepositories && !g.action.Removed?
  }

  /**
   * Of two events with one timestamp the more revoking one stands, whichever comes first;
   * for one that neither deletes nor suspends, exactly if the other does not suspend.
   */
  lemma DenyWins(s: Store, g: Webhook, h: Webhook)
    requires IsBatch(s, {g, h}, h.installation) && h.timestamp == g.timestamp && RevokesMore(h, g) && Applies(s, h)
    ensures Rules(AllReceived(s, [h, g]), h)
    ensures Rules(AllReceived(s, [g, h]), h) <==> !Applies(s, g) || Admissible(StatusOf(g), h.action)
    ensures h.action.Deleted? || h.action.Suspend? ==> Rules(AllReceived(s, [g, h]), h)
  {
    assert g in {g, h} && h in {g, h} && Newer(VersionOf(h), VersionOf(g));
    TwoReceived(s, h, g);
    FirstStands(s, h, g);
    TwoReceived(s, g, h);
    SecondStands(s, g, h);
  }

  lemma FirstStands(s: Store, h: Webhook, g: Webhook)
    requires g.installation == h.installation && TakesEffect(s, h) && Newer(VersionOf(h), VersionOf(g))
    ensures Rules(Received(Received(s, h), g), h)
  {
    WebhooksAreVersioned(s, h);
    WebhooksAreVersioned(Received(s, h), g);
  }

  lemma SecondStands(s: Store, g: Webhook, h: Webhook)
    requires g.installation == h.installation && g.delivery !in s.deliveries && Handled(g) && g.delivery != h.delivery
    requires TakesEffect(s, h) && Newer(VersionOf(h), VersionOf(g))
    ensures Rules(Received(Received(s, g), h), h) <==> !Applies(s, g) || Admissible(StatusOf(g), h.action)
  {
    WebhooksAreVersioned(s, g);
    WebhooksAreVersioned(Received(s, g), h);
  }
}
