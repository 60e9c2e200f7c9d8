/**
 * The resumable event stream over the ledger (src/stream/sse_broker.py).
 *
 * The ledger is the sequence of its rows' incidents: the row numbered `s` is at place
 * `s - 1`, because `next_seq_and_prev_hash` numbers rows from one without gaps. An event
 * is its stream id; ids of row `s` start above `10 * s`.
 */
module SseBroker {
  import opened Basics

  /** The ids of row `s`: incident, graph, card and metrics; none if the incident is missing. */
  function RowIds(ledger: seq<nat>, incidents: set<nat>, s: nat): seq<nat>
    requires 1 <= s <= |ledger|
  {
    if ledger[s - 1] in incidents then
      var b := s * 10;
      [b + 1, b + 2, b + 3, b + 4]
    else []
  }

  /** The ids of the rows numbered `lo` up to and including `hi`, in order. */
  ghost function RowsFrom(ledger: seq<nat>, incidents: set<nat>, lo: nat, hi: nat): seq<nat>
    requires 1 <= lo && hi <= |ledger|
    decreases hi
  {
    if hi < lo then [] else RowsFrom(ledger, incidents, lo, hi - 1) + RowIds(ledger, incidents, hi)
  }

  function Above(ids: seq<nat>, cursor: nat): seq<nat> {
    if ids == [] then []
    else
      var last := ids[|ids| - 1];
      Above(ids[..|ids| - 1], cursor) + (if last > cursor then [last] else [])
  }

  /** All the ids lie above `lo` and not above `hi`. */
  ghost predicate Between(ids: seq<nat>, lo: int, hi: int) {
    forall i :: 0 <= i < |ids| ==> lo < ids[i] <= hi
  }

  ghost predicate Increasing(ids: seq<nat>) {
    forall i, j :: 0 <= i < j < |ids| ==> ids[i] < ids[j]
  }

  /** The first row a poll reads: a cursor at a multiple of ten, as a snapshot's, covers its row. */
  function FirstRow(cursor: nat): (s: nat)
    ensures s >= 1
  {
    var s := cursor / 10 + if cursor % 10 == 0 then 1 else 0;
    if s == 0 then 1 else s
  }

  function LastRow(ledger: seq<nat>, cursor: nat, limit: nat): (s: nat)
    ensures s <= |ledger|
  {
    var s := FirstRow(cursor) + limit - 1;
    if s < |ledger| then s else |ledger|
  }

  /** Everything still to be delivered to a subscriber at `cursor`. */
  ghost function Pending(ledger: seq<nat>, incidents: set<nat>, cursor: nat): seq<nat> {
    Above(RowsFrom(ledger, incidents, FirstRow(cursor), |ledger|), cursor)
  }

  ghost function Poll(ledger: seq<nat>, incidents: set<nat>, cursor: nat, limit: nat): seq<nat> {
    Above(RowsFrom(ledger, incidents, FirstRow(cursor), LastRow(ledger, cursor, limit)), cursor)
  }

  ghost predicate AllPresent(ledger: seq<nat>, incidents: set<nat>) {
    forall i :: 0 <= i < |ledger| ==> ledger[i] in incidents
  }

  /** `read_delta_events`; `None` is the ValueError for a negative cursor. */
  method ReadDeltaEvents(ledger: seq<nat>, incidents: set<nat>, cursor: int, limit: nat) returns (r: Option<seq<nat>>)
    ensures r == if cursor < 0 then None else Some(Poll(ledger, incidents, cursor, limit))
  {
    if cursor < 0 { return None; }
    var s, last := FirstRow(cursor), LastRow(ledger, cursor, limit);
    var deltas: seq<nat> := [];
    while s <= last
      invariant FirstRow(cursor) <= s && (s <= last + 1 || s == FirstRow(cursor))
      invariant deltas == Above(RowsFrom(ledger, incidents, FirstRow(cursor), if s - 1 < last then s - 1 else last), cursor)
    {
      var ids := RowIds(ledger, incidents, s);
      AboveConcat(RowsFrom(ledger, incidents, FirstRow(cursor), s - 1), ids, cursor);
      deltas := deltas + Above(ids, cursor);
      s := s + 1;
    }
    r := Some(deltas);
  }

  // ---- increasing sequences -----------------------------------------------------------------

  lemma {:induction false} AboveConcat(p: seq<nat>, q: seq<nat>, cursor: nat)
    ensures Above(p + q, cursor) == Above(p, cursor) + Above(q, cursor)
    decreases |q|
  {
    if q == [] {
      assert p + q == p;
    } else {
      var n := |q| - 1;
      assert (p + q)[..|p + q| - 1] == p + q[..n];
      AboveConcat(p, q[..n], cursor);
    }
  }

  lemma {:induction false} AboveAll(ids: seq<nat>, lo: nat, hi: nat)
    requires Between(ids, lo, hi)
    ensures Above(ids, lo) == ids && Above(ids, hi) == []
  {
    if ids != [] { AboveAll(ids[..|ids| - 1], lo, hi); }
  }

  lemma {:induction false} AboveAtMost(ids: seq<nat>, cursor: nat)
    requires forall i :: 0 <= i < |ids| ==> ids[i] <= cursor
    ensures Above(ids, cursor) == []
  {
    if ids != [] { AboveAtMost(ids[..|ids| - 1], cursor); }
  }

  /** In increasing ids, what is above one of them is what follows it. */
  lemma {:induction false} AboveIsSuffix(ids: seq<nat>, k: nat)
    requires Increasing(ids) && k < |ids|
    ensures Above(ids, ids[k]) == ids[k + 1..]
    decreases |ids|
  {
    var n := |ids| - 1;
    if k < n {
      AboveIsSuffix(ids[..n], k);
    } else {
      AboveAtMost(ids[..n], ids[k]);
    }
  }

  lemma {:induction false} AboveTwice(ids: seq<nat>, c: nat, d: nat)
    requires c <= d
    ensures Above(Above(ids, c), d) == Above(ids, d)
  {
    if ids != [] {
      var n := |ids| - 1;
      AboveTwice(ids[..n], c, d);
      AboveConcat(Above(ids[..n], c), if ids[n] > c then [ids[n]] else [], d);
    }
  }

  lemma {:induction false} AboveBetween(ids: seq<nat>, cursor: nat, lo: int, hi: int)
    requires Between(ids, lo, hi)
    ensures Between(Above(ids, cursor), lo, hi)
    ensures forall i :: 0 <= i < |Above(ids, cursor)| ==> Above(ids, cursor)[i] > cursor
  {
    if ids != [] { AboveBetween(ids[..|ids| - 1], cursor, lo, hi); }
  }

  lemma {:induction false} AboveIncreasing(ids: seq<nat>, cursor: nat)
    requires Increasing(ids)
    ensures Increasing(Above(ids, cursor))
  {
    if ids != [] {
      var n := |ids| - 1;
      AboveIncreasing(ids[..n], cursor);
      AboveBetween(ids[..n], cursor, -1, ids[n] as int - 1);
    }
  }

  // ---- rows -----------------------------------------------------------------------------------

  lemma {:induction false} RowsIncrease(ledger: seq<nat>, incidents: set<nat>, lo: nat, hi: nat)
    requires 1 <= lo <= hi + 1 && hi <= |ledger|
    ensures Increasing(RowsFrom(ledger, incidents, lo, hi))
    ensures Between(RowsFrom(ledger, incidents, lo, hi), lo * 10, hi * 10 + 4)
    decreases hi
  {
    if lo <= hi {
      RowsIncrease(ledger, incidents, lo, hi - 1);
      assert Between(RowIds(ledger, incidents, hi), hi * 10, hi * 10 + 4);
    }
  }

  lemma {:induction false} RowsSplit(ledger: seq<nat>, incidents: set<nat>, lo: nat, mid: nat, hi: nat)
    requires 1 <= lo <= mid + 1 && mid <= hi <= |ledger|
    ensures RowsFrom(ledger, incidents, lo, hi)
         == RowsFrom(ledger, incidents, lo, mid) + RowsFrom(ledger, incidents, mid + 1, hi)
    decreases hi
  {
    if mid < hi { RowsSplit(ledger, incidents, lo, mid, hi - 1); }
  }

  lemma {:induction false} RowsAppend(ledger: seq<nat>, more: seq<nat>, incidents: set<nat>, incidents': set<nat>,
                                      lo: nat, hi: nat)
    requires 1 <= lo && hi <= |ledger| && AllPresent(ledger, incidents) && AllPresent(ledger, incidents')
    ensures RowsFrom(ledger + more, incidents', lo, hi) == RowsFrom(ledger, incidents, lo, hi)
    decreases hi
  {
    if lo <= hi { RowsAppend(ledger, more, incidents, incidents', lo, hi - 1); }
  }

  // ---- one poll ---------------------------------------------------------------------------------

  lemma {:induction false} LaterRowsAreAbove(ledger: seq<nat>, incidents: set<nat>, cursor: nat, from: nat)
    requires 1 <= from <= |ledger| + 1 && cursor <= from * 10
    ensures Above(RowsFrom(ledger, incidents, from, |ledger|), cursor) == RowsFrom(ledger, incidents, from, |ledger|)
  {
    var rest := RowsFrom(ledger, incidents, from, |ledger|);
    RowsIncrease(ledger, incidents, from, |ledger|);
    if from <= |ledger| { AboveAll(rest, cursor, |ledger| * 10 + 4); }
  }

  lemma {:induction false} EarlierRowsAreNot(ledger: seq<nat>, incidents: set<nat>, cursor: nat, lo: nat, from: nat)
    requires 1 <= lo <= from <= |ledger| + 1 && (from == lo || (from - 1) * 10 + 4 <= cursor)
    ensures Above(RowsFrom(ledger, incidents, lo, from - 1), cursor) == []
  {
    if lo < from {
      RowsIncrease(ledger, incidents, lo, from - 1);
      AboveAtMost(RowsFrom(ledger, incidents, lo, from - 1), cursor);
    }
  }

  lemma FirstRowIs(cursor: nat)
    ensures var s := FirstRow(cursor);
            && cursor < s * 10 + 10 && s * 10 <= cursor + 10
            && (cursor % 10 != 0 ==> s == 1 || s * 10 <= cursor)
            && (cursor % 10 == 0 ==> s * 10 == cursor + 10)
  {
  }

  lemma LastRowIs(ledger: seq<nat>, cursor: nat, limit: nat)
    requires limit > 0 && FirstRow(cursor) <= |ledger|
    ensures FirstRow(cursor) <= LastRow(ledger, cursor, limit) && cursor <= (LastRow(ledger, cursor, limit) + 1) * 10
  {
    FirstRowIs(cursor);
  }

  /** A poll is the front of what is pending; what it leaves are all the later rows. */
  lemma {:induction false} PollIsFront(ledger: seq<nat>, incidents: set<nat>, cursor: nat, limit: nat)
    requires limit > 0
    ensures var rest := RowsFrom(ledger, incidents, LastRow(ledger, cursor, limit) + 1, |ledger|);
            && (FirstRow(cursor) <= |ledger| ==>
                  Pending(ledger, incidents, cursor) == Poll(ledger, incidents, cursor, limit) + rest)
            && (FirstRow(cursor) > |ledger| ==> Pending(ledger, incidents, cursor) == [])
  {
    var lo, hi := FirstRow(cursor), LastRow(ledger, cursor, limit);
    if lo <= |ledger| {
      LastRowIs(ledger, cursor, limit);
      RowsSplit(ledger, incidents, lo, hi, |ledger|);
      AboveConcat(RowsFrom(ledger, incidents, lo, hi), RowsFrom(ledger, incidents, hi + 1, |ledger|), cursor);
      LaterRowsAreAbove(ledger, incidents, cursor, hi + 1);
    }
  }

  lemma {:induction false} PendingIncreases(ledger: seq<nat>, incidents: set<nat>, cursor: nat)
    ensures Increasing(Pending(ledger, incidents, cursor))
    ensures forall i :: 0 <= i < |Pending(ledger, incidents, cursor)| ==>
              cursor < Pending(ledger, incidents, cursor)[i] <= |ledger| * 10 + 4
              && FirstRow(cursor) * 10 < Pending(ledger, incidents, cursor)[i]
  {
    var lo := FirstRow(cursor);
    var rows := RowsFrom(ledger, incidents, lo, |ledger|);
    if lo <= |ledger| {
      RowsIncrease(ledger, incidents, lo, |ledger|);
      AboveIncreasing(rows, cursor);
      AboveBetween(rows, cursor, lo * 10, |ledger| * 10 + 4);
    }
  }

  /** No id is round. */
  ghost predicate AllIds(ids: seq<nat>) {
    forall i :: 0 <= i < |ids| ==> 1 <= ids[i] % 10 <= 4
  }

  lemma {:induction false} RowIsIds(ledger: seq<nat>, incidents: set<nat>, s: nat)
    requires 1 <= s <= |ledger|
    ensures AllIds(RowIds(ledger, incidents, s))
  {
  }

  lemma {:induction false} RowsAreIds(ledger: seq<nat>, incidents: set<nat>, lo: nat, hi: nat)
    requires 1 <= lo && hi <= |ledger|
    ensures AllIds(RowsFrom(ledger, incidents, lo, hi))
    decreases hi
  {
    if lo <= hi {
      RowsAreIds(ledger, incidents, lo, hi - 1);
      RowIsIds(ledger, incidents, hi);
    }
  }

  lemma {:induction false} AboveAreIds(ids: seq<nat>, cursor: nat)
    requires AllIds(ids)
    ensures AllIds(Above(ids, cursor))
  {
    if ids != [] { AboveAreIds(ids[..|ids| - 1], cursor); }
  }

  lemma {:induction false} PendingAreIds(ledger: seq<nat>, incidents: set<nat>, cursor: nat)
    ensures AllIds(Pending(ledger, incidents, cursor))
  {
    RowsAreIds(ledger, incidents, FirstRow(cursor), |ledger|);
    AboveAreIds(RowsFrom(ledger, incidents, FirstRow(cursor), |ledger|), cursor);
  }

  lemma {:induction false} AboveIsPart(ids: seq<nat>, cursor: nat)
    ensures forall x :: x in Above(ids, cursor) <==> x in ids && x > cursor
  {
    if ids != [] { AboveIsPart(ids[..|ids| - 1], cursor); }
  }

  lemma {:induction false} RowsSplitAbove(ledger: seq<nat>, incidents: set<nat>, lo: nat, from: nat, cursor: nat)
    requires 1 <= lo <= from <= |ledger| + 1
    ensures Above(RowsFrom(ledger, incidents, lo, |ledger|), cursor)
         == Above(RowsFrom(ledger, incidents, lo, from - 1), cursor) + Above(RowsFrom(ledger, incidents, from, |ledger|), cursor)
  {
    RowsSplit(ledger, incidents, lo, from - 1, |ledger|);
    AboveConcat(RowsFrom(ledger, incidents, lo, from - 1), RowsFrom(ledger, incidents, from, |ledger|), cursor);
  }

  /** Rows before a cursor's own first row have no ids above it, unless the cursor is round. */
  lemma {:induction false} PassedRowsAreNot(ledger: seq<nat>, incidents: set<nat>, cursor: nat, lo: nat)
    requires 1 <= lo <= FirstRow(cursor) <= |ledger| + 1 && (cursor % 10 != 0 || cursor == 0)
    ensures Above(RowsFrom(ledger, incidents, lo, FirstRow(cursor) - 1), cursor) == []
  {
    FirstRowIs(cursor);
    EarlierRowsAreNot(ledger, incidents, cursor, lo, FirstRow(cursor));
  }

  lemma {:induction false} LaterRowsFollow(ledger: seq<nat>, incidents: set<nat>, lo: nat, from: nat, cursor: nat, id: nat)
    requires 1 <= lo <= from <= |ledger| + 1 && cursor <= id && (from == lo || (from - 1) * 10 + 4 <= id)
    ensures Above(RowsFrom(ledger, incidents, from, |ledger|), id)
         == Above(Above(RowsFrom(ledger, incidents, lo, |ledger|), cursor), id)
  {
    AboveTwice(RowsFrom(ledger, incidents, lo, |ledger|), cursor, id);
    RowsSplitAbove(ledger, incidents, lo, from, id);
    EarlierRowsAreNot(ledger, incidents, id, lo, from);
  }

  /** What is pending after an id that was pending before. */
  lemma {:induction false} PendingSplits(ledger: seq<nat>, incidents: set<nat>, cursor: nat, id: nat)
    requires cursor <= id && FirstRow(cursor) <= FirstRow(id) <= |ledger| && id % 10 != 0
    ensures Pending(ledger, incidents, id) == Above(Pending(ledger, incidents, cursor), id)
  {
    FirstRowIs(id);
    LaterRowsFollow(ledger, incidents, FirstRow(cursor), FirstRow(id), cursor, id);
  }

  /** Resuming from any id that was delivered, even in the middle of a row, gives what follows it. */
  lemma {:induction false} ResumeIsExact(ledger: seq<nat>, incidents: set<nat>, cursor: nat, k: nat)
    requires k < |Pending(ledger, incidents, cursor)|
    ensures var pending := Pending(ledger, incidents, cursor);
            Pending(ledger, incidents, pending[k]) == pending[k + 1..]
  {
    var pending := Pending(ledger, incidents, cursor);
    PendingIncreases(ledger, incidents, cursor);
    PendingAreIds(ledger, incidents, cursor);
    var id := pending[k];
    FirstRowIs(cursor);
    FirstRowIs(id);
    PendingSplits(ledger, incidents, cursor, id);
    AboveIsSuffix(pending, k);
  }

  lemma {:induction false} LastIdIsPolled(ledger: seq<nat>, incidents: set<nat>, cursor: nat, limit: nat)
    requires limit > 0 && FirstRow(cursor) <= |ledger| && AllPresent(ledger, incidents)
    ensures var hi := LastRow(ledger, cursor, limit);
            hi * 10 + 4 in Poll(ledger, incidents, cursor, limit) <==> hi * 10 + 4 > cursor
    ensures LastRow(ledger, cursor, limit) * 10 + 4 <= cursor ==> Poll(ledger, incidents, cursor, limit) == []
  {
    var lo, hi := FirstRow(cursor), LastRow(ledger, cursor, limit);
    var rows := RowsFrom(ledger, incidents, lo, hi);
    AboveIsPart(rows, cursor);
    assert RowIds(ledger, incidents, hi)[3] == hi * 10 + 4;
    assert rows[|rows| - 1] == hi * 10 + 4;
    if hi * 10 + 4 <= cursor { EarlierRowsAreNot(ledger, incidents, cursor, lo, hi + 1); }
  }

  /** With every incident present, a poll is empty exactly when nothing is pending or the limit is too small. */
  lemma {:induction false} EmptyPollIsExact(ledger: seq<nat>, incidents: set<nat>, cursor: nat, limit: nat)
    requires AllPresent(ledger, incidents)
    ensures Poll(ledger, incidents, cursor, limit) == [] <==>
            || Pending(ledger, incidents, cursor) == []
            || limit == 0
            || (limit == 1 && cursor >= 10 && cursor % 10 >= 4)
  {
    if limit > 0 && FirstRow(cursor) <= |ledger| {
      PollIsFront(ledger, incidents, cursor, limit);
      LastIdIsPolled(ledger, incidents, cursor, limit);
    }
  }

  /** A subscriber that asks for one row at a time never gets past the end of a row. */
  lemma {:induction false} StallsAtLimitOne(incident: nat)
    ensures var ledger, incidents := [incident, incident], {incident};
            Poll(ledger, incidents, 14, 1) == [] && Pending(ledger, incidents, 14) == [21, 22, 23, 24]
  {
    var ledger, incidents := [incident, incident], {incident};
    EmptyPollIsExact(ledger, incidents, 14, 1);
    PendingAfterFirstRow(ledger, incidents);
  }

  lemma {:induction false} PendingAfterFirstRow(ledger: seq<nat>, incidents: set<nat>)
    requires |ledger| == 2 && AllPresent(ledger, incidents)
    ensures Pending(ledger, incidents, 14) == [21, 22, 23, 24]
  {
    assert RowsFrom(ledger, incidents, 1, 1) == RowIds(ledger, incidents, 1) == [11, 12, 13, 14];
    assert RowsFrom(ledger, incidents, 1, 2) == [11, 12, 13, 14] + [21, 22, 23, 24];
    AboveConcat([11, 12, 13, 14], [21, 22, 23, 24], 14);
    AboveAtMost([11, 12, 13, 14], 14);
    AboveAll([21, 22, 23, 24], 14, 24);
  }

  lemma RowContains(ledger: seq<nat>, incidents: set<nat>, s: nat, x: nat)
    requires 1 <= s <= |ledger|
    ensures x in RowIds(ledger, incidents, s) <==> x / 10 == s && 1 <= x % 10 <= 4 && ledger[s - 1] in incidents
  {
  }

  lemma {:induction false} RowsContain(ledger: seq<nat>, incidents: set<nat>, lo: nat, hi: nat, x: nat)
    requires 1 <= lo && hi <= |ledger|
    ensures x in RowsFrom(ledger, incidents, lo, hi) <==>
              lo <= x / 10 <= hi && 1 <= x % 10 <= 4 && ledger[x / 10 - 1] in incidents
    decreases hi
  {
    if lo <= hi {
      RowsContain(ledger, incidents, lo, hi - 1, x);
      RowContains(ledger, incidents, hi, x);
    }
  }

  /**
   * What a poll delivers, id by id: the four ids of each present row numbered from the cursor's
   * row on, over as many rows as the limit allows, that lie above the cursor; in increasing order.
   */
  lemma {:induction false} PollIsExact(ledger: seq<nat>, incidents: set<nat>, cursor: nat, limit: nat, x: nat)
    ensures var row, first := x / 10, if cursor % 10 == 0 then cursor / 10 + 1 else if cursor < 10 then 1 else cursor / 10;
            x in Poll(ledger, incidents, cursor, limit) <==>
              && first <= row < first + limit && row <= |ledger| && 1 <= x % 10 <= 4
              && ledger[row - 1] in incidents && x > cursor
    ensures Increasing(Poll(ledger, incidents, cursor, limit))
  {
    var lo, hi := FirstRow(cursor), LastRow(ledger, cursor, limit);
    var rows := RowsFrom(ledger, incidents, lo, hi);
    AboveIsPart(rows, cursor);
    RowsContain(ledger, incidents, lo, hi, x);
    if lo <= hi { RowsIncrease(ledger, incidents, lo, hi); }
    AboveIncreasing(rows, cursor);
  }

  // ---- a subscription -----------------------------------------------------------------------------

  /** The ledger, and one connected subscriber: its cursor and what it was sent since connecting. */
  datatype World = World(ledger: seq<nat>, incidents: set<nat>, cursor: nat, sent: seq<nat>)

  datatype Event =
    /** `persist_decision` upserts the incident, then appends the row. */
    | Append(incident: nat)
    | PollFor(limit: nat)

  ghost function Next(w: World, e: Event): World {
    match e
    case Append(incident) => w.(ledger := w.ledger + [incident], incidents := w.incidents + {incident})
    case PollFor(limit) =>
      var deltas := Poll(w.ledger, w.incidents, w.cursor, limit);
      w.(sent := w.sent + deltas, cursor := if deltas == [] then w.cursor else deltas[|deltas| - 1])
  }

  /** Where a subscriber asking for what follows `after` starts: a snapshot moves it to the newest row. */
  function Connected(ledger: seq<nat>, after: nat): nat {
    if |ledger| * 10 > after then |ledger| * 10 else after
  }

  ghost predicate IsRun(run: seq<World>, events: seq<Event>) {
    && |run| == |events| + 1
    && AllPresent(run[0].ledger, run[0].incidents) && run[0].sent == []
    && forall k :: 0 <= k < |events| ==> run[k + 1] == Next(run[k], events[k])
  }

  /** What was sent and what is pending make up what was pending from the start on. */
  ghost predicate Delivers(start: nat, w: World) {
    && AllPresent(w.ledger, w.incidents)
    && w.sent + Pending(w.ledger, w.incidents, w.cursor) == Pending(w.ledger, w.incidents, start)
    && (w.sent == [] ==> w.cursor == start)
    && (w.sent != [] ==> w.cursor == w.sent[|w.sent| - 1])
  }

  /** A poll takes its deltas off the front of what is pending. */
  lemma {:induction false} PollAdvances(ledger: seq<nat>, incidents: set<nat>, cursor: nat, limit: nat)
    requires Poll(ledger, incidents, cursor, limit) != []
    ensures var deltas := Poll(ledger, incidents, cursor, limit);
            Pending(ledger, incidents, cursor) == deltas + Pending(ledger, incidents, deltas[|deltas| - 1])
  {
    var deltas, pending := Poll(ledger, incidents, cursor, limit), Pending(ledger, incidents, cursor);
    if limit > 0 && FirstRow(cursor) <= |ledger| {
      PollIsFront(ledger, incidents, cursor, limit);
      var n := |deltas|;
      assert pending[n - 1] == deltas[n - 1];
      ResumeIsExact(ledger, incidents, cursor, n - 1);
      assert pending == deltas + pending[n..];
    }
  }

  lemma {:induction false} PollDelivers(start: nat, w: World, limit: nat)
    requires Delivers(start, w)
    ensures Delivers(start, Next(w, PollFor(limit)))
  {
    var deltas := Poll(w.ledger, w.incidents, w.cursor, limit);
    if deltas != [] {
      PollAdvances(w.ledger, w.incidents, w.cursor, limit);
      var rest := Pending(w.ledger, w.incidents, deltas[|deltas| - 1]);
      assert w.sent + (deltas + rest) == w.sent + deltas + rest;
    }
  }

  lemma {:induction false} AppendGrows(ledger: seq<nat>, incidents: set<nat>, incident: nat, cursor: nat)
    requires AllPresent(ledger, incidents)
    ensures Pending(ledger + [incident], incidents + {incident}, cursor)
         == Pending(ledger, incidents, cursor)
            + (if FirstRow(cursor) <= |ledger| + 1
               then Above(RowIds(ledger + [incident], incidents + {incident}, |ledger| + 1), cursor) else [])
  {
    var more, all := ledger + [incident], incidents + {incident};
    RowsAppend(ledger, [incident], incidents, all, FirstRow(cursor), |ledger|);
    if FirstRow(cursor) <= |ledger| + 1 {
      AboveConcat(RowsFrom(more, all, FirstRow(cursor), |ledger|), RowIds(more, all, |ledger| + 1), cursor);
    }
  }

  /** What is pending, from the start or from the cursor, grows by the same row. */
  lemma {:induction false} AppendGrowsBoth(start: nat, w: World, incident: nat)
    requires Delivers(start, w) && w.sent != []
    ensures var more, all := w.ledger + [incident], w.incidents + {incident};
            && Pending(more, all, start) == Pending(w.ledger, w.incidents, start) + RowIds(more, all, |more|)
            && Pending(more, all, w.cursor) == Pending(w.ledger, w.incidents, w.cursor) + RowIds(more, all, |more|)
  {
    var more, all := w.ledger + [incident], w.incidents + {incident};
    SentIsInTheLedger(start, w);
    AppendGrows(w.ledger, w.incidents, incident, start);
    AppendGrows(w.ledger, w.incidents, incident, w.cursor);
    NewRowIsAbove(more, all, start);
    NewRowIsAbove(more, all, w.cursor);
  }

  lemma {:induction false} AppendDelivers(start: nat, w: World, incident: nat)
    requires Delivers(start, w)
    ensures Delivers(start, Next(w, Append(incident)))
  {
    var more, all := w.ledger + [incident], w.incidents + {incident};
    if w.sent == [] {
      assert [] + Pending(more, all, start) == Pending(more, all, start);
    } else {
      AppendGrowsBoth(start, w, incident);
      var rest, row := Pending(w.ledger, w.incidents, w.cursor), RowIds(more, all, |more|);
      assert w.sent + (rest + row) == (w.sent + rest) + row;
    }
  }

  lemma {:induction false} SentIsInTheLedger(start: nat, w: World)
    requires Delivers(start, w) && w.sent != []
    ensures start < w.cursor <= |w.ledger| * 10 + 4
    ensures FirstRow(start) <= |w.ledger| && FirstRow(w.cursor) <= |w.ledger|
  {
    var pending := Pending(w.ledger, w.incidents, start);
    PendingIncreases(w.ledger, w.incidents, start);
    PendingAreIds(w.ledger, w.incidents, start);
    assert w.cursor == pending[|w.sent| - 1];
    FirstRowIs(start);
    FirstRowIs(w.cursor);
  }

  lemma {:induction false} NewRowIsAbove(ledger: seq<nat>, incidents: set<nat>, cursor: nat)
    requires ledger != [] && cursor <= |ledger| * 10
    ensures Above(RowIds(ledger, incidents, |ledger|), cursor) == RowIds(ledger, incidents, |ledger|)
  {
    AboveAll(RowIds(ledger, incidents, |ledger|), cursor, |ledger| * 10 + 4);
  }

  /**
   * However polls and appends interleave: what a subscriber was sent is a front of what
   * its starting point left to send, in strictly increasing order without gap or repeat, and
   * a subscriber resuming from any id sent gets exactly the rest.
   */
  lemma {:induction false} StreamIsGapFree(run: seq<World>, events: seq<Event>, k: nat)
    requires IsRun(run, events) && k < |run|
    ensures Delivers(run[0].cursor, run[k]) && Increasing(run[k].sent)
    ensures forall i :: 0 <= i < |run[k].sent| ==>
              Pending(run[k].ledger, run[k].incidents, run[k].sent[i])
              == run[k].sent[i + 1..] + Pending(run[k].ledger, run[k].incidents, run[k].cursor)
  {
    var start, w := run[0].cursor, run[k];
    if k > 0 {
      StreamIsGapFree(run, events, k - 1);
      match events[k - 1]
      case Append(incident) => AppendDelivers(start, run[k - 1], incident);
      case PollFor(limit) => PollDelivers(start, run[k - 1], limit);
    } else {
      assert w.sent + Pending(w.ledger, w.incidents, w.cursor) == Pending(w.ledger, w.incidents, start);
    }
    SentResumes(start, w);
  }

  lemma {:induction false} SentResumes(start: nat, w: World)
    requires Delivers(start, w)
    ensures Increasing(w.sent)
    ensures forall i :: 0 <= i < |w.sent| ==>
              Pending(w.ledger, w.incidents, w.sent[i]) == w.sent[i + 1..] + Pending(w.ledger, w.incidents, w.cursor)
  {
    var all, rest := Pending(w.ledger, w.incidents, start), Pending(w.ledger, w.incidents, w.cursor);
    PendingIncreases(w.ledger, w.incidents, start);
    assert forall i :: 0 <= i < |w.sent| ==> w.sent[i] == all[i];
    forall i | 0 <= i < |w.sent| ensures Pending(w.ledger, w.incidents, w.sent[i]) == w.sent[i + 1..] + rest {
      ResumeIsExact(w.ledger, w.incidents, start, i);
      assert all[i + 1..] == w.sent[i + 1..] + rest;
    }
  }

  /** With a limit of two or more, a poll that sends nothing has nothing left to send. */
  lemma SilenceMeansCaughtUp(run: seq<World>, events: seq<Event>, k: nat, limit: nat)
    requires IsRun(run, events) && k < |run| && limit >= 2
    requires Poll(run[k].ledger, run[k].incidents, run[k].cursor, limit) == []
    ensures run[k].sent == Pending(run[k].ledger, run[k].incidents, run[0].cursor)
  {
    StreamIsGapFree(run, events, k);
    EmptyPollIsExact(run[k].ledger, run[k].incidents, run[k].cursor, limit);
  }

  /**
   * Which cursors leave nothing out: all ids above the cursor are pending, unless it is the
   * round number of a row in the ledger, which stands for having seen that row.
   */
  lemma {:induction false} RoundCursorsCoverTheirRow(ledger: seq<nat>, incidents: set<nat>, cursor: nat)
    requires AllPresent(ledger, incidents)
    ensures Pending(ledger, incidents, cursor) == Above(RowsFrom(ledger, incidents, 1, |ledger|), cursor)
       <==> cursor % 10 != 0 || cursor == 0 || cursor > |ledger| * 10
  {
    if FirstRow(cursor) > |ledger| + 1 {
      FirstRowIs(cursor);
      EarlierRowsAreNot(ledger, incidents, cursor, 1, |ledger| + 1);
    } else if cursor % 10 != 0 || cursor == 0 {
      RowsSplitAbove(ledger, incidents, 1, FirstRow(cursor), cursor);
      PassedRowsAreNot(ledger, incidents, cursor, 1);
    } else {
      RowsSplitAbove(ledger, incidents, 1, FirstRow(cursor), cursor);
      FirstRowIs(cursor);
      OwnRowIsAbove(ledger, incidents, cursor);
    }
  }

  lemma OwnRowIsAbove(ledger: seq<nat>, incidents: set<nat>, cursor: nat)
    requires AllPresent(ledger, incidents) && cursor % 10 == 0 && 10 <= cursor <= |ledger| * 10
    ensures Above(RowsFrom(ledger, incidents, 1, cursor / 10), cursor) != []
  {
    var s := cursor / 10;
    var rows := RowsFrom(ledger, incidents, 1, s);
    assert RowIds(ledger, incidents, s)[3] == cursor + 4;
    assert rows[|rows| - 1] == cursor + 4;
  }

  /** A snapshot leaves nothing pending: it stands for everything up to the newest row. */
  lemma SnapshotCatchesUp(ledger: seq<nat>, incidents: set<nat>, after: nat)
    requires after < |ledger| * 10
    ensures Pending(ledger, incidents, Connected(ledger, after)) == []
  {
  }
}
