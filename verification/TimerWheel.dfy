/**
 * The lazy-deletion deadline queue (src/engine/timer_wheel.py).
 *
 * The heap is the set of entries pushed and not yet popped, always read at its least; the
 * sequence number in an entry keeps entries apart and decides among equal deadlines.
 */
module TimerWheel {
  import opened Basics

  type Id = nat

  datatype Entry = Entry(at: int, sequence: nat, id: Id, generation: nat)

  datatype Trigger = Trigger(id: Id, at: int)

  // ---- what the wheel is, as a map from incident to deadline ----------------------------------

  type Deadlines = map<Id, int>

  function After(deadlines: Deadlines, now: int): Deadlines {
    map id | id in deadlines && deadlines[id] > now :: deadlines[id]
  }

  /** Exactly the deadlines due by `now`, each once, none before an earlier one. */
  ghost predicate IsDue(deadlines: Deadlines, now: int, due: seq<Trigger>) {
    && (forall k :: 0 <= k < |due| ==>
          due[k].id in deadlines && deadlines[due[k].id] == due[k].at <= now)
    && (forall j, k :: 0 <= j < k < |due| ==> due[j].id != due[k].id && due[j].at <= due[k].at)
    && (forall id :: id in deadlines && deadlines[id] <= now ==> Trigger(id, deadlines[id]) in due)
  }

  ghost predicate IsNext(deadlines: Deadlines, next: Option<int>) {
    if deadlines == map[] then next == None
    else
      && next.Some?
      && (exists id :: id in deadlines && deadlines[id] == next.value)
      && (forall id :: id in deadlines ==> next.value <= deadlines[id])
  }

  predicate Before(e: Entry, f: Entry) {
    e.at < f.at || (e.at == f.at && e.sequence < f.sequence)
  }

  type Active = map<Id, (int, nat)>

  function Live(active: Active): Deadlines {
    map id | id in active :: active[id].0
  }

  predicate Matches(e: Entry, active: Active) {
    e.id in active && active[e.id] == (e.at, e.generation)
  }

  ghost predicate HasEntry(heap: set<Entry>, active: Active, id: Id) {
    exists e :: e in heap && e.id == id && Matches(e, active)
  }

  /** Every live deadline has its entry; entries that match nothing live are stale. */
  ghost predicate Backed(heap: set<Entry>, active: Active) {
    forall id :: id in active ==> HasEntry(heap, active, id)
  }

  ghost predicate Numbered(heap: set<Entry>, next: nat) {
    && (forall e :: e in heap ==> e.sequence < next)
    && (forall e, f :: e in heap && f in heap && e.sequence == f.sequence ==> e == f)
  }

  lemma Rescheduled(heap: set<Entry>, active: Active, entry: Entry)
    requires Backed(heap, active)
    ensures Backed(heap + {entry}, active[entry.id := (entry.at, entry.generation)])
  {
    var after := active[entry.id := (entry.at, entry.generation)];
    forall id | id in after ensures HasEntry(heap + {entry}, after, id) {
      if id == entry.id {
        assert Matches(entry, after);
      } else {
        assert HasEntry(heap, active, id);
        var e :| e in heap && e.id == id && Matches(e, active);
        assert Matches(e, after);
      }
    }
  }

  lemma Cancelled(heap: set<Entry>, active: Active, id: Id)
    requires Backed(heap, active)
    ensures Backed(heap, active - {id})
  {
    forall other | other in active - {id} ensures HasEntry(heap, active - {id}, other) {
      assert HasEntry(heap, active, other);
      var e :| e in heap && e.id == other && Matches(e, active);
      assert Matches(e, active - {id});
    }
  }

  /** An entry that matches nothing live can go. */
  lemma StaleDropped(heap: set<Entry>, active: Active, stale: Entry)
    requires Backed(heap, active) && !Matches(stale, active)
    ensures Backed(heap - {stale}, active)
  {
    forall id | id in active ensures HasEntry(heap - {stale}, active, id) {
      assert HasEntry(heap, active, id);
      var e :| e in heap && e.id == id && Matches(e, active);
      assert e in heap - {stale};
    }
  }

  lemma LivePopped(heap: set<Entry>, active: Active, live: Entry)
    requires Backed(heap, active)
    ensures Backed(heap - {live}, active - {live.id})
  {
    Cancelled(heap, active, live.id);
    StaleDropped(heap, active - {live.id}, live);
  }

  lemma NoneEarlier(heap: set<Entry>, active: Active, at: int)
    requires Backed(heap, active) && forall e :: e in heap ==> at <= e.at
    ensures forall id :: id in active ==> at <= Live(active)[id]
  {
    forall id | id in active ensures at <= Live(active)[id] {
      assert HasEntry(heap, active, id);
    }
  }

  class Wheel {
    var heap: set<Entry>
    var active: Active
    var sequence: nat

    ghost predicate Valid()
      reads this
    {
      Backed(heap, active) && Numbered(heap, sequence)
    }

    ghost function Scheduled(): Deadlines
      reads this
    {
      Live(active)
    }

    constructor ()
      ensures Valid() && Scheduled() == map[]
    {
      heap, active, sequence := {}, map[], 0;
    }

    /** A negative deadline is the ValueError. */
    method Schedule(id: Id, at: int) returns (ok: bool)
      requires Valid()
      modifies this
      ensures Valid() && ok == (at >= 0)
      ensures Scheduled() == if at < 0 then old(Scheduled()) else old(Scheduled())[id := at]
    {
      if at < 0 { return false; }
      var generation := if id in active then active[id].1 + 1 else 1;
      var entry := Entry(at, sequence, id, generation);
      Rescheduled(heap, active, entry);
      active := active[id := (at, generation)];
      heap := heap + {entry};
      sequence := sequence + 1;
      ok := true;
    }

    method Cancel(id: Id) returns (was: bool)
      requires Valid()
      modifies this
      ensures Valid() && was == (id in old(Scheduled())) && Scheduled() == old(Scheduled()) - {id}
    {
      Cancelled(heap, active, id);
      was := id in active;
      active := active - {id};
    }

    method Least() returns (least: Entry)
      requires Valid() && heap != {}
      ensures least in heap && forall e :: e in heap ==> e == least || Before(least, e)
    {
      least :| least in heap;
      var todo := heap - {least};
      ghost var done := {least};
      while todo != {}
        invariant done + todo == heap && least in done
        invariant forall e | e in done :: e == least || Before(least, e)
        decreases todo
      {
        var e :| e in todo;
        if Before(e, least) { least := e; }
        todo, done := todo - {e}, done + {e};
      }
      assert done == heap;
    }

    /** One pop of the heap: a live deadline, or nothing when the entry was stale. */
    method PopFront(least: Entry) returns (popped: Option<Trigger>)
      requires Valid() && least in heap
      modifies this
      ensures Valid() && heap == old(heap) - {least}
      ensures match popped
              case None => Scheduled() == old(Scheduled())
              case Some(t) =>
                && t == Trigger(least.id, least.at)
                && t.id in old(Scheduled()) && old(Scheduled())[t.id] == t.at
                && Scheduled() == old(Scheduled()) - {t.id}
    {
      if Matches(least, active) {
        LivePopped(heap, active, least);
        assert Live(active - {least.id}) == Live(active) - {least.id};
        active := active - {least.id};
        popped := Some(Trigger(least.id, least.at));
      } else {
        StaleDropped(heap, active, least);
        popped := None;
      }
      heap := heap - {least};
    }

    method PopDue(now: int) returns (due: seq<Trigger>)
      requires Valid()
      modifies this
      ensures Valid() && Scheduled() == After(old(Scheduled()), now)
      ensures IsDue(old(Scheduled()), now, due)
    {
      due := [];
      ghost var were := Scheduled();
      while heap != {}
        invariant Valid() && Announced(were, Scheduled(), now, due)
        invariant forall k, e :: 0 <= k < |due| && e in heap ==> due[k].at <= e.at
        decreases heap
      {
        var least := Least();
        if least.at > now { break; }
        ghost var before := Scheduled();
        var popped := PopFront(least);
        if popped.Some? {
          AnnouncedOneMore(were, before, now, due, popped.value);
          due := due + [popped.value];
        }
      }
      NoneEarlier(heap, active, now + 1);
      AnnouncedAll(were, Scheduled(), now, due);
    }

    /** Drops stale entries at the front, and only those. */
    method NextDeadline() returns (next: Option<int>)
      requires Valid()
      modifies this`heap
      ensures Valid() && IsNext(Scheduled(), next)
    {
      while heap != {}
        invariant Valid()
        decreases heap
      {
        var least := Least();
        if Matches(least, active) {
          NoneEarlier(heap, active, least.at);
          assert Live(active)[least.id] == least.at;
          return Some(least.at);
        }
        StaleDropped(heap, active, least);
        heap := heap - {least};
      }
      assert forall id :: id in active ==> HasEntry(heap, active, id);
      assert active == map[];
      next := None;
    }

    method Len() returns (n: nat)
      ensures n == |Scheduled()|
    {
      assert Scheduled().Keys == active.Keys;
      n := |active|;
    }
  }

  // ---- what due lists are ---------------------------------------------------------------------

  ghost predicate Popped(due: seq<Trigger>, id: Id) {
    exists k :: 0 <= k < |due| && due[k].id == id
  }

  lemma PoppedOneMore(due: seq<Trigger>, t: Trigger, id: Id)
    ensures Popped(due + [t], id) <==> Popped(due, id) || t.id == id
  {
    if Popped(due, id) {
      var k :| 0 <= k < |due| && due[k].id == id;
      assert (due + [t])[k].id == id;
    }
    if t.id == id { assert (due + [t])[|due|].id == id; }
  }

  /** Halfway through a poll: `due` announced, `left` still scheduled. */
  ghost predicate Announced(were: Deadlines, left: Deadlines, now: int, due: seq<Trigger>) {
    && (forall id :: id in left <==> id in were && !Popped(due, id))
    && (forall id :: id in left ==> left[id] == were[id])
    && (forall k :: 0 <= k < |due| ==> due[k].id in were && were[due[k].id] == due[k].at <= now)
    && (forall j, k :: 0 <= j < k < |due| ==> due[j].id != due[k].id && due[j].at <= due[k].at)
  }

  lemma AnnouncedOneMore(were: Deadlines, left: Deadlines, now: int, due: seq<Trigger>, t: Trigger)
    requires Announced(were, left, now, due)
    requires t.id in left && left[t.id] == t.at <= now && forall k :: 0 <= k < |due| ==> due[k].at <= t.at
    ensures Announced(were, left - {t.id}, now, due + [t])
  {
    forall id ensures Popped(due + [t], id) <==> Popped(due, id) || t.id == id {
      PoppedOneMore(due, t, id);
    }
    assert !Popped(due, t.id);
  }

  lemma AnnouncedAll(were: Deadlines, left: Deadlines, now: int, due: seq<Trigger>)
    requires Announced(were, left, now, due) && forall id :: id in left ==> left[id] > now
    ensures IsDue(were, now, due) && left == After(were, now)
  {
    forall id | id in were && were[id] <= now ensures Trigger(id, were[id]) in due {
      assert Popped(due, id);
    }
    forall id | id in were && were[id] > now ensures id in left {
      assert !Popped(due, id);
    }
  }

  function DueIds(deadlines: Deadlines, now: int): set<Id> {
    set id | id in deadlines && deadlines[id] <= now
  }

  lemma DueIsAnnounced(deadlines: Deadlines, now: int, due: seq<Trigger>, id: Id)
    requires IsDue(deadlines, now, due) && id in DueIds(deadlines, now)
    ensures |due| > 0
  {
    assert Trigger(id, deadlines[id]) in due;
  }

  /** Its length is the number of deadlines due: none is announced twice. */
  lemma {:induction false} DueIsCounted(deadlines: Deadlines, now: int, due: seq<Trigger>)
    requires IsDue(deadlines, now, due)
    ensures |due| == |DueIds(deadlines, now)|
    decreases |due|
  {
    if due == [] {
      if DueIds(deadlines, now) != {} {
        var id :| id in DueIds(deadlines, now);
        DueIsAnnounced(deadlines, now, due, id);
      }
    } else {
      var last, init := due[|due| - 1], due[..|due| - 1];
      var fewer := deadlines - {last.id};
      forall id | id in fewer && fewer[id] <= now ensures Trigger(id, fewer[id]) in init {
        var k :| 0 <= k < |due| && due[k] == Trigger(id, deadlines[id]);
        assert init[k] == due[k];
      }
      DueIsCounted(fewer, now, init);
      assert DueIds(fewer, now) == DueIds(deadlines, now) - {last.id};
    }
  }

  /** Every deadline is announced or still there, never both and never neither. */
  lemma NothingIsLost(deadlines: Deadlines, now: int, due: seq<Trigger>, id: Id)
    requires IsDue(deadlines, now, due) && id in deadlines
    ensures id in After(deadlines, now) <==> Trigger(id, deadlines[id]) !in due
    ensures id in After(deadlines, now) ==> After(deadlines, now)[id] == deadlines[id] > now
  {
  }

  /**
   * Two polls instead of one announce the same deadlines in an order one poll may use:
   * polling more often changes nothing but when.
   */
  lemma PollsCompose(deadlines: Deadlines, now: int, later: int, first: seq<Trigger>, second: seq<Trigger>)
    requires now <= later && IsDue(deadlines, now, first) && IsDue(After(deadlines, now), later, second)
    ensures IsDue(deadlines, later, first + second)
    ensures After(After(deadlines, now), later) == After(deadlines, later)
  {
    var both := first + second;
    forall id | id in deadlines && deadlines[id] <= later ensures Trigger(id, deadlines[id]) in both {
      if deadlines[id] > now { assert Trigger(id, After(deadlines, now)[id]) in second; }
    }
  }
}
