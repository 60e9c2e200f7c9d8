/**
 * Deadlines over a run of alerts: what `process_event` computes, the writer schedules and
 * the timer worker polls (src/engine/process_event.py, src/db/writer.py,
 * src/engine/timer_worker.py).
 *
 * Time is the wall clock in milliseconds. It need not move forward from one event to the
 * next.
 */
module QuietDeadlines {
  import opened Basics
  import Ewma = AdaptiveEwma
  import Wheel = TimerWheel

  datatype Config = Config(maxWindow: real, span: int, sqrt: real -> real)

  /** `_bounded_deadline` of a live deadline. */
  function Bounded(quietAt: int, firstIngested: int, span: int, now: int): int {
    var ceiling := firstIngested + span;
    if firstIngested <= 0 || quietAt <= ceiling then quietAt
    else if ceiling < now + 1 then now + 1 else ceiling
  }

  /**
   * An incident as scheduling sees it: `armedAt` is when its last deadline was computed, and
   * `rearmed` whether that was at a repeat alert.
   */
  datatype Record = Record(firstIngested: int, gaps: seq<real>, armedAt: int, rearmed: bool)

  datatype World = World(records: map<Wheel.Id, Record>, deadlines: Wheel.Deadlines)

  datatype Event =
    /** An alert; `live` unless it leaves the incident RESOLVED, `stored` is the row's own timestamp. */
    | Alert(id: Wheel.Id, live: bool, now: int, stored: int, lastGap: real)
    | Poll(at: int)
    /** A restart rehydrates some of the deadlines and forgets the rest. */
    | Restart(kept: set<Wheel.Id>)

  ghost function LastGap(e: Event): real
    requires e.Alert?
  {
    if e.lastGap < 0.0 then 0.0 else e.lastGap
  }

  /** The deadline an alert computes, `None` if the engine refuses the settings. */
  ghost function NewDeadline(cfg: Config, w: World, e: Event): Option<int>
    requires e.Alert?
  {
    if e.id !in w.records then
      var p := Ewma.Predict([], 0.0, e.now, Some(cfg.maxWindow), cfg.sqrt);
      if p.None? then None else Some(p.value.quietAt)
    else
      var r := w.records[e.id];
      var p := Ewma.Predict(r.gaps, LastGap(e), e.now, Some(cfg.maxWindow), cfg.sqrt);
      if p.None? then None else Some(Bounded(p.value.quietAt, r.firstIngested, cfg.span, e.now))
  }

  ghost function AfterAlert(cfg: Config, w: World, e: Event): World
    requires e.Alert?
  {
    var known := e.id in w.records;
    var gaps := if known then w.records[e.id].gaps + [LastGap(e)] else [];
    if !e.live then
      w.(records := w.records[e.id := if known then w.records[e.id].(gaps := gaps) else Record(e.stored, gaps, e.now, false)])
    else
      var at := NewDeadline(cfg, w, e);
      if at.None? then w
      else World(w.records[e.id := Record(FirstIngested(w, e), gaps, e.now, known)], w.deadlines[e.id := at.value])
  }

  /** When the incident of an alert was first taken in. */
  ghost function FirstIngested(w: World, e: Event): int
    requires e.Alert?
  {
    if e.id in w.records then w.records[e.id].firstIngested else e.stored
  }

  ghost function Next(cfg: Config, w: World, e: Event): World {
    match e
    case Alert(_, _, _, _, _) => AfterAlert(cfg, w, e)
    case Poll(at) => w.(deadlines := Wheel.After(w.deadlines, at))
    case Restart(kept) => w.(deadlines := map id | id in w.deadlines && id in kept :: w.deadlines[id])
  }

  /** A row is stamped after its event was read, and the clock is past the epoch. */
  predicate Plausible(e: Event) {
    e.Alert? ==> 0 <= e.now <= e.stored
  }

  ghost predicate IsRun(cfg: Config, run: seq<World>, events: seq<Event>) {
    && |run| == |events| + 1
    && run[0] == World(map[], map[])
    && forall k :: 0 <= k < |events| ==> Plausible(events[k]) && run[k + 1] == Next(cfg, run[k], events[k])
  }

  /** The window of a first alert, which nothing bounds, fits in the budget. */
  predicate FirstWindowFits(cfg: Config) {
    Ewma.Least(Ewma.DEFAULT_INITIAL_WINDOW_MS, cfg.maxWindow) <= cfg.span as real
  }

  /** The end of an incident's budget, or one tick past `now` if that is later. */
  function Latest(firstIngested: int, span: int, now: int): int {
    if firstIngested + span < now + 1 then now + 1 else firstIngested + span
  }

  ghost predicate Inv(cfg: Config, w: World) {
    && (forall id :: id in w.deadlines ==> id in w.records)
    && (forall id :: id in w.deadlines && w.records[id].firstIngested > 0 && (w.records[id].rearmed || FirstWindowFits(cfg)) ==>
          w.deadlines[id] <= Latest(w.records[id].firstIngested, cfg.span, w.records[id].armedAt))
  }

  /**
   * A repeat alert's deadline: within what is left of the budget, and ahead of now unless
   * nothing is known of the cadence, the ceiling is below 1 ms and the budget has not run out.
   */
  lemma RepeatDeadlinesAreBounded(cfg: Config, w: World, e: Event)
    requires e.Alert? && e.id in w.records && Plausible(e) && NewDeadline(cfg, w, e).Some?
    ensures var at, r := NewDeadline(cfg, w, e).value, w.records[e.id];
            && (at > e.now <==> r.gaps != [] || cfg.maxWindow >= 1.0 || 0 < r.firstIngested < e.now - cfg.span)
            && (r.firstIngested > 0 ==> at <= Latest(r.firstIngested, cfg.span, e.now))
  {
    Ewma.PredictionIsAhead(w.records[e.id].gaps, LastGap(e), e.now, Some(cfg.maxWindow), cfg.sqrt);
  }

  /**
   * The budget only ever cuts a prediction short: a repeat alert's deadline is the predicted
   * one wherever that lies within the incident's budget or the incident has none, and else the
   * end of the budget, or one tick past now if that is later.
   */
  lemma RepeatDeadlinesFollowThePrediction(cfg: Config, w: World, e: Event)
    requires e.Alert? && e.id in w.records
    ensures var r := w.records[e.id];
            var p := Ewma.Predict(r.gaps, if e.lastGap < 0.0 then 0.0 else e.lastGap, e.now, Some(cfg.maxWindow), cfg.sqrt);
            && (NewDeadline(cfg, w, e).Some? <==> p.Some?)
            && (p.Some? ==>
                  var at, predicted, end := NewDeadline(cfg, w, e).value, p.value.quietAt, r.firstIngested + cfg.span;
                  var cut := if end > e.now then end else e.now + 1;
                  && (at == predicted <==> r.firstIngested <= 0 || predicted <= end || predicted == cut)
                  && (at == predicted || at == cut))
  {
  }

  /** What an alert leaves: its gap on record, and unless it resolves the incident a deadline. */
  lemma AlertsArmDeadlines(cfg: Config, w: World, e: Event)
    requires e.Alert? && NewDeadline(cfg, w, e).Some?
    ensures var after, known := Next(cfg, w, e), e.id in w.records;
            && after.records.Keys == w.records.Keys + {e.id}
            && (forall id :: id in w.records && id != e.id ==> after.records[id] == w.records[id])
            && after.records[e.id].gaps
               == (if known then w.records[e.id].gaps + [if e.lastGap < 0.0 then 0.0 else e.lastGap] else [])
            && after.records[e.id].firstIngested == (if known then w.records[e.id].firstIngested else e.stored)
            && after.deadlines == (if e.live then w.deadlines[e.id := NewDeadline(cfg, w, e).value] else w.deadlines)
  {
  }

  /** Apart from alerts, a deadline goes only by being announced in a poll or forgotten in a restart. */
  lemma DeadlinesPass(cfg: Config, w: World, e: Event, id: Wheel.Id)
    requires !e.Alert? && id in w.deadlines
    ensures var after := Next(cfg, w, e);
            && (id in after.deadlines <==> (e.Poll? && w.deadlines[id] > e.at) || (e.Restart? && id in e.kept))
            && (id in after.deadlines ==> after.deadlines[id] == w.deadlines[id])
            && after.deadlines.Keys <= w.deadlines.Keys && after.records == w.records
  {
  }

  /** A first alert's deadline: at most 5 s away, so within a budget its window fits in. */
  lemma FirstDeadlinesAreBounded(cfg: Config, w: World, e: Event)
    requires e.Alert? && e.id !in w.records && Plausible(e) && NewDeadline(cfg, w, e).Some?
    ensures var at := NewDeadline(cfg, w, e).value;
            && (at > e.now <==> cfg.maxWindow >= 1.0)
            && at <= e.now + 5000
            && (FirstWindowFits(cfg) ==> at <= Latest(e.stored, cfg.span, e.now))
  {
    Ewma.PredictionIsAhead([], 0.0, e.now, Some(cfg.maxWindow), cfg.sqrt);
  }

  lemma StepKeeps(cfg: Config, w: World, e: Event)
    requires Inv(cfg, w) && Plausible(e)
    ensures Inv(cfg, Next(cfg, w, e))
  {
    if e.Alert? && e.live && NewDeadline(cfg, w, e).Some? {
      if e.id in w.records { RepeatDeadlinesAreBounded(cfg, w, e); } else { FirstDeadlinesAreBounded(cfg, w, e); }
    }
  }

  lemma {:induction false} RunKeeps(cfg: Config, run: seq<World>, events: seq<Event>, k: nat)
    requires IsRun(cfg, run, events) && k < |run|
    ensures Inv(cfg, run[k])
  {
    if k > 0 {
      RunKeeps(cfg, run, events, k - 1);
      StepKeeps(cfg, run[k - 1], events[k - 1]);
    }
  }

  /**
   * However an incident keeps flapping, its notification is deferred only so far: a poll at
   * or after both the end of its budget and one tick past the alert that armed its deadline
   * announces it, if it is still scheduled.
   */
  lemma NoStormDefersItself(cfg: Config, run: seq<World>, events: seq<Event>, k: nat, id: Wheel.Id, at: int,
                            due: seq<Wheel.Trigger>)
    requires IsRun(cfg, run, events) && k < |run|
    requires id in run[k].deadlines && id in run[k].records && run[k].records[id].firstIngested > 0
    requires run[k].records[id].rearmed || FirstWindowFits(cfg)
    requires run[k].records[id].firstIngested + cfg.span <= at && run[k].records[id].armedAt + 1 <= at
    requires Wheel.IsDue(run[k].deadlines, at, due)
    ensures Wheel.Trigger(id, run[k].deadlines[id]) in due
    ensures id !in Wheel.After(run[k].deadlines, at)
  {
    RunKeeps(cfg, run, events, k);
  }

  /** When an incident was first taken in never moves, however many alerts follow. */
  lemma {:induction false} BudgetsStartOnce(cfg: Config, run: seq<World>, events: seq<Event>, j: nat, k: nat, id: Wheel.Id)
    requires IsRun(cfg, run, events) && j <= k < |run| && id in run[j].records
    ensures id in run[k].records && run[k].records[id].firstIngested == run[j].records[id].firstIngested
  {
    if j < k {
      BudgetsStartOnce(cfg, run, events, j, k - 1, id);
      assert run[k] == Next(cfg, run[k - 1], events[k - 1]);
    }
  }
}
