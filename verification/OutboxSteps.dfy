/**
 * The other steps of a run, table by table (src/outbox/worker.py,
 * src/graph/storm_grouping.py): settlements, recoveries, enqueues and redirects, and that an
 * outage declared is an outage failed over.
 */
module OutboxSteps {
  import opened Basics
  import opened ChannelHealth
  import opened Routing
  import opened OutboxQueue
  import opened OutboxRuns
  import opened OutboxSafety
  import opened OutboxTheorems
  import Breakers = OutboxBreakers
  import Leases = OutboxLeases
  import Polling = OutboxPolling

  // ---- settlements ----------------------------------------------------------------------------

  /** What the worker's answer for the row in hand settles it with, once the breaker has been told. */
  function SettlementOf(phase: Phase): Settlement
    requires phase.Accepted? || phase.Judged?
  {
    match phase
    case Accepted(_, ref, _) => Arrived(ref)
    case Judged(head, verdict, nextProbeAt, _, _) => Refused(head.attempts, verdict, nextProbeAt)
  }

  /** A row in hand is settled by its own answer, whatever was enqueued meanwhile; no other row changes. */
  lemma AnswersSettleTheirRow(cfg: Config, run: seq<World>, events: seq<Event>, k: nat)
    requires IsRun(cfg, run, events) && cfg.Sensible() && k < |events| && events[k].Commit?
    requires run[k].phase.Accepted? || run[k].phase.Judged?
    ensures run[k].phase.head.id in run[k].db.rows && run[k].db.rows[run[k].phase.head.id].status.Pending?
    ensures run[k].phase.head.attempts == run[k].db.rows[run[k].phase.head.id].attempts
    ensures run[k + 1].db
         == Settled(cfg, run[k].db, run[k].phase.head.id, SettlementOf(run[k].phase), events[k].now)
  {
    assert HandsOk(run[k]) by { RunKeeps(cfg, run, events, k); }
    assert HoldsPending(run[k].db.rows, InHand(run[k].phase)[0]);
    assert Took(cfg, run, events, k);
  }

  /** A row is put off to the probe its channel's breaker is waiting for. */
  lemma ParkedUntilTheProbe(cfg: Config, w: World, now: int)
    requires w.phase.Rejected?
    ensures var after := AfterCommit(cfg, w, now);
            && after.phase.Judged? && after.phase.head == w.phase.head && after.phase.verdict == w.phase.verdict
            && after.phase.nextProbeAt == StateOf(after.db.health, w.phase.head.channel).nextProbeAt
            && after.db.rows == w.db.rows
  {
  }

  /** The provider takes the row in hand. */
  ghost predicate AcceptsAt(w: World, e: Event) {
    w.phase.Draining? && w.phase.batch != [] && e.Hear? && e.answer.Accept?
  }

  lemma HeardAccepted(cfg: Config, w: World, e: Event)
    requires HandsOk(w) && AcceptsAt(w, e)
    ensures Next(cfg, w, e).phase == Accepted(w.phase.batch[0], e.answer.ref, w.phase.batch[1..])
  {
    assert HoldsPending(w.db.rows, InHand(w.phase)[0]);
  }

  lemma AcceptedStep(cfg: Config, w: World, e: Event)
    requires HandsOk(w) && w.phase.Accepted? && !e.Crash?
    ensures var after, id := Next(cfg, w, e), w.phase.head.id;
            after.phase == w.phase || (id in after.db.rows && after.db.rows[id].status.Sent?)
  {
    assert HoldsPending(w.db.rows, InHand(w.phase)[0]);
  }

  /** Unless the worker crashes in between, a row its provider accepted is marked sent, and stays so. */
  lemma {:induction false} AcceptedRowsAreSent(cfg: Config, run: seq<World>, events: seq<Event>, j: nat, k: nat)
    requires IsRun(cfg, run, events) && cfg.Sensible() && j < k < |run|
    requires AcceptsAt(run[j], events[j]) && forall i :: j < i < k ==> !events[i].Crash?
    ensures var batch := run[j].phase.batch;
            || run[k].phase == Accepted(batch[0], events[j].answer.ref, batch[1..])
            || (batch[0].id in run[k].db.rows && run[k].db.rows[batch[0].id].status.Sent?)
  {
    var id := run[j].phase.batch[0].id;
    assert Shape(run[k - 1].db) && HandsOk(run[k - 1]) by { RunKeeps(cfg, run, events, k - 1); }
    assert Took(cfg, run, events, k - 1);
    if k == j + 1 {
      HeardAccepted(cfg, run[j], events[j]);
    } else {
      AcceptedRowsAreSent(cfg, run, events, j, k - 1);
      if run[k - 1].phase.Accepted? { AcceptedStep(cfg, run[k - 1], events[k - 1]); }
      if id in run[k - 1].db.rows { OneStep(cfg, run[k - 1], events[k - 1], id); }
    }
  }

  /** The step at place `m` settles this row of the batch. */
  ghost predicate SettlesAt(run: seq<World>, events: seq<Event>, m: nat, row: Claimed)
    requires m < |events| && m < |run|
  {
    events[m].Commit? && (run[m].phase.Accepted? || run[m].phase.Judged?) && run[m].phase.head == row
  }

  /** A row leaves the worker's hands by being settled, or in a crash. */
  lemma HandsKeepRows(cfg: Config, w: World, e: Event, row: Claimed)
    requires HandsOk(w) && row in InHand(w.phase) && !e.Crash?
    ensures || row in InHand(Next(cfg, w, e).phase)
            || (e.Commit? && (w.phase.Accepted? || w.phase.Judged?) && w.phase.head == row)
  {
    if InHand(w.phase) != [] { assert HoldsPending(w.db.rows, InHand(w.phase)[0]); }
  }

  ghost predicate SettledBetween(run: seq<World>, events: seq<Event>, j: nat, k: nat, row: Claimed)
    requires j <= k <= |events| && |run| == |events| + 1
  {
    exists m: nat :: j <= m < k && SettlesAt(run, events, m, row)
  }

  /**
   * Unless the worker crashes, it goes on until every row it was handed is settled: none is
   * skipped, whatever became of those before it.
   */
  lemma {:induction false} EveryRowHandedOutIsSettled(cfg: Config, run: seq<World>, events: seq<Event>, j: nat, k: nat, row: Claimed)
    requires IsRun(cfg, run, events) && cfg.Sensible() && j <= k < |run|
    requires row in InHand(run[j].phase) && forall i :: j <= i < k ==> !events[i].Crash?
    ensures row in InHand(run[k].phase) || SettledBetween(run, events, j, k, row)
  {
    if j < k {
      EveryRowHandedOutIsSettled(cfg, run, events, j, k - 1, row);
      if row in InHand(run[k - 1].phase) {
        assert HandsOk(run[k - 1]) by { RunKeeps(cfg, run, events, k - 1); }
        assert Took(cfg, run, events, k - 1);
        HandsKeepRows(cfg, run[k - 1], events[k - 1], row);
        if row !in InHand(run[k].phase) { assert SettlesAt(run, events, k - 1, row); }
      } else {
        var m: nat :| j <= m < k - 1 && SettlesAt(run, events, m, row);
      }
    }
  }

  // ---- probes -----------------------------------------------------------------------------------

  ghost predicate ProbesAt(run: seq<World>, events: seq<Event>, m: nat, c: string)
    requires m < |events| && m < |run|
  {
    var told := Told(run[m], events[m], c);
    |told| == 1 && told[0].Probed?
  }

  ghost predicate ProbedBetween(run: seq<World>, events: seq<Event>, j: nat, k: nat, c: string)
    requires j <= k <= |events| && |run| == |events| + 1
  {
    exists m: nat :: j <= m < k && ProbesAt(run, events, m, c)
  }

  /** Unless the worker crashes, every channel found due is probed before it turns to the queue. */
  lemma {:induction false} EveryDueChannelIsProbed(cfg: Config, run: seq<World>, events: seq<Event>, j: nat, k: nat, c: string)
    requires IsRun(cfg, run, events) && j <= k < |run|
    requires run[j].phase.Probing? && c in run[j].phase.due && forall i :: j <= i < k ==> !events[i].Crash?
    ensures (run[k].phase.Probing? && c in run[k].phase.due) || ProbedBetween(run, events, j, k, c)
  {
    if j < k {
      EveryDueChannelIsProbed(cfg, run, events, j, k - 1, c);
      if run[k - 1].phase.Probing? && c in run[k - 1].phase.due {
        assert Took(cfg, run, events, k - 1);
        if !(run[k].phase.Probing? && c in run[k].phase.due) { assert ProbesAt(run, events, k - 1, c); }
      } else {
        var m: nat :| j <= m < k - 1 && ProbesAt(run, events, m, c);
      }
    }
  }

  // ---- an outage declared is failed over ------------------------------------------------------------

  /** The worker has yet to fail channel `c` over. */
  predicate Owes(phase: Phase, c: string) {
    || (phase.FailingOver? && phase.channel == c)
    || (phase.Judged? && phase.newlyDown && phase.verdict.kind.ChannelDown? && phase.head.channel == c)
  }

  /** The step at place `i` fails channel `c` over. */
  ghost predicate FailsOverAt(run: seq<World>, events: seq<Event>, i: nat, c: string)
    requires i < |events| && i + 1 < |run|
  {
    && run[i].phase.FailingOver? && run[i].phase.channel == c && events[i].Commit?
    && run[i + 1].db == FailOver(run[i].db, c, events[i].now)
  }

  lemma DeclaringOwes(cfg: Config, w: World, e: Event, c: string)
    requires BreakersAgree(cfg, w.db.health, w.db.outages) && Breakers.Declares(w, Next(cfg, w, e), c)
    ensures Owes(Next(cfg, w, e).phase, c)
  {
    Breakers.DeclaringStep(cfg, w, e, c);
  }

  lemma OwingStep(cfg: Config, w: World, e: Event, c: string)
    requires HandsOk(w) && Owes(w.phase, c) && !e.Crash?
    ensures var after := Next(cfg, w, e);
            || Owes(after.phase, c)
            || (w.phase.FailingOver? && w.phase.channel == c && e.Commit? && after.db == FailOver(w.db, c, e.now))
  {
    if w.phase.Judged? { assert HoldsPending(w.db.rows, InHand(w.phase)[0]); }
  }

  lemma RunOwingStep(cfg: Config, run: seq<World>, events: seq<Event>, k: nat, c: string)
    requires IsRun(cfg, run, events) && cfg.Sensible() && k < |events|
    requires Owes(run[k].phase, c) && !events[k].Crash?
    ensures Owes(run[k + 1].phase, c) || FailsOverAt(run, events, k, c)
  {
    assert HandsOk(run[k]) by { RunKeeps(cfg, run, events, k); }
    assert Took(cfg, run, events, k);
    OwingStep(cfg, run[k], events[k], c);
  }

  /**
   * Unless the worker crashes first, an outage declared is an outage failed over: whatever
   * happens after the declaration, the failover has run or is what the worker is about to do.
   */
  lemma {:induction false} OutagesAreFailedOver(cfg: Config, run: seq<World>, events: seq<Event>, j: nat, k: nat, c: string)
    requires IsRun(cfg, run, events) && cfg.Sensible() && j < k < |run|
    requires Breakers.Declares(run[j], run[j + 1], c)
    requires forall i :: j < i < k ==> !events[i].Crash?
    ensures Owes(run[k].phase, c) || exists i: nat :: j < i < k && FailsOverAt(run, events, i, c)
  {
    if k == j + 1 {
      assert BreakersAgree(cfg, run[j].db.health, run[j].db.outages) by { RunKeeps(cfg, run, events, j); }
      assert Took(cfg, run, events, j);
      DeclaringOwes(cfg, run[j], events[j], c);
    } else {
      OutagesAreFailedOver(cfg, run, events, j, k - 1, c);
      if Owes(run[k - 1].phase, c) { RunOwingStep(cfg, run, events, k - 1, c); }
    }
  }

  // ---- recoveries, enqueues and redirects -----------------------------------------------------------

  /** A row as it is first queued. */
  ghost predicate IsFresh(row: Row, incident: string, channel: string, action: Action, priority: int, now: int) {
    row == Row(incident, channel, action, None, Pending, 0, now, priority, None, None, None, channel, None)
  }

  /** An outage of the channel that has not recovered. */
  ghost predicate OnRecord(outages: seq<Outage>, channel: string) {
    exists i :: 0 <= i < |outages| && outages[i].channel == channel && outages[i].recoveredAt.None?
  }

  /**
   * A channel found healthy has its queue coalesced, and if an outage of it is on record the
   * digest goes to the front of the queue.
   */
  lemma BacklogIsExact(db: Db, channel: string, digest: Option<string>, now: int)
    requires forall id :: id in db.rows ==> id < db.nextId
    ensures var after := PrepareBacklog(db, channel, digest, now);
            var digested := digest.Some? && OnRecord(db.outages, channel);
            && after.health == db.health && after.outages == db.outages
            && Polling.IsCoalesced(db.rows, after.rows - (after.rows.Keys - db.rows.Keys), {channel})
            && (!digested ==> after.nextId == db.nextId && after.rows.Keys == db.rows.Keys)
            && (digested ==>
                  && after.nextId == db.nextId + 1 && after.rows.Keys == db.rows.Keys + {db.nextId}
                  && IsFresh(after.rows[db.nextId], digest.value, channel, Create, -1, now))
  {
    var after := PrepareBacklog(db, channel, digest, now);
    Polling.CoalesceIsExact(db.rows, channel);
    if OnRecord(db.outages, channel) {
      var i :| 0 <= i < |db.outages| && db.outages[i].channel == channel && db.outages[i].recoveredAt.None?;
      assert i in OpenOutages(db.outages, channel);
    }
    assert after.rows - (after.rows.Keys - db.rows.Keys) == Coalesced(db.rows, channel);
  }

  /** A channel probed healthy has its backlog prepared; one still down keeps its queue as it is. */
  lemma RecoveriesArePrepared(cfg: Config, w: World, healthy: bool, digest: Option<string>, now: int)
    requires w.phase.Probing? && w.phase.due != []
    ensures var after := Next(cfg, w, Probe(healthy, digest, now)).db;
            var prepared := if healthy then PrepareBacklog(w.db, w.phase.due[0], digest, now) else w.db;
            after.rows == prepared.rows && after.nextId == prepared.nextId
  {
  }

  /** An enqueue adds one row, due at once, and changes no other. */
  lemma EnqueueIsExact(cfg: Config, w: World, incident: string, channel: string, action: Action, priority: int, now: int)
    requires forall id :: id in w.db.rows ==> id < w.db.nextId
    ensures var after := Next(cfg, w, Enqueue(incident, channel, action, priority, now));
            && after == w.(db := w.db.(rows := after.db.rows, nextId := w.db.nextId + 1))
            && after.db.rows.Keys == w.db.rows.Keys + {w.db.nextId}
            && (forall id :: id in w.db.rows ==> after.db.rows[id] == w.db.rows[id])
            && IsFresh(after.db.rows[w.db.nextId], incident, channel, action, priority, now)
  {
  }

  predicate IsPostedFor(row: Row, incident: string) {
    row.incident == incident && row.channel == "slack" && row.status.Sent? && row.externalRef.Some?
  }

  /**
   * Redirecting a member's deliveries: what waits for it becomes an update of the anchor's card;
   * what was sent stays, and a card already posted to chat is told once more.
   */
  lemma RedirectIsExact(db: Db, member: string, anchor: string, now: int)
    requires forall id :: id in db.rows ==> id < db.nextId
    ensures var after := Redirected(db, member, anchor, now);
            var posted := exists id :: id in db.rows && IsPostedFor(db.rows[id], member);
            && after.health == db.health && after.outages == db.outages
            && (forall id :: id in db.rows ==>
                  && id in after.rows
                  && after.rows[id] == if db.rows[id].status.Pending? && db.rows[id].incident == member
                                       then db.rows[id].(incident := anchor, action := Update) else db.rows[id])
            && (!posted ==> after.nextId == db.nextId && after.rows.Keys == db.rows.Keys)
            && (posted ==>
                  && after.nextId == db.nextId + 1 && after.rows.Keys == db.rows.Keys + {db.nextId}
                  && IsFresh(after.rows[db.nextId], member, "slack", Update, 2, now))
  {
    assert AlreadyPosted(db.rows, member) <==> exists id :: id in db.rows && IsPostedFor(db.rows[id], member);
  }
}
