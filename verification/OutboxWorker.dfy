/**
 * The delivery worker's lock-held sections as the statements they run
 * (src/outbox/worker.py, src/outbox/recovery.py, src/outbox/channel_health.py).
 *
 * The fields are the tables. Each method is one section of the source and is proved to
 * take the tables where the corresponding function of `OutboxQueue` says; `OutboxRuns`
 * interleaves exactly those functions.
 */
module OutboxWorker {
  import opened Basics
  import opened ChannelHealth
  import opened Routing
  import opened OutboxQueue
  import Runs = OutboxRuns
  import Safety = OutboxSafety

  class Worker {
    const cfg: Config
    var rows: Rows
    var nextId: nat
    var health: map<string, ChannelState>
    var outages: seq<Outage>

    ghost function Tables(): Db
      reads this
    {
      Db(rows, nextId, health, outages)
    }

    constructor (cfg: Config)
      ensures this.cfg == cfg && Tables() == Db(map[], 0, map[], [])
    {
      this.cfg := cfg;
      rows, nextId, health, outages := map[], 0, map[], [];
    }

    // ---- channel health -----------------------------------------------------------------

    method FindOpenOutage(channel: string) returns (found: Option<nat>)
      ensures found == CurrentOutage(outages, channel)
    {
      var i := |outages|;
      while i > 0
        invariant 0 <= i <= |outages|
        invariant forall k: nat :: k in OpenOutages(outages, channel) ==> k < i
      {
        i := i - 1;
        if outages[i].channel == channel && outages[i].recoveredAt.None? {
          assert i in OpenOutages(outages, channel);
          return Some(i);
        }
      }
      assert OpenOutages(outages, channel) == {};
      found := None;
    }

    method RecordSuccess(channel: string, now: int) returns (recovered: bool)
      modifies this
      ensures Tables() == OutboxQueue.RecordSuccess(old(Tables()), channel, now)
      ensures recovered == !StateOf(old(health), channel).state.Closed?
    {
      var before := StateOf(health, channel);
      recovered := before.state.Open? || before.state.HalfOpen?;
      if recovered {
        var current := FindOpenOutage(channel);
        if current.Some? {
          outages := outages[current.value := outages[current.value].(recoveredAt := Some(now))];
        }
      }
      health := health[channel := ChannelState(Closed, 0, 0, None, None)];
    }

    method RecordFailure(channel: string, verdict: Verdict, now: int) returns (state: ChannelState, newlyDown: bool)
      modifies this
      ensures Tables() == OutboxQueue.RecordFailure(cfg, old(Tables()), channel, verdict, now)
      ensures state == StateOf(health, channel)
      ensures newlyDown == DeclaresOutage(cfg, StateOf(old(health), channel), verdict)
    {
      var before := StateOf(health, channel);
      newlyDown := false;
      if !verdict.kind.ChannelDown? {
        state := before;
      } else {
        var failures := before.failures + 1;
        if before.state.HalfOpen? {
          var step := before.step + 1;
          state := ChannelState(Open, failures, step, Some(before.openedAt.GetOr(now)),
                                Some(now + ProbeDelay(cfg, step)));
        } else if before.state.Open? || failures < cfg.failureThreshold {
          var step, nextProbe := before.step, before.nextProbeAt;
          if before.state.Open? {
            step := step + 1;
            nextProbe := Some(now + ProbeDelay(cfg, step));
          }
          state := ChannelState(before.state, failures, step, before.openedAt, nextProbe);
        } else {
          var delay := verdict.retryAfter.GetOr(0);
          if delay == 0 { delay := ProbeDelay(cfg, 0); }
          var depth := QueueDepth(channel);
          state := ChannelState(Open, failures, 0, Some(now), Some(now + delay));
          outages := outages + [Outage(channel, None, 0, depth, 0)];
          newlyDown := true;
        }
      }
      health := health[channel := state];
    }

    method QueueDepth(channel: string) returns (depth: nat)
      ensures depth == |PendingOn(rows, channel)|
    {
      var todo := rows.Keys;
      depth := 0;
      ghost var counted: set<nat> := {};
      while todo != {}
        invariant todo <= rows.Keys
        invariant counted == PendingOn(rows, channel) - todo && depth == |counted|
        decreases todo
      {
        var id :| id in todo;
        if rows[id].status.Pending? && rows[id].channel == channel {
          depth := depth + 1;
          counted := counted + {id};
        }
        todo := todo - {id};
      }
      assert counted == PendingOn(rows, channel);
    }

    method RecordProbeResult(channel: string, healthy: bool, now: int) returns (state: ChannelState)
      modifies this
      ensures Tables() == RecordProbe(cfg, old(Tables()), channel, healthy, now)
      ensures state == StateOf(health, channel)
    {
      var before := StateOf(health, channel);
      if healthy {
        state := ChannelState(HalfOpen, 0, before.step, before.openedAt, None);
      } else {
        var step := before.step + 1;
        state := ChannelState(Open, before.failures, step, Some(before.openedAt.GetOr(now)),
                              Some(now + ProbeDelay(cfg, step)));
        var current := FindOpenOutage(channel);
        if current.Some? {
          var o := outages[current.value];
          outages := outages[current.value := o.(probeAttempts := o.probeAttempts + 1)];
        }
      }
      health := health[channel := state];
    }

    // ---- coalescing -----------------------------------------------------------------------

    method MaxId(ids: set<nat>) returns (m: nat)
      requires ids != {}
      ensures m == MaxOf(ids)
    {
      m :| m in ids;
      var todo := ids - {m};
      while todo != {}
        invariant m in ids && todo <= ids
        invariant forall x :: x in ids && x !in todo ==> x <= m
        decreases todo
      {
        var x :| x in todo;
        if x > m { m := x; }
        todo := todo - {x};
      }
    }

    /** Supersede all but the newest pending row of one incident, carrying the marker forward. */
    method CoalesceGroup(channel: string, incident: string) returns (superseded: nat)
      requires PendingOf(rows, channel, incident) != {}
      modifies this`rows
      ensures GroupCoalesced(old(rows), rows, channel, incident)
      ensures superseded + |PendingOn(rows, channel)| == |PendingOn(old(rows), channel)|
    {
      var pending := PendingOf(rows, channel, incident);
      var winner := MaxId(pending);
      var table := rows;
      var marked := MarkedOf(rows, channel, incident);
      KeepsOwnMarker(rows, channel, incident);
      if marked != {} {
        var newest := MaxId(marked);
        table := table[winner := table[winner].(fallback := rows[newest].fallback)];
      }
      superseded := Supersede(table, pending - {winner}, winner);
      GroupShrinks(old(rows), rows, channel, incident);
    }

    /** `UPDATE outbox SET status = 'superseded', superseded_by = ?` of the older rows. */
    method Supersede(table: Rows, losers: set<nat>, winner: nat) returns (superseded: nat)
      modifies this`rows
      ensures rows == map id | id in table ::
                if id in losers then table[id].(status := Superseded, supersededBy := Some(winner)) else table[id]
      ensures superseded == |losers|
    {
      rows := map id | id in table ::
        if id in losers then table[id].(status := Superseded, supersededBy := Some(winner)) else table[id];
      superseded := |losers|;
    }

    method CoalescePending(channel: string) returns (superseded: nat)
      modifies this`rows
      ensures rows == Coalesced(old(rows), channel)
      ensures superseded + |PendingOn(rows, channel)| == |PendingOn(old(rows), channel)|
    {
      ghost var before := rows;
      var todo := Crowded(rows, channel);
      superseded := 0;
      CollapseStarts(rows, channel);
      while todo != {}
        invariant CollapsedSoFar(before, rows, channel, todo, superseded)
        decreases todo
      {
        var incident :| incident in todo;
        ghost var was := rows;
        CrowdedIsPending(before, channel, Crowded(before, channel) - todo, incident);
        var count := CoalesceGroup(channel, incident);
        CollapsedOneMore(before, was, rows, channel, todo, superseded, incident, count);
        superseded := superseded + count;
        todo := todo - {incident};
      }
      CollapsedAll(before, rows, channel, superseded);
    }

    /** `_prepare_backlog`; `digest` is the incident a digest would be about, if there is one to send. */
    method PrepareChannelBacklog(channel: string, digest: Option<string>, now: int) returns (superseded: nat)
      modifies this
      ensures Tables() == PrepareBacklog(old(Tables()), channel, digest, now)
      ensures superseded + |PendingOn(Coalesced(old(rows), channel), channel)| == |PendingOn(old(rows), channel)|
    {
      superseded := CoalescePending(channel);
      var current := FindOpenOutage(channel);
      if digest.Some? && current.Some? {
        rows := rows[nextId := NewRow(digest.value, channel, Create, now, -1)];
        nextId := nextId + 1;
      }
    }

    method First(ids: set<nat>) returns (first: nat)
      requires ids != {} && ids <= rows.Keys
      ensures first == Foremost(rows, ids)
    {
      first :| first in ids;
      var todo := ids - {first};
      while todo != {}
        invariant first in ids && todo <= ids
        invariant forall x :: x in ids && x !in todo ==> x == first || Before(rows, first, x)
        decreases todo
      {
        var x :| x in todo;
        if Before(rows, x, first) { first := x; }
        todo := todo - {x};
      }
    }

    /** `ORDER BY priority ASC, outbox_id ASC LIMIT limit`. */
    method Select(ids: set<nat>, limit: nat) returns (picked: seq<nat>)
      requires ids <= rows.Keys
      ensures picked == InOrder(rows, ids, limit)
    {
      picked := [];
      var todo, left := ids, limit;
      ghost var table := rows;
      while todo != {} && left > 0
        invariant todo <= ids && table == rows
        invariant picked + InOrder(table, todo, left) == InOrder(table, ids, limit)
        decreases left
      {
        var first := First(todo);
        InOrderUnfolds(table, todo, left);
        picked := picked + [first];
        todo, left := todo - {first}, left - 1;
      }
    }

    method Claim(available: set<string>, now: int, lease: Lease) returns (batch: seq<nat>)
      modifies this`rows
      ensures rows == AfterClaim(old(rows), available, now, lease, cfg.batchSize)
      ensures batch == ClaimedBatch(rows, lease)
    {
      var picked := Select(Claimable(rows, available, now), cfg.batchSize);
      rows := Leased(rows, (set id | id in picked), lease);
      var held := HeldBy(rows, lease);
      batch := Select(held, |held|);
    }

    /** A channel on trial gets a small allowance, not the whole backlog. */
    method Trim(batch: seq<nat>, halfOpen: set<string>) returns (trimmed: seq<nat>)
      requires forall id :: id in batch ==> id in rows
      ensures trimmed == Trimmed(rows, batch, halfOpen, cfg.halfOpenAllowance)
    {
      trimmed := [];
      var counts := map c | c in halfOpen :: 0;
      for k := 0 to |batch|
        invariant forall id :: id in batch[..k] ==> id in rows
        invariant trimmed == Trimmed(rows, batch[..k], halfOpen, cfg.halfOpenAllowance)
        invariant Counts(rows, trimmed, halfOpen, counts)
      {
        var id := batch[k];
        assert batch[..k + 1] == batch[..k] + [id];
        var channel := rows[id].channel;
        TrimOneMore(rows, batch[..k], id, halfOpen, cfg.halfOpenAllowance, counts);
        if channel in counts {
          if counts[channel] < cfg.halfOpenAllowance {
            counts := counts[channel := counts[channel] + 1];
            trimmed := trimmed + [id];
          }
        } else {
          trimmed := trimmed + [id];
        }
      }
      assert batch[..|batch|] == batch;
    }

    /** The lock-held half of `_poll_once`, followed by the half-open allowance. */
    method PollOnce(now: int, lease: Lease) returns (batch: seq<nat>)
      modifies this
      ensures AvailableChannels(old(health)) == {} ==> Tables() == old(Tables()) && batch == []
      ensures AvailableChannels(old(health)) != {} ==>
                && Tables() == old(Tables()).(rows := Runs.PolledRows(cfg, old(Tables()), now, lease))
                && batch == Runs.PolledBatch(cfg, Tables(), lease)
    {
      var available, halfOpen: set<string> := {}, {};
      for k := 0 to |KNOWN_CHANNELS|
        invariant Tables() == old(Tables())
        invariant available == set c | c in KNOWN_CHANNELS[..k] && StateOf(health, c).IsAvailable()
        invariant halfOpen == set c | c in KNOWN_CHANNELS[..k] && StateOf(health, c).state.HalfOpen?
      {
        var channel := KNOWN_CHANNELS[k];
        var state := StateOf(health, channel);
        if state.IsAvailable() { available := available + {channel}; }
        if state.state.HalfOpen? { halfOpen := halfOpen + {channel}; }
        assert KNOWN_CHANNELS[..k + 1] == KNOWN_CHANNELS[..k] + [channel];
      }
      assert KNOWN_CHANNELS[..|KNOWN_CHANNELS|] == KNOWN_CHANNELS;
      if available == {} { return []; }

      var channels := Runs.SortedChannels(available);
      ghost var before := rows;
      for k := 0 to |channels|
        invariant health == old(health) && outages == old(outages) && nextId == old(nextId)
        invariant CoalescedAll(rows, channels[k..]) == CoalescedAll(before, channels)
      {
        var collapsed := CoalescePending(channels[k]);
        assert channels[k..][0] == channels[k] && channels[k..][1..] == channels[k + 1..];
      }
      batch := Claim(available, now, lease);
      if halfOpen != {} { batch := Trim(batch, halfOpen); }
    }

    // ---- row transitions ------------------------------------------------------------------------

    method MarkSent(id: nat, ref: Option<string>)
      requires id in rows
      modifies this
      ensures Tables() == OutboxQueue.MarkSent(old(Tables()), id, ref)
    {
      var row := rows[id];
      rows := rows[id := row.(status := Sent, lease := None,
                              externalRef := if ref.Some? then ref else row.externalRef)];
    }

    /** What `_handle_failure` does to the row itself once the breaker has answered. */
    method SettleFailure(id: nat, attempts: nat, verdict: Verdict, nextProbeAt: Option<int>, now: int)
      requires id in rows
      modifies this
      ensures Tables() == Settled(cfg, old(Tables()), id, Refused(attempts, verdict, nextProbeAt), now)
    {
      var row := rows[id];
      if verdict.kind.MessageFatal? {
        row := row.(status := Dead);
      } else if verdict.kind.ChannelDown? {
        var retryAt := nextProbeAt.GetOr(now + 1000);
        row := row.(nextAttemptAt := retryAt);
      } else {
        var charged := attempts + 1;
        var delay := verdict.retryAfter.GetOr(0);
        if delay == 0 { delay := Backoff(charged); }
        row := row.(attempts := charged, nextAttemptAt := now + delay);
        row := row.(status := if charged >= cfg.maxAttempts then Dead else Pending);
      }
      rows := rows[id := row.(lease := None)];
    }

    // ---- failover -----------------------------------------------------------------------------------

    /** Queue a stand-in for one row read earlier, and mark the row as delivered through it. */
    method MoveRow(row: Row, id: nat, channel: string, available: set<string>, now: int) returns (rerouted: bool)
      requires id in rows
      modifies this
      ensures Tables() == MoveOne(old(Tables()), map[id := row], id, channel, available, now)
      ensures nextId == old(nextId) + if rerouted then 1 else 0
    {
      rerouted := false;
      if IsFailoverWorthy(row.priority) {
        var target := SelectFailover(channel, row.action, available);
        if target.Some? {
          rows := rows[nextId := StandIn(row, id, target.value, channel, now)];
          nextId := nextId + 1;
          rows := rows[id := rows[id].(fallback := Some(target.value.channel))];
          rerouted := true;
        }
      }
    }

    method MoveRows(ids: seq<nat>, channel: string, available: set<string>, now: int) returns (moved: nat)
      requires forall id :: id in ids ==> id in rows
      modifies this
      ensures Tables() == MovedUpTo(old(Tables()), ids, |ids|, channel, available, now)
      ensures moved == nextId - old(nextId)
    {
      var read := rows;
      ghost var before := Tables();
      moved := 0;
      for k := 0 to |ids|
        invariant forall id :: id in read ==> id in rows
        invariant Tables() == MovedUpTo(before, ids, k, channel, available, now)
        invariant nextId == before.nextId + moved
      {
        var rerouted := MoveRow(read[ids[k]], ids[k], channel, available, now);
        if rerouted { moved := moved + 1; }
      }
    }

    method MarkFailedOver(channel: string, count: nat)
      modifies this
      ensures Tables() == match CurrentOutage(old(outages), channel)
                case None => old(Tables())
                case Some(i) => old(Tables()).(outages := old(outages)[i := old(outages)[i].(
                                  failedOver := old(outages)[i].failedOver + count)])
    {
      var current := FindOpenOutage(channel);
      if current.Some? {
        var o := outages[current.value];
        outages := outages[current.value := o.(failedOver := o.failedOver + count)];
      }
    }

    /** The rows `_failover_pending` reads before moving any of them. */
    method ReadOriginals(channel: string) returns (ids: seq<nat>)
      ensures ids == FailOverQueue(rows, channel)
    {
      var waiting := set id | id in rows && rows[id].status.Pending? && rows[id].channel == channel
                       && rows[id].failoverOf.None?;
      assert waiting == Originals(rows, channel);
      ids := Select(waiting, |waiting|);
    }

    /** Re-route the urgent part of the channel's queue onto healthy fallbacks. */
    method FailoverPending(channel: string, now: int) returns (moved: nat)
      modifies this
      ensures Tables() == FailOver(old(Tables()), channel, now)
      ensures moved == nextId - old(nextId)
    {
      var available := set c | c in KNOWN_CHANNELS && c != channel && StateOf(health, c).IsAvailable();
      assert available == AvailableChannels(health) - {channel};
      if available == {} { return 0; }

      var ids := ReadOriginals(channel);
      ghost var before := Tables();
      moved := MoveRows(ids, channel, available, now);
      FailOverIs(before, Tables(), channel, available, now);
      if moved > 0 { MarkFailedOver(channel, moved); }
    }
  }

  /** `counts` holds how many rows of each channel on trial were kept. */
  ghost predicate Counts(rows: Rows, kept: seq<nat>, halfOpen: set<string>, counts: map<string, int>)
    requires forall id :: id in kept ==> id in rows
  {
    counts.Keys == halfOpen && forall c :: c in halfOpen ==> counts[c] == OnChannel(rows, kept, c)
  }

  lemma OnChannelOneMore(rows: Rows, kept: seq<nat>, id: nat, c: string)
    requires id in rows && forall x :: x in kept ==> x in rows
    ensures OnChannel(rows, kept + [id], c) == OnChannel(rows, kept, c) + if rows[id].channel == c then 1 else 0
  {
    assert (kept + [id])[..|kept|] == kept;
  }

  lemma TrimOneMore(rows: Rows, batch: seq<nat>, id: nat, halfOpen: set<string>, allowance: nat, counts: map<string, int>)
    requires id in rows && forall x :: x in batch ==> x in rows
    requires Counts(rows, Trimmed(rows, batch, halfOpen, allowance), halfOpen, counts)
    ensures var kept, channel := Trimmed(rows, batch, halfOpen, allowance), rows[id].channel;
            var more := Trimmed(rows, batch + [id], halfOpen, allowance);
            if channel in halfOpen && counts[channel] >= allowance then more == kept
            else
              && more == kept + [id]
              && Counts(rows, more, halfOpen, if channel in halfOpen then counts[channel := counts[channel] + 1] else counts)
  {
    var kept := Trimmed(rows, batch, halfOpen, allowance);
    assert (batch + [id])[..|batch|] == batch;
    forall c | c in halfOpen
      ensures OnChannel(rows, kept + [id], c) == OnChannel(rows, kept, c) + if rows[id].channel == c then 1 else 0
    {
      OnChannelOneMore(rows, kept, id, c);
    }
  }

  lemma InOrderUnfolds(rows: Rows, ids: set<nat>, limit: nat)
    requires ids != {} && ids <= rows.Keys && limit > 0
    ensures var first := Foremost(rows, ids);
            InOrder(rows, ids, limit) == [first] + InOrder(rows, ids - {first}, limit - 1)
  {
  }

  // ---- coalescing, group by group -------------------------------------------------------------

  /** `GROUP BY incident_id HAVING COUNT(*) > 1`. */
  function Crowded(rows: Rows, channel: string): set<string> {
    set id, other | id in rows && other in rows && id != other
      && rows[id].status.Pending? && rows[id].channel == channel
      && rows[other].status.Pending? && rows[other].channel == channel
      && rows[other].incident == rows[id].incident :: rows[id].incident
  }

  lemma CrowdedIsPending(before: Rows, channel: string, done: set<string>, incident: string)
    requires incident in Crowded(before, channel) && incident !in done
    ensures PendingOf(CoalescedFor(before, channel, done), channel, incident) != {}
  {
    var id, other :| id in before && other in before && id != other
      && before[id].status.Pending? && before[id].channel == channel
      && before[other].status.Pending? && before[other].channel == channel
      && before[other].incident == before[id].incident == incident;
    assert id in PendingOf(before, channel, incident);
    UntouchedGroup(before, channel, done, incident);
  }

  /** Where no row carries a marker, the newest row has none to keep. */
  lemma KeepsOwnMarker(rows: Rows, channel: string, incident: string)
    requires PendingOf(rows, channel, incident) != {}
    ensures MarkedOf(rows, channel, incident) == {} ==>
              rows[MaxOf(PendingOf(rows, channel, incident))].fallback == LatestMarker(rows, channel, incident)
  {
    var winner := MaxOf(PendingOf(rows, channel, incident));
    if rows[winner].fallback.Some? { assert winner in MarkedOf(rows, channel, incident); }
  }

  /** A group still to do reads as it did at the start. */
  lemma UntouchedGroup(before: Rows, channel: string, done: set<string>, incident: string)
    requires incident !in done
    ensures var rows := CoalescedFor(before, channel, done);
            && PendingOf(rows, channel, incident) == PendingOf(before, channel, incident)
            && (forall id :: id in PendingOf(before, channel, incident) ==> rows[id] == before[id])
            && MarkedOf(rows, channel, incident) == MarkedOf(before, channel, incident)
  {
    var rows := CoalescedFor(before, channel, done);
    forall id | id in before
      ensures id in PendingOf(rows, channel, incident) <==> id in PendingOf(before, channel, incident)
    {
      assert rows[id].incident == before[id].incident && rows[id].channel == before[id].channel;
    }
    assert PendingOf(rows, channel, incident) == PendingOf(before, channel, incident);
    assert MarkedOf(rows, channel, incident) == MarkedOf(before, channel, incident);
  }

  ghost predicate GroupCoalesced(was: Rows, rows: Rows, channel: string, incident: string)
    requires PendingOf(was, channel, incident) != {}
  {
    var pending := PendingOf(was, channel, incident);
    var winner := MaxOf(pending);
    && rows.Keys == was.Keys
    && (forall id :: id in was && id !in pending ==> rows[id] == was[id])
    && (forall id :: id in pending && id != winner ==>
          rows[id] == was[id].(status := Superseded, supersededBy := Some(winner)))
    && rows[winner] == was[winner].(fallback := LatestMarker(was, channel, incident))
  }

  /** The loop over groups with those in `todo` left. */
  ghost predicate CollapsedSoFar(before: Rows, rows: Rows, channel: string, todo: set<string>, superseded: nat) {
    && todo <= Crowded(before, channel)
    && rows == CoalescedFor(before, channel, Crowded(before, channel) - todo)
    && superseded + |PendingOn(rows, channel)| == |PendingOn(before, channel)|
  }

  lemma CollapseStarts(before: Rows, channel: string)
    ensures CollapsedSoFar(before, before, channel, Crowded(before, channel), 0)
  {
    assert CoalescedFor(before, channel, {}) == before;
    assert Crowded(before, channel) - Crowded(before, channel) == {};
  }

  lemma CollapsedOneMore(before: Rows, was: Rows, rows: Rows, channel: string, todo: set<string>, superseded: nat,
                         incident: string, count: nat)
    requires CollapsedSoFar(before, was, channel, todo, superseded) && incident in todo
    requires PendingOf(was, channel, incident) != {} && GroupCoalesced(was, rows, channel, incident)
    requires count + |PendingOn(rows, channel)| == |PendingOn(was, channel)|
    ensures CollapsedSoFar(before, rows, channel, todo - {incident}, superseded + count)
  {
    var groups := Crowded(before, channel);
    GroupDone(before, was, rows, channel, groups - todo, incident);
    assert groups - (todo - {incident}) == groups - todo + {incident};
  }

  lemma CollapsedAll(before: Rows, rows: Rows, channel: string, superseded: nat)
    requires CollapsedSoFar(before, rows, channel, {}, superseded)
    ensures rows == Coalesced(before, channel)
  {
    assert Crowded(before, channel) - {} == Crowded(before, channel);
    SingletonGroups(before, channel);
  }

  /** One round of the loop extends the coalesced part by one incident. */
  lemma GroupDone(before: Rows, was: Rows, rows: Rows, channel: string, done: set<string>, incident: string)
    requires was == CoalescedFor(before, channel, done) && incident !in done
    requires PendingOf(was, channel, incident) != {} && GroupCoalesced(was, rows, channel, incident)
    ensures rows == CoalescedFor(before, channel, done + {incident})
  {
    UntouchedGroup(before, channel, done, incident);
    var after := CoalescedFor(before, channel, done + {incident});
    var pending := PendingOf(was, channel, incident);
    forall id | id in rows ensures rows[id] == after[id] {
      if id in pending {
        assert before[id].incident == incident;
      } else {
        assert id !in PendingOf(before, channel, incident);
      }
    }
  }

  lemma GroupShrinks(was: Rows, rows: Rows, channel: string, incident: string)
    requires PendingOf(was, channel, incident) != {} && GroupCoalesced(was, rows, channel, incident)
    ensures |PendingOf(was, channel, incident)| - 1 + |PendingOn(rows, channel)| == |PendingOn(was, channel)|
  {
    var pending := PendingOf(was, channel, incident);
    var losers := pending - {MaxOf(pending)};
    assert PendingOn(was, channel) == PendingOn(rows, channel) + losers;
    assert PendingOn(rows, channel) !! losers;
  }

  lemma AloneUnlessCrowded(rows: Rows, channel: string, id: nat)
    requires id in PendingOn(rows, channel)
    ensures rows[id].incident in Crowded(rows, channel) || PendingOf(rows, channel, rows[id].incident) == {id}
  {
    var pending := PendingOf(rows, channel, rows[id].incident);
    assert id in pending;
    if other :| other in pending && other != id {
      assert rows[id].incident in Crowded(rows, channel);
    } else {
      assert pending == {id};
    }
  }

  /** An incident with a single pending row is already coalesced. */
  lemma SingletonGroups(before: Rows, channel: string)
    ensures CoalescedFor(before, channel, Crowded(before, channel)) == Coalesced(before, channel)
  {
    var groups := Crowded(before, channel);
    forall id | id in before
      ensures CoalescedRow(before, channel, groups, id) == CoalescedRow(before, channel, Incidents(before), id)
    {
      assert before[id].incident in Incidents(before);
      if id in PendingOn(before, channel) && before[id].incident !in groups {
        AloneUnlessCrowded(before, channel, id);
        KeepsOwnMarker(before, channel, before[id].incident);
        if before[id].fallback.Some? {
          assert MarkedOf(before, channel, before[id].incident) == {id};
        }
      }
    }
  }

  lemma FailOverIs(before: Db, moved: Db, channel: string, available: set<string>, now: int)
    requires available == AvailableChannels(before.health) - {channel} && available != {}
    requires moved == MovedUpTo(before, FailOverQueue(before.rows, channel),
                                |FailOverQueue(before.rows, channel)|, channel, available, now)
    ensures before.nextId <= moved.nextId
    ensures var count := moved.nextId - before.nextId;
            FailOver(before, channel, now) == match CurrentOutage(moved.outages, channel)
              case None => moved
              case Some(i) => moved.(outages := moved.outages[i := moved.outages[i].(
                                       failedOver := moved.outages[i].failedOver + count)])
    ensures moved.nextId == before.nextId ==> FailOver(before, channel, now) == moved
  {
    match CurrentOutage(moved.outages, channel)
    case None =>
    case Some(i) => assert moved.outages[i].(failedOver := moved.outages[i].failedOver + 0) == moved.outages[i];
  }
}
