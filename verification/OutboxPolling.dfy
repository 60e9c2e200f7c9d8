/**
 * One poll of the queue, row by row (src/outbox/worker.py, src/outbox/recovery.py): what is
 * coalesced, what is claimed, and what is dispatched.
 */
module OutboxPolling {
  import opened Basics
  import opened ChannelHealth
  import opened Routing
  import opened OutboxQueue
  import opened OutboxRuns
  import opened OutboxRecovery
  import Safety = OutboxSafety

  // ---- coalescing -----------------------------------------------------------------------------

  /** Pending for the same incident on the same channel. */
  predicate Together(rows: Rows, id: nat, other: nat)
    requires id in rows
  {
    && other in rows && rows[other].status.Pending?
    && rows[other].channel == rows[id].channel && rows[other].incident == rows[id].incident
  }

  ghost predicate IsNewest(rows: Rows, id: nat, newest: nat)
    requires id in rows
  {
    Together(rows, id, newest) && forall x: nat :: Together(rows, id, x) ==> x <= newest
  }

  /** The marker of the newest pending row of the incident that has one. */
  ghost predicate IsMarker(rows: Rows, id: nat, marker: Option<string>)
    requires id in rows
  {
    match marker
    case None => forall x: nat :: Together(rows, id, x) ==> rows[x].fallback.None?
    case Some(_) => exists x: nat :: IsLastMarked(rows, id, x) && rows[x].fallback == marker
  }

  ghost predicate IsLastMarked(rows: Rows, id: nat, x: nat)
    requires id in rows
  {
    Together(rows, id, x) && forall y: nat :: Together(rows, id, y) && x < y ==> rows[y].fallback.None?
  }

  /** One row once its channel is coalesced. */
  ghost predicate RowCoalesced(rows: Rows, id: nat, after: Row)
    requires id in rows
  {
    if !rows[id].status.Pending? then after == rows[id]
    else if IsNewest(rows, id, id) then
      IsMarker(rows, id, after.fallback) && after == rows[id].(fallback := after.fallback)
    else
      after.supersededBy.Some? && IsNewest(rows, id, after.supersededBy.value)
      && after == rows[id].(status := Superseded, supersededBy := after.supersededBy)
  }

  lemma MarkerIs(rows: Rows, id: nat)
    requires id in rows && rows[id].status.Pending?
    ensures IsMarker(rows, id, LatestMarker(rows, rows[id].channel, rows[id].incident))
  {
    var channel, incident := rows[id].channel, rows[id].incident;
    var marked := MarkedOf(rows, channel, incident);
    assert forall x: nat :: Together(rows, id, x) <==> x in PendingOf(rows, channel, incident);
    assert forall x: nat :: x in marked <==> Together(rows, id, x) && rows[x].fallback.Some?;
    if marked != {} { assert IsLastMarked(rows, id, MaxOf(marked)); }
  }

  lemma RowIsCoalesced(rows: Rows, channel: string, id: nat)
    requires id in rows
    ensures id in Coalesced(rows, channel)
    ensures if rows[id].channel == channel then RowCoalesced(rows, id, Coalesced(rows, channel)[id])
            else Coalesced(rows, channel)[id] == rows[id]
  {
    if rows[id].status.Pending? && rows[id].channel == channel {
      var incident := rows[id].incident;
      assert incident in Incidents(rows);
      assert forall x: nat :: Together(rows, id, x) <==> x in PendingOf(rows, channel, incident);
      assert id in PendingOf(rows, channel, incident);
      assert IsNewest(rows, id, MaxOf(PendingOf(rows, channel, incident)));
      MarkerIs(rows, id);
    }
  }

  /** Every row of these channels coalesced, all others as they were. */
  ghost predicate IsCoalesced(rows: Rows, after: Rows, channels: set<string>) {
    && after.Keys == rows.Keys
    && forall id :: id in rows ==>
         if rows[id].channel in channels then RowCoalesced(rows, id, after[id]) else after[id] == rows[id]
  }

  /** Coalescing one channel is what `_coalesce_pending` promises of it. */
  lemma CoalesceIsExact(rows: Rows, channel: string)
    ensures IsCoalesced(rows, Coalesced(rows, channel), {channel})
  {
    forall id | id in rows
      ensures if rows[id].channel == channel then RowCoalesced(rows, id, Coalesced(rows, channel)[id])
              else Coalesced(rows, channel)[id] == rows[id]
    {
      RowIsCoalesced(rows, channel, id);
    }
  }

  /** What a row is coalesced to depends on its channel's rows alone. */
  lemma SameChannelSameRow(rows: Rows, other: Rows, id: nat, after: Row)
    requires id in rows && other.Keys == rows.Keys && RowCoalesced(other, id, after)
    requires forall x :: x in rows ==>
               other[x].channel == rows[x].channel && (rows[x].channel == rows[id].channel ==> other[x] == rows[x])
    ensures RowCoalesced(rows, id, after)
  {
    assert forall x: nat :: Together(other, id, x) <==> Together(rows, id, x);
    if after.fallback.Some? && rows[id].status.Pending? && IsNewest(rows, id, id) {
      var x: nat :| IsLastMarked(other, id, x) && other[x].fallback == after.fallback;
      assert IsLastMarked(rows, id, x);
    }
  }

  function Named(channels: seq<string>): set<string> {
    set c | c in channels
  }

  lemma CoalesceMore(rows: Rows, mid: Rows, after: Rows, channel: string, channels: set<string>)
    requires IsCoalesced(rows, mid, {channel}) && IsCoalesced(mid, after, channels) && channel !in channels
    ensures IsCoalesced(rows, after, {channel} + channels)
  {
    assert forall x :: x in rows ==> mid[x].channel == rows[x].channel;
    forall id | id in rows
      ensures if rows[id].channel in {channel} + channels then RowCoalesced(rows, id, after[id]) else after[id] == rows[id]
    {
      if rows[id].channel in channels { SameChannelSameRow(rows, mid, id, after[id]); }
    }
  }

  lemma {:induction false} AllCoalesced(rows: Rows, channels: seq<string>)
    requires forall i, j :: 0 <= i < j < |channels| ==> channels[i] != channels[j]
    ensures IsCoalesced(rows, CoalescedAll(rows, channels), Named(channels))
    decreases |channels|
  {
    if channels != [] {
      var mid := Coalesced(rows, channels[0]);
      CoalesceIsExact(rows, channels[0]);
      AllCoalesced(mid, channels[1..]);
      CoalesceMore(rows, mid, CoalescedAll(rows, channels), channels[0], Named(channels[1..]));
      assert Named(channels) == {channels[0]} + Named(channels[1..]);
    }
  }

  // ---- claiming -----------------------------------------------------------------------------------

  /** Queued, due, on a channel that is up, and in nobody's hands. */
  predicate IsReady(row: Row, up: set<string>, now: int) {
    && row.status.Pending? && row.nextAttemptAt <= now && row.channel in up
    && (row.lease.Some? ==> row.lease.value.until <= now)
  }

  /** By priority, then by age. */
  predicate GoesFirst(rows: Rows, a: nat, b: nat)
    requires a in rows && b in rows
  {
    rows[a].priority < rows[b].priority || (rows[a].priority == rows[b].priority && a < b)
  }

  ghost function AheadOf(rows: Rows, ids: set<nat>, id: nat): set<nat>
    requires ids <= rows.Keys && id in rows
  {
    set x | x in ids && GoesFirst(rows, x, id)
  }

  /** Being among the first `limit` is having fewer than `limit` ahead. */
  lemma {:induction false} AmongTheFirst(rows: Rows, ids: set<nat>, limit: nat, id: nat)
    requires ids <= rows.Keys && id in rows
    ensures id in InOrder(rows, ids, limit) <==> id in ids && |AheadOf(rows, ids, id)| < limit
    decreases limit
  {
    if ids != {} && limit > 0 {
      var first := Foremost(rows, ids);
      AmongTheFirst(rows, ids - {first}, limit - 1, id);
      if id == first {
        assert AheadOf(rows, ids, id) == {};
      } else if id in ids {
        assert AheadOf(rows, ids, id) == AheadOf(rows, ids - {first}, id) + {first};
      }
    }
  }

  /** The first `limit` ready rows carry the lease; nothing else changes. */
  ghost predicate IsClaimed(rows: Rows, after: Rows, up: set<string>, now: int, lease: Lease, limit: nat) {
    && after.Keys == rows.Keys
    && forall id :: id in rows ==>
         var ahead := set x | x in rows && IsReady(rows[x], up, now) && GoesFirst(rows, x, id);
         after[id] == if IsReady(rows[id], up, now) && |ahead| < limit then rows[id].(lease := Some(lease)) else rows[id]
  }

  lemma ClaimIsExact(rows: Rows, up: set<string>, now: int, lease: Lease, limit: nat)
    ensures IsClaimed(rows, AfterClaim(rows, up, now, lease, limit), up, now, lease, limit)
  {
    var ready := Claimable(rows, up, now);
    forall id | id in rows
      ensures id in InOrder(rows, ready, limit) <==>
                IsReady(rows[id], up, now)
                && |set x | x in rows && IsReady(rows[x], up, now) && GoesFirst(rows, x, id)| < limit
    {
      AmongTheFirst(rows, ready, limit, id);
      assert AheadOf(rows, ready, id) == set x | x in rows && IsReady(rows[x], up, now) && GoesFirst(rows, x, id);
    }
  }

  // ---- the half-open allowance ----------------------------------------------------------------------

  ghost predicate InQueueOrder(rows: Rows, ids: seq<nat>) {
    && (forall id :: id in ids ==> id in rows)
    && forall i, j :: 0 <= i < j < |ids| ==> GoesFirst(rows, ids[i], ids[j])
  }

  /** The rows of a batch on one channel. */
  ghost function OnOne(rows: Rows, batch: seq<nat>, channel: string): set<nat> {
    set x | x in batch && x in rows && rows[x].channel == channel
  }

  lemma OnOneGrows(rows: Rows, init: seq<nat>, last: nat, channel: string)
    requires last in rows && last !in init
    ensures |OnOne(rows, init + [last], channel)|
         == |OnOne(rows, init, channel)| + if rows[last].channel == channel then 1 else 0
  {
    var before := OnOne(rows, init, channel);
    assert OnOne(rows, init + [last], channel) == before + if rows[last].channel == channel then {last} else {};
  }

  lemma LastIsNone(rows: Rows, batch: seq<nat>)
    requires batch != [] && InQueueOrder(rows, batch)
    ensures batch[|batch| - 1] !in batch[..|batch| - 1]
  {
  }

  lemma {:induction false} CountedOnce(rows: Rows, batch: seq<nat>, channel: string)
    requires InQueueOrder(rows, batch)
    ensures OnChannel(rows, batch, channel) == |OnOne(rows, batch, channel)|
    decreases |batch|
  {
    if batch != [] {
      var init, last := batch[..|batch| - 1], batch[|batch| - 1];
      CountedOnce(rows, init, channel);
      LastIsNone(rows, batch);
      OnOneGrows(rows, init, last, channel);
      assert batch == init + [last];
    }
  }

  /** Trimming a queue keeps, of each channel on trial, those with fewer than the allowance of their own ahead. */
  lemma {:induction false} TrimKeepsTheFirst(rows: Rows, batch: seq<nat>, halfOpen: set<string>, allowance: nat)
    requires InQueueOrder(rows, batch)
    ensures InQueueOrder(rows, Trimmed(rows, batch, halfOpen, allowance))
    ensures forall id :: id in Trimmed(rows, batch, halfOpen, allowance) <==>
              id in batch
              && (rows[id].channel in halfOpen ==>
                    |AheadOf(rows, OnOne(rows, batch, rows[id].channel), id)| < allowance)
    decreases |batch|
  {
    if batch != [] {
      var init, last := batch[..|batch| - 1], batch[|batch| - 1];
      assert batch == init + [last];
      TrimKeepsTheFirst(rows, init, halfOpen, allowance);
      var channel := rows[last].channel;
      CountedOnce(rows, init, channel);
      TrimRespectsIt(rows, init, halfOpen, allowance, channel);
      forall id | id in batch
        ensures AheadOf(rows, OnOne(rows, batch, rows[id].channel), id)
             == if id == last then OnOne(rows, init, channel) else AheadOf(rows, OnOne(rows, init, rows[id].channel), id)
      {
        LastGoesLast(rows, batch, id);
      }
    }
  }

  lemma LastGoesLast(rows: Rows, batch: seq<nat>, id: nat)
    requires batch != [] && InQueueOrder(rows, batch) && id in batch
    ensures var init, last := batch[..|batch| - 1], batch[|batch| - 1];
            AheadOf(rows, OnOne(rows, batch, rows[id].channel), id)
            == if id == last then OnOne(rows, init, rows[last].channel)
               else AheadOf(rows, OnOne(rows, init, rows[id].channel), id)
  {
    var init, last := batch[..|batch| - 1], batch[|batch| - 1];
    assert batch == init + [last];
    forall x | x in init ensures GoesFirst(rows, x, last) && !GoesFirst(rows, last, x) {
      var i :| 0 <= i < |init| && init[i] == x;
      assert GoesFirst(rows, batch[i], batch[|batch| - 1]);
    }
  }

  lemma TrimRespectsIt(rows: Rows, batch: seq<nat>, halfOpen: set<string>, allowance: nat, channel: string)
    requires forall id :: id in batch ==> id in rows
    ensures channel in halfOpen ==>
              (OnChannel(rows, Trimmed(rows, batch, halfOpen, allowance), channel) < allowance
               <==> OnChannel(rows, batch, channel) < allowance)
  {
    if channel in halfOpen { TrimRespectsAllowance(rows, batch, halfOpen, allowance, channel); }
  }

  // ---- the whole poll ---------------------------------------------------------------------------------

  /** Known, and not OPEN. */
  function Up(health: map<string, ChannelState>): set<string> {
    set c | c in {"slack", "pagerduty", "email"} && (c in health ==> !health[c].state.Open?)
  }

  /**
   * What a poll hands out: in queue order the pending rows that carry its lease, but of a
   * channel on trial only those with fewer than the allowance of their own ahead.
   */
  ghost predicate IsHandedOut(cfg: Config, health: map<string, ChannelState>, rows: Rows, lease: Lease, batch: seq<Claimed>) {
    && (forall i :: 0 <= i < |batch| ==>
          && batch[i].id in rows
          && batch[i] == Claimed(batch[i].id, rows[batch[i].id].channel, rows[batch[i].id].attempts))
    && (forall i, j :: 0 <= i < j < |batch| ==> GoesFirst(rows, batch[i].id, batch[j].id))
    && (forall id :: id in rows ==> (IsIn(batch, id) <==> IsDispatched(cfg, health, rows, lease, id)))
  }

  ghost predicate IsIn(batch: seq<Claimed>, id: nat) {
    exists i :: 0 <= i < |batch| && batch[i].id == id
  }

  ghost predicate IsDispatched(cfg: Config, health: map<string, ChannelState>, rows: Rows, lease: Lease, id: nat)
    requires id in rows
  {
    var channel := rows[id].channel;
    var ahead := set x | x in rows && rows[x].status.Pending? && rows[x].lease == Some(lease)
                         && rows[x].channel == channel && GoesFirst(rows, x, id);
    && rows[id].status.Pending? && rows[id].lease == Some(lease)
    && (channel in {"slack", "pagerduty", "email"} && channel in health && health[channel].state.HalfOpen? ==>
          |ahead| < cfg.halfOpenAllowance)
  }

  lemma BatchIsHeld(rows: Rows, lease: Lease)
    ensures InQueueOrder(rows, ClaimedBatch(rows, lease))
    ensures forall id :: id in ClaimedBatch(rows, lease) <==>
              id in rows && rows[id].status.Pending? && rows[id].lease == Some(lease)
  {
    var held := HeldBy(rows, lease);
    InOrderIsForemost(rows, held, |held|);
    forall id | id in rows ensures id in ClaimedBatch(rows, lease) <==> id in held {
      AmongTheFirst(rows, held, |held|, id);
      if id in held {
        assert AheadOf(rows, held, id) <= held - {id};
        Fewer(AheadOf(rows, held, id), held, id);
      }
    }
  }

  lemma Fewer(some: set<nat>, all: set<nat>, id: nat)
    requires some <= all && id in all && id !in some
    ensures |some| < |all|
  {
    assert all == some + (all - some);
    assert |all| == |some| + |all - some|;
    assert id in all - some;
  }

  lemma KeptIsDispatched(cfg: Config, db: Db, lease: Lease)
    ensures InQueueOrder(db.rows, PolledBatch(cfg, db, lease))
    ensures forall id :: id in db.rows ==>
              (id in PolledBatch(cfg, db, lease) <==> IsDispatched(cfg, db.health, db.rows, lease, id))
  {
    var claimed, halfOpen := ClaimedBatch(db.rows, lease), HalfOpenChannels(db.health);
    BatchIsHeld(db.rows, lease);
    TrimKeepsTheFirst(db.rows, claimed, halfOpen, cfg.halfOpenAllowance);
    forall id | id in db.rows
      ensures id in PolledBatch(cfg, db, lease) <==> IsDispatched(cfg, db.health, db.rows, lease, id)
    {
      OnTrial(db.health, db.rows[id].channel);
      assert AheadOf(db.rows, OnOne(db.rows, claimed, db.rows[id].channel), id)
          == set x | x in db.rows && db.rows[x].status.Pending? && db.rows[x].lease == Some(lease)
                     && db.rows[x].channel == db.rows[id].channel && GoesFirst(db.rows, x, id);
    }
  }

  lemma OnTrial(health: map<string, ChannelState>, c: string)
    ensures c in HalfOpenChannels(health) <==>
              c in {"slack", "pagerduty", "email"} && c in health && health[c].state.HalfOpen?
  {
  }

  lemma UpIsAvailable(health: map<string, ChannelState>)
    ensures AvailableChannels(health) == Up(health)
    ensures Named(SortedChannels(Up(health))) == Up(health)
    ensures forall i, j :: 0 <= i < j < |SortedChannels(Up(health))| ==>
              SortedChannels(Up(health))[i] != SortedChannels(Up(health))[j]
  {
    forall c ensures c in AvailableChannels(health) <==> c in Up(health) {}
  }

  lemma BatchIsHandedOut(cfg: Config, db: Db, lease: Lease)
    ensures IsHandedOut(cfg, db.health, db.rows, lease, ClaimedRows(db.rows, PolledBatch(cfg, db, lease)))
  {
    KeptIsDispatched(cfg, db, lease);
    var kept := PolledBatch(cfg, db, lease);
    var batch := ClaimedRows(db.rows, kept);
    forall id ensures IsIn(batch, id) <==> id in kept {
      if id in kept {
        var i :| 0 <= i < |kept| && kept[i] == id;
        assert batch[i].id == id;
      }
    }
  }

  /**
   * A poll, in one statement about the tables: where no channel is up nothing happens; else
   * every channel that is up is coalesced, the first ready rows are leased, as many as a batch
   * takes, and what the lease then holds is handed out within the allowances of the channels on
   * trial.
   */
  lemma PollIsExact(cfg: Config, w: World, now: int, lease: Lease) returns (collapsed: Rows)
    ensures Up(w.db.health) == {} ==> AfterPoll(cfg, w, now, lease) == w
    ensures Up(w.db.health) != {} ==>
              var after := AfterPoll(cfg, w, now, lease);
              && IsCoalesced(w.db.rows, collapsed, Up(w.db.health))
              && IsClaimed(collapsed, after.db.rows, Up(w.db.health), now, lease, cfg.batchSize)
              && after.db == w.db.(rows := after.db.rows)
              && after.phase.Draining?
              && IsHandedOut(cfg, w.db.health, after.db.rows, lease, after.phase.batch)
  {
    var up := Up(w.db.health);
    UpIsAvailable(w.db.health);
    collapsed := CoalescedAll(w.db.rows, SortedChannels(up));
    if up != {} {
      AllCoalesced(w.db.rows, SortedChannels(up));
      ClaimIsExact(collapsed, up, now, lease, cfg.batchSize);
      BatchIsHandedOut(cfg, w.db.(rows := AfterPoll(cfg, w, now, lease).db.rows), lease);
    }
  }
}
