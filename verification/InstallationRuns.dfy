/** Webhooks in any order, interleaved with two-phase syncs and snapshots. */
module InstallationRuns {
  import opened Basics
  import opened InstallationState

  datatype Event =
    | Hook(h: Webhook)
    /** Commit of a sync that read its installation in an earlier state of the run. */
    | Sync(installation: nat, readAt: nat, ids: seq<nat>)
    /** Commit of a snapshot that read which installation a repository is in earlier. */
    | Snapshot(repository: nat, readAt: nat)

  /** What the first phase requires of the state it reads. */
  ghost predicate Plausible(run: seq<Store>, k: nat, e: Event)
    requires k < |run|
  {
    match e
    case Hook(_) => true
    case Sync(installation, readAt, _) => readAt <= k && IsActive(run[readAt], installation)
    case Snapshot(repository, readAt) => readAt <= k && ActiveSelected(run[readAt], repository)
  }

  ghost function Next(run: seq<Store>, k: nat, e: Event): Store
    requires k < |run| && Plausible(run, k, e)
  {
    match e
    case Hook(h) => Received(run[k], h)
    case Sync(installation, readAt, ids) =>
      Synced(run[k], installation, Revision(run[readAt], installation), ids).GetOr(run[k])
    case Snapshot(repository, readAt) =>
      Snapshotted(run[k], repository, run[readAt].repositories[repository].installation).GetOr(run[k])
  }

  ghost predicate IsRun(run: seq<Store>, events: seq<Event>) {
    && |run| == |events| + 1 && OnlyActiveSelect(run[0])
    && forall k :: 0 <= k < |events| ==> Plausible(run, k, events[k]) && run[k + 1] == Next(run, k, events[k])
  }

  /** Whether the step from place `k` applied a webhook to the installation. */
  ghost predicate AppliedAt(run: seq<Store>, events: seq<Event>, k: nat, installation: nat)
    requires k < |events| && k < |run|
  {
    var e := events[k];
    e.Hook? && e.h.installation == installation && TakesEffect(run[k], e.h)
  }

  ghost function AppliedBetween(run: seq<Store>, events: seq<Event>, j: nat, k: nat, installation: nat): nat
    requires j <= k < |run| && |run| == |events| + 1
    decreases k
  {
    if j == k then 0
    else AppliedBetween(run, events, j, k - 1, installation) + if AppliedAt(run, events, k - 1, installation) then 1 else 0
  }

  lemma StepInstallations(run: seq<Store>, events: seq<Event>, k: nat, installation: nat)
    requires IsRun(run, events) && k < |events|
    ensures AppliedAt(run, events, k, installation) ==>
              && installation in run[k + 1].installations
              && Revision(run[k + 1], installation) == Revision(run[k], installation) + 1
              && run[k + 1].installations[installation].version == Some(VersionOf(events[k].h))
              && run[k + 1].installations[installation].status == StatusOf(events[k].h)
              && (installation in run[k].installations && run[k].installations[installation].version.Some? ==>
                    Newer(VersionOf(events[k].h), run[k].installations[installation].version.value))
    ensures !AppliedAt(run, events, k, installation) ==>
              && (installation in run[k + 1].installations <==> installation in run[k].installations)
              && (installation in run[k].installations ==>
                    run[k + 1].installations[installation] == run[k].installations[installation])
  {
    if events[k].Hook? { WebhooksAreVersioned(run[k], events[k].h); }
  }

  /** Whatever the delivery order, only an active installation ever has a selected repository. */
  lemma {:induction false} NoAccessWithoutActive(run: seq<Store>, events: seq<Event>, k: nat)
    requires IsRun(run, events) && k < |run|
    ensures OnlyActiveSelect(run[k])
  {
    if k > 0 {
      NoAccessWithoutActive(run, events, k - 1);
      var s, e := run[k - 1], events[k - 1];
      match e
      case Hook(h) => ReceivedKeeps(s, h);
      case Sync(installation, readAt, ids) =>
        var expected := Revision(run[readAt], installation);
        if Synced(s, installation, expected, ids).Some? { SyncedKeeps(s, installation, expected, ids); }
      case Snapshot(repository, readAt) =>
        var installation := run[readAt].repositories[repository].installation;
        if Snapshotted(s, repository, installation).Some? { SnapshottedKeeps(s, repository, installation); }
    }
  }

  /** The revision counts the webhooks applied to the installation. */
  lemma {:induction false} RevisionsCount(run: seq<Store>, events: seq<Event>, j: nat, k: nat, installation: nat)
    requires IsRun(run, events) && j <= k < |run|
    ensures Revision(run[k], installation)
         == Revision(run[j], installation) + AppliedBetween(run, events, j, k, installation)
    ensures installation in run[j].installations ==> installation in run[k].installations
  {
    if j < k {
      RevisionsCount(run, events, j, k - 1, installation);
      StepInstallations(run, events, k - 1, installation);
    }
  }

  function VersionAt(s: Store, installation: nat): Option<Version> {
    match Find(s, installation)
    case None => None
    case Some(i) => i.version
  }

  lemma NewerThrough(u: Version, v: Version, w: Version)
    requires Newer(u, v) && (Newer(v, w) || v == w)
    ensures Newer(u, w)
  {
  }

  /** Versions only rise, and strictly with every webhook applied. */
  lemma {:induction false} VersionsRise(run: seq<Store>, events: seq<Event>, j: nat, k: nat, installation: nat)
    requires IsRun(run, events) && j <= k < |run| && VersionAt(run[j], installation).Some?
    ensures VersionAt(run[k], installation).Some?
    ensures var v, w := VersionAt(run[j], installation).value, VersionAt(run[k], installation).value;
            if AppliedBetween(run, events, j, k, installation) == 0 then v == w else Newer(w, v)
  {
    if j < k {
      VersionsRise(run, events, j, k - 1, installation);
      StepInstallations(run, events, k - 1, installation);
      if AppliedAt(run, events, k - 1, installation) {
        NewerThrough(VersionAt(run[k], installation).value, VersionAt(run[k - 1], installation).value,
                     VersionAt(run[j], installation).value);
      }
    }
  }

  /** A sync commits exactly if its installation is active and no webhook was applied to it since it was read. */
  lemma SyncCommitsIfUndisturbed(run: seq<Store>, events: seq<Event>, k: nat)
    requires IsRun(run, events) && k < |events| && events[k].Sync?
    ensures var e := events[k];
            Synced(run[k], e.installation, Revision(run[e.readAt], e.installation), e.ids).Some?
            <==> AppliedBetween(run, events, e.readAt, k, e.installation) == 0
  {
    var e := events[k];
    RevisionsCount(run, events, e.readAt, k, e.installation);
    if AppliedBetween(run, events, e.readAt, k, e.installation) == 0 {
      Undisturbed(run, events, e.readAt, k, e.installation);
    }
  }

  lemma {:induction false} Undisturbed(run: seq<Store>, events: seq<Event>, j: nat, k: nat, installation: nat)
    requires IsRun(run, events) && j <= k < |run| && installation in run[j].installations
    requires AppliedBetween(run, events, j, k, installation) == 0
    ensures installation in run[k].installations && run[k].installations[installation] == run[j].installations[installation]
  {
    if j < k {
      Undisturbed(run, events, j, k - 1, installation);
      StepInstallations(run, events, k - 1, installation);
    }
  }

  /** Nothing brings a deleted installation back. */
  lemma {:induction false} DeletedStaysDeleted(run: seq<Store>, events: seq<Event>, j: nat, k: nat, installation: nat)
    requires IsRun(run, events) && j <= k < |run|
    requires installation in run[j].installations && run[j].installations[installation].status.DELETED?
    ensures installation in run[k].installations && run[k].installations[installation].status.DELETED?
    ensures forall r :: r in run[k].repositories && run[k].repositories[r].selected ==>
              run[k].repositories[r].installation != installation
  {
    NoAccessWithoutActive(run, events, k);
    if j < k {
      DeletedStaysDeleted(run, events, j, k - 1, installation);
      StepInstallations(run, events, k - 1, installation);
    }
  }

  /** A suspended installation changes only through a newer suspend, unsuspend or deleted webhook. */
  lemma SuspensionsEndExplicitly(run: seq<Store>, events: seq<Event>, k: nat, installation: nat)
    requires IsRun(run, events) && k < |events|
    requires installation in run[k].installations && run[k].installations[installation].status.SUSPENDED?
    requires Find(run[k + 1], installation) != Find(run[k], installation)
    ensures events[k].Hook? && events[k].h.installation == installation
    ensures events[k].h.action in {Suspend, Unsuspend, Action.Deleted}
    ensures run[k].installations[installation].version.Some? ==>
              Newer(VersionOf(events[k].h), run[k].installations[installation].version.value)
  {
    StepInstallations(run, events, k, installation);
  }

  /** The action is one that may lift a suspension. */
  predicate MayLift(e: Event, installation: nat) {
    e.Hook? && e.h.installation == installation && e.h.action in {Suspend, Unsuspend, Action.Deleted}
  }

  /**
   * Once a webhook that reports the installation suspended took effect, the installation stays
   * as it left it, suspended and with no repository selected, until one whose action is
   * suspend, unsuspend or deleted comes.
   */
  lemma {:induction false} SuspendedStaysSuspended(run: seq<Store>, events: seq<Event>, j: nat, k: nat, installation: nat)
    requires IsRun(run, events) && j < k < |run|
    requires AppliedAt(run, events, j, installation) && events[j].h.suspended && events[j].h.action != Action.Deleted
    requires forall i :: j < i < k ==> !MayLift(events[i], installation)
    ensures installation in run[j + 1].installations && run[j + 1].installations[installation].status == SUSPENDED
    ensures Find(run[k], installation) == Find(run[j + 1], installation)
    ensures forall r :: r in run[k].repositories && run[k].repositories[r].selected ==>
              run[k].repositories[r].installation != installation
  {
    StoredStatusIsExact(run[j], events[j].h);
    NoAccessWithoutActive(run, events, k);
    if j + 1 < k {
      SuspendedStaysSuspended(run, events, j, k - 1, installation);
      if Find(run[k], installation) != Find(run[k - 1], installation) {
        SuspensionsEndExplicitly(run, events, k - 1, installation);
        assert MayLift(events[k - 1], installation);
      }
    }
  }
}
