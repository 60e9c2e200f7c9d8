/**
 * GitHub installations and the repositories selected in them
 * (src/github_integration/store.py, src/github_integration/router.py).
 *
 * Provider timestamps are integers. A payload the validators refuse rolls its transaction
 * back and is not an event here.
 */
module InstallationState {
  import opened Basics

  datatype Action = Created | Deleted | Suspend | Unsuspend | NewPermissionsAccepted | Added | Removed | Unknown

  datatype Status = DELETED | SUSPENDED | SELECTION_REQUIRED | MISCONFIGURED | ACTIVE

  datatype Version = Version(timestamp: int, priority: nat)

  /** `version` and `revision` are the state version row; a row from before there were versions has revision 0. */
  datatype Installation = Installation(status: Status, allRepositories: bool, version: Option<Version>, revision: nat)

  datatype Repository = Repository(installation: nat, selected: bool)

  datatype Store = Store(installations: map<nat, Installation>, repositories: map<nat, Repository>, deliveries: set<string>)

  /** A webhook; `repositoryEvent` is the installation_repositories kind. */
  datatype Webhook = Webhook(
    delivery: string,
    repositoryEvent: bool,
    installation: nat,
    action: Action,
    timestamp: int,
    allRepositories: bool,
    suspended: bool,
    permitted: bool,
    added: seq<nat>,
    removed: seq<nat>)

  // ---- versions -----------------------------------------------------------------------------

  /** `_event_priority`: at the same timestamp the revoking event wins. */
  function Priority(action: Action, allRepositories: bool): nat {
    if action.Deleted? then 100
    else if action.Suspend? then 90
    else if allRepositories then 80
    else if action.Removed? then 70
    else 10
  }

  function VersionOf(h: Webhook): Version {
    Version(h.timestamp, Priority(h.action, h.allRepositories))
  }

  predicate Newer(v: Version, w: Version) {
    v.timestamp > w.timestamp || (v.timestamp == w.timestamp && v.priority > w.priority)
  }

  /** `_installation_status`: anything broader than selected, read-only access is not active. */
  function StatusOf(h: Webhook): Status {
    if h.action.Deleted? then DELETED
    else if h.suspended then SUSPENDED
    else if h.allRepositories then SELECTION_REQUIRED
    else if !h.permitted then MISCONFIGURED
    else ACTIVE
  }

  /** What the lifecycle rules let through before the version is looked at. */
  predicate Admissible(status: Status, action: Action) {
    && (status.DELETED? ==> action.Deleted?)
    && (status.SUSPENDED? ==> action.Suspend? || action.Unsuspend? || action.Deleted?)
  }

  /** Whether a webhook changes the installation it names. */
  predicate Applies(s: Store, h: Webhook) {
    h.installation in s.installations ==>
      var i := s.installations[h.installation];
      Admissible(i.status, h.action) && (i.version.Some? ==> Newer(VersionOf(h), i.version.value))
  }

  // ---- statements -----------------------------------------------------------------------------

  function Deselected(repositories: map<nat, Repository>, installation: nat): map<nat, Repository> {
    map r | r in repositories ::
      if repositories[r].installation == installation then repositories[r].(selected := false) else repositories[r]
  }

  /** `upsert_installation_from_webhook`. */
  function Upserted(s: Store, h: Webhook): Store {
    if !Applies(s, h) then s
    else
      var before := if h.installation in s.installations && s.installations[h.installation].version.Some?
                    then s.installations[h.installation].revision else 0;
      var after := Installation(StatusOf(h), h.allRepositories, Some(VersionOf(h)), before + 1);
      s.(installations := s.installations[h.installation := after],
         repositories := if after.status.ACTIVE? then s.repositories else Deselected(s.repositories, h.installation))
  }

  /** `upsert_repository` of each, in order; a repository may move from one installation to another. */
  function Selected(repositories: map<nat, Repository>, installation: nat, ids: seq<nat>): map<nat, Repository> {
    if ids == [] then repositories
    else Selected(repositories, installation, ids[..|ids| - 1])[ids[|ids| - 1] := Repository(installation, true)]
  }

  function Dropped(repositories: map<nat, Repository>, installation: nat, ids: seq<nat>): map<nat, Repository> {
    map r | r in repositories ::
      if r in ids && repositories[r].installation == installation then repositories[r].(selected := false) else repositories[r]
  }

  /** The webhook actions each kind of event reacts to. */
  predicate Handled(h: Webhook) {
    if h.repositoryEvent then h.action.Added? || h.action.Removed?
    else !h.action.Added? && !h.action.Removed? && !h.action.Unknown?
  }

  /** A delivery seen for the first time, of a kind that is handled, that the version lets through. */
  predicate TakesEffect(s: Store, h: Webhook) {
    h.delivery !in s.deliveries && Handled(h) && Applies(s, h)
  }

  /** The webhook route, inside its transaction; the removed list of an installation event is empty. */
  function Received(s: Store, h: Webhook): Store {
    if h.delivery in s.deliveries || (h.repositoryEvent && !Handled(h)) then s
    else
      var recorded := s.(deliveries := s.deliveries + {h.delivery});
      if !Handled(h) || !Applies(s, h) then recorded
      else
        var t := Upserted(recorded, h);
        if !StatusOf(h).ACTIVE? then t
        else
          var added := Selected(t.repositories, h.installation, h.added);
          t.(repositories := if h.repositoryEvent then Dropped(added, h.installation, h.removed) else added)
  }

  function Find(s: Store, installation: nat): Option<Installation> {
    if installation in s.installations then Some(s.installations[installation]) else None
  }

  function Revision(s: Store, installation: nat): nat {
    if installation in s.installations && s.installations[installation].version.Some?
    then s.installations[installation].revision else 0
  }

  predicate IsActive(s: Store, installation: nat) {
    installation in s.installations && s.installations[installation].status.ACTIVE?
  }

  /** `replace_installation_repositories`; `None` is the refusal. */
  function Synced(s: Store, installation: nat, expected: nat, ids: seq<nat>): Option<Store> {
    if !IsActive(s, installation) || Revision(s, installation) != expected then None
    else Some(s.(repositories := Selected(Deselected(s.repositories, installation), installation, ids)))
  }

  predicate ActiveSelected(s: Store, repository: nat) {
    repository in s.repositories && s.repositories[repository].selected
    && IsActive(s, s.repositories[repository].installation)
  }

  /**
   * The snapshot route's transaction: check, refresh the repository's row under the
   * installation read before, and check again before keeping any of it.
   */
  function Snapshotted(s: Store, repository: nat, installation: nat): Option<Store> {
    if !ActiveSelected(s, repository) then None
    else
      var t := s.(repositories := s.repositories[repository := Repository(installation, true)]);
      if ActiveSelected(t, repository) then Some(t) else None
  }

  // ---- what one statement keeps -------------------------------------------------------------------

  ghost predicate OnlyActiveSelect(s: Store) {
    forall r :: r in s.repositories && s.repositories[r].selected ==> IsActive(s, s.repositories[r].installation)
  }

  lemma {:induction false} SelectedIs(repositories: map<nat, Repository>, installation: nat, ids: seq<nat>)
    ensures var after := Selected(repositories, installation, ids);
            && (forall r :: r in after <==> r in repositories || r in ids)
            && (forall r :: r in after ==>
                  after[r] == if r in ids then Repository(installation, true) else repositories[r])
  {
    if ids != [] {
      var n := |ids| - 1;
      SelectedIs(repositories, installation, ids[..n]);
      assert ids == ids[..n] + [ids[n]];
    }
  }

  lemma UpsertKeeps(s: Store, h: Webhook)
    requires OnlyActiveSelect(s)
    ensures OnlyActiveSelect(Upserted(s, h))
  {
    if Applies(s, h) {
      var t := Upserted(s, h);
      forall r | r in t.repositories && t.repositories[r].selected
        ensures IsActive(t, t.repositories[r].installation)
      {
        assert IsActive(s, s.repositories[r].installation);
      }
    }
  }

  lemma SelectKeeps(s: Store, installation: nat, ids: seq<nat>)
    requires OnlyActiveSelect(s) && IsActive(s, installation)
    ensures OnlyActiveSelect(s.(repositories := Selected(s.repositories, installation, ids)))
  {
    SelectedIs(s.repositories, installation, ids);
  }

  lemma ReceivedKeeps(s: Store, h: Webhook)
    requires OnlyActiveSelect(s)
    ensures OnlyActiveSelect(Received(s, h))
  {
    if TakesEffect(s, h) {
      var recorded := s.(deliveries := s.deliveries + {h.delivery});
      UpsertKeeps(recorded, h);
      var t := Upserted(recorded, h);
      if StatusOf(h).ACTIVE? { SelectKeeps(t, h.installation, h.added); }
    }
  }

  lemma SyncedKeeps(s: Store, installation: nat, expected: nat, ids: seq<nat>)
    requires OnlyActiveSelect(s) && Synced(s, installation, expected, ids).Some?
    ensures OnlyActiveSelect(Synced(s, installation, expected, ids).value)
  {
    SelectKeeps(s.(repositories := Deselected(s.repositories, installation)), installation, ids);
  }

  /** The second check is what keeps a moved repository from being selected under a revoked installation. */
  lemma SnapshottedKeeps(s: Store, repository: nat, installation: nat)
    requires OnlyActiveSelect(s) && Snapshotted(s, repository, installation).Some?
    ensures OnlyActiveSelect(Snapshotted(s, repository, installation).value)
  {
  }

  /** An applied webhook raises the version strictly and the revision by one; any other changes nothing. */
  lemma WebhooksAreVersioned(s: Store, h: Webhook)
    ensures var t, i := Received(s, h), h.installation;
            && (!TakesEffect(s, h) ==> t.installations == s.installations && t.repositories == s.repositories)
            && (TakesEffect(s, h) ==>
                  && i in t.installations && t.installations[i].version == Some(VersionOf(h))
                  && t.installations[i].status == StatusOf(h)
                  && Revision(t, i) == Revision(s, i) + 1
                  && (i in s.installations && s.installations[i].version.Some? ==>
                        Newer(VersionOf(h), s.installations[i].version.value)))
            && (forall j :: j != i ==>
                  (j in t.installations <==> j in s.installations)
                  && (j in s.installations ==> t.installations[j] == s.installations[j]))
  {
  }

  /** A sync leaves exactly the listed repositories selected in its installation. */
  lemma SyncIsAuthoritative(s: Store, installation: nat, expected: nat, ids: seq<nat>, r: nat)
    requires Synced(s, installation, expected, ids).Some?
    ensures var t := Synced(s, installation, expected, ids).value;
            && (r in ids <==> r in t.repositories && t.repositories[r] == Repository(installation, true))
            && (r in s.repositories && r !in ids ==>
                  r in t.repositories
                  && t.repositories[r].installation == s.repositories[r].installation
                  && t.repositories[r].selected
                     == (s.repositories[r].selected && s.repositories[r].installation != installation))
            && t.installations == s.installations
  {
    SelectedIs(Deselected(s.repositories, installation), installation, ids);
  }

  /**
   * What an applied webhook grants: its installation is active exactly if it is a live,
   * unsuspended one with selected repositories and read-only permissions, and otherwise no
   * repository stays selected in it.
   */
  lemma AccessNeedsReadOnly(s: Store, h: Webhook)
    requires TakesEffect(s, h)
    ensures var readOnly := !h.action.Deleted? && !h.suspended && !h.allRepositories && h.permitted;
            && (IsActive(Received(s, h), h.installation) <==> readOnly)
            && (!readOnly ==> forall r :: r in Received(s, h).repositories && Received(s, h).repositories[r].selected ==>
                  Received(s, h).repositories[r].installation != h.installation)
  {
  }

  // ---- one webhook, and one refresh, exactly --------------------------------------------------------

  /** Which webhooks change anything: new deliveries of a handled kind that neither lifecycle nor version holds back. */
  lemma TakesEffectExactly(s: Store, h: Webhook)
    ensures TakesEffect(s, h) <==>
              && h.delivery !in s.deliveries
              && h.action in (if h.repositoryEvent then {Added, Removed}
                              else {Created, Action.Deleted, Suspend, Unsuspend, NewPermissionsAccepted})
              && (h.installation in s.installations ==>
                    var i := s.installations[h.installation];
                    && (i.status == DELETED ==> h.action == Action.Deleted)
                    && (i.status == SUSPENDED ==> h.action in {Suspend, Unsuspend, Action.Deleted})
                    && (i.version.Some? ==>
                          var seen := i.version.value;
                          seen.timestamp < h.timestamp || (seen.timestamp == h.timestamp && seen.priority < Strictness(h))))
  {
    assert Priority(h.action, h.allRepositories) == Strictness(h);
  }

  /** At one timestamp deletions go before suspensions, these before all repositories, these before removals. */
  function Strictness(h: Webhook): nat {
    match h.action
    case Deleted => 100
    case Suspend => 90
    case Removed => if h.allRepositories then 80 else 70
    case _ => if h.allRepositories then 80 else 10
  }

  /** The row a webhook that takes effect stores: its status is the first of the reasons not to be active that holds. */
  lemma StoredStatusIsExact(s: Store, h: Webhook)
    requires TakesEffect(s, h)
    ensures h.installation in Received(s, h).installations
    ensures var i := Received(s, h).installations[h.installation];
            && (i.status == DELETED <==> h.action == Action.Deleted)
            && (i.status == SUSPENDED <==> h.action != Action.Deleted && h.suspended)
            && (i.status == SELECTION_REQUIRED <==> h.action != Action.Deleted && !h.suspended && h.allRepositories)
            && (i.status == MISCONFIGURED <==>
                  h.action != Action.Deleted && !h.suspended && !h.allRepositories && !h.permitted)
            && (i.status == ACTIVE <==> h.action != Action.Deleted && !h.suspended && !h.allRepositories && h.permitted)
            && i.allRepositories == h.allRepositories
            && i.version == Some(Version(h.timestamp, Strictness(h)))
  {
  }

  /**
   * The repositories a webhook that takes effect leaves: the added ones if the installation
   * is active then, less what a repository event removes; all of the installation's deselected
   * if it is not.
   */
  lemma RepositoriesAreExact(s: Store, h: Webhook, r: nat)
    requires TakesEffect(s, h)
    ensures var t := Received(s, h);
            var active := t.installations[h.installation].status == ACTIVE;
            var dropped := !active || (h.repositoryEvent && r in h.removed);
            && (r in t.repositories <==> r in s.repositories || (active && r in h.added))
            && (active && r in h.added ==> t.repositories[r] == Repository(h.installation, !dropped))
            && (r in s.repositories && !(active && r in h.added) ==>
                  t.repositories[r] == Repository(s.repositories[r].installation,
                    s.repositories[r].selected && !(dropped && s.repositories[r].installation == h.installation)))
            && t.deliveries == s.deliveries + {h.delivery}
  {
    var recorded := s.(deliveries := s.deliveries + {h.delivery});
    SelectedIs(Upserted(recorded, h).repositories, h.installation, h.added);
  }

  /** Every delivery is recorded once, but for repository events of a kind that is refused. */
  lemma DeliveriesAreRecorded(s: Store, h: Webhook)
    ensures Received(s, h).deliveries
         == if h.repositoryEvent && h.action !in {Added, Removed} then s.deliveries else s.deliveries + {h.delivery}
  {
  }

  /** A refresh commits exactly if the repository is selected in an active installation and the one read before is active. */
  lemma SnapshotIsExact(s: Store, repository: nat, installation: nat)
    ensures var active := (i: nat) => i in s.installations && s.installations[i].status == ACTIVE;
            Snapshotted(s, repository, installation)
            == if repository in s.repositories && s.repositories[repository].selected
                  && active(s.repositories[repository].installation) && active(installation)
               then Some(s.(repositories := s.repositories[repository := Repository(installation, true)]))
               else None
  {
  }
}
