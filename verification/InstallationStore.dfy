/**
 * The installation tables as the statements that change them
 * (src/github_integration/store.py, src/github_integration/router.py). Each method is
 * proved to take the tables where the corresponding function of `InstallationState` says.
 */
module InstallationStore {
  import opened Basics
  import opened InstallationState

  class Tables {
    var installations: map<nat, Installation>
    var repositories: map<nat, Repository>
    var deliveries: set<string>

    ghost function State(): Store
      reads this
    {
      Store(installations, repositories, deliveries)
    }

    constructor ()
      ensures State() == Store(map[], map[], {})
    {
      installations, repositories, deliveries := map[], map[], {};
    }

    /** `_observe_installation_event` on an installation's version row. */
    method ObserveEvent(installation: nat, seen: Version) returns (applied: bool, revision: nat)
      requires installation in installations
      modifies this`installations
      ensures var row := old(installations)[installation];
              && applied == (row.version.None? || Newer(seen, row.version.value))
              && revision == (if row.version.None? then 1 else if applied then row.revision + 1 else row.revision)
              && installations == if applied
                                  then old(installations)[installation := row.(version := Some(seen), revision := revision)]
                                  else old(installations)
    {
      var row := installations[installation];
      if row.version.None? {
        applied, revision := true, 1;
      } else {
        var previous := row.version.value;
        applied := seen.timestamp > previous.timestamp
                   || (seen.timestamp == previous.timestamp && seen.priority > previous.priority);
        revision := if applied then row.revision + 1 else row.revision;
      }
      if applied {
        installations := installations[installation := row.(version := Some(seen), revision := revision)];
      }
    }

    method DeselectAll(installation: nat)
      modifies this`repositories
      ensures repositories == Deselected(old(repositories), installation)
    {
      repositories := map r | r in repositories ::
        if repositories[r].installation == installation then repositories[r].(selected := false) else repositories[r];
    }

    /** `upsert_installation_from_webhook`. */
    method UpsertInstallation(h: Webhook) returns (applied: bool)
      modifies this
      ensures State() == Upserted(old(State()), h) && applied == Applies(old(State()), h)
    {
      var id, status, revision := h.installation, StatusOf(h), 0;
      if id in installations {
        var existing := installations[id];
        if existing.status.DELETED? && !h.action.Deleted? { return false; }
        if existing.status.SUSPENDED? && !(h.action.Suspend? || h.action.Unsuspend? || h.action.Deleted?) { return false; }
        applied, revision := ObserveEvent(id, VersionOf(h));
        if !applied { return; }
        installations := installations[id := installations[id].(status := status, allRepositories := h.allRepositories)];
      } else {
        installations := installations[id := Installation(status, h.allRepositories, None, 0)];
        applied, revision := ObserveEvent(id, VersionOf(h));
      }
      if !status.ACTIVE? { DeselectAll(id); }
    }

    method UpsertRepositories(installation: nat, ids: seq<nat>)
      modifies this`repositories
      ensures repositories == Selected(old(repositories), installation, ids)
    {
      var k := 0;
      while k < |ids|
        invariant 0 <= k <= |ids| && repositories == Selected(old(repositories), installation, ids[..k])
      {
        assert ids[..k + 1][..k] == ids[..k];
        repositories := repositories[ids[k] := Repository(installation, true)];
        k := k + 1;
      }
      assert ids[..k] == ids;
    }

    method DropRepositories(installation: nat, ids: seq<nat>)
      modifies this`repositories
      ensures repositories == Dropped(old(repositories), installation, ids)
    {
      var k := 0;
      while k < |ids|
        invariant 0 <= k <= |ids| && repositories == Dropped(old(repositories), installation, ids[..k])
      {
        var r := ids[k];
        if r in repositories && repositories[r].installation == installation {
          repositories := repositories[r := repositories[r].(selected := false)];
        }
        assert forall x :: x in ids[..k + 1] <==> x in ids[..k] || x == r;
        k := k + 1;
      }
      assert ids[..k] == ids;
    }

    /** The webhook route's transaction; `false` where the source answers "duplicate" or "ignored" or fails. */
    method Receive(h: Webhook) returns (processed: bool)
      modifies this
      ensures State() == Received(old(State()), h)
      ensures processed ==> TakesEffect(old(State()), h)
    {
      processed := false;
      if h.delivery in deliveries || (h.repositoryEvent && !Handled(h)) { return; }
      deliveries := deliveries + {h.delivery};
      if !Handled(h) { return; }
      var applied := UpsertInstallation(h);
      if !applied { return; }
      if installations[h.installation].status.ACTIVE? {
        UpsertRepositories(h.installation, h.added);
        if h.repositoryEvent { DropRepositories(h.installation, h.removed); }
        processed := true;
      } else {
        processed := !h.repositoryEvent;
      }
    }

    /** `replace_installation_repositories`. */
    method ReplaceRepositories(installation: nat, expected: nat, ids: seq<nat>) returns (committed: bool)
      modifies this
      ensures match Synced(old(State()), installation, expected, ids)
              case Some(after) => committed && State() == after
              case None => !committed && State() == old(State())
    {
      if installation !in installations || !installations[installation].status.ACTIVE? { return false; }
      var row := installations[installation];
      var revision := if row.version.Some? then row.revision else 0;
      if revision != expected { return false; }
      DeselectAll(installation);
      UpsertRepositories(installation, ids);
      committed := true;
    }

    /** The snapshot route's transaction, rolled back where a check fails. */
    method RefreshForSnapshot(repository: nat, installation: nat) returns (committed: bool)
      modifies this
      ensures match Snapshotted(old(State()), repository, installation)
              case Some(after) => committed && State() == after
              case None => !committed && State() == old(State())
    {
      var before := repositories;
      committed := CheckSelected(repository);
      if !committed { return; }
      UpsertRepositories(installation, [repository]);
      assert [repository][..0] == [];
      committed := CheckSelected(repository);
      if !committed { repositories := before; }
    }

    method CheckSelected(repository: nat) returns (ok: bool)
      ensures ok == ActiveSelected(State(), repository)
    {
      ok := repository in repositories && repositories[repository].selected
            && repositories[repository].installation in installations
            && installations[repositories[repository].installation].status.ACTIVE?;
    }
  }
}
