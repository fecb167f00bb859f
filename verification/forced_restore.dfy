/**
 Restoring with force, whatever the files have become since: no conflict keeps a change
 from being undone, and a change is undone if and only if, at its turn, the way to its path
 is open, its missing directories were recorded, and nothing of another sort is in its
 place.
 */
module ForcedRestore {
  import opened Wrappers
  import opened FileTrees
  import opened Restoring
  import opened RestoreFrame
  import opened RestoreAgain
  import opened RestoreSteps
  import opened RestoreReach

  /** A directory is there, or was there before the session. */
  predicate Makeable(snapshot: Snapshot, nodes: Tree, path: Path) {
    if path in nodes then nodes[path].kind.Directory?
    else path in snapshot.baseline && snapshot.baseline[path].kind.Directory?
  }

  ghost predicate ParentsMakeable(snapshot: Snapshot, nodes: Tree, path: Path) {
    forall above :: IsAbove(above, path) ==> Makeable(snapshot, nodes, above)
  }

  /** What was there before can be put at the path: its bytes are known, and a directory
      does not take the place of anything else, nor anything else that of a directory. */
  predicate Placeable(snapshot: Snapshot, nodes: Tree, path: Path, entry: Entry) {
    if entry.kind.Directory? then path != [] && (path in nodes ==> nodes[path].kind.Directory?)
    else !entry.kind.Other? && path in snapshot.contents && !(path in nodes && nodes[path].kind.Directory?)
  }

  /** Nothing here speaks of what the session left. */
  ghost predicate CanUndo(snapshot: Snapshot, d: Disk, change: Change) {
    && !Lookup(d.nodes, change.path).Denied?
    && (AlreadyRight(snapshot, d, change) ||
        match change.before
        case None => change.path !in d.nodes || Removable(d.nodes, change.path)
        case Some(entry) =>
          ParentsMakeable(snapshot, d.nodes, change.path) && Placeable(snapshot, d.nodes, change.path, entry))
  }

  /** The path holds what was there before the session, mode included. */
  predicate AsBefore(snapshot: Snapshot, nodes: Tree, change: Change) {
    match change.before
    case None => change.path !in nodes
    case Some(entry) =>
      && change.path in nodes && nodes[change.path].kind == entry.kind && nodes[change.path].mode == entry.mode
      && (entry.kind.File? ==>
            change.path in snapshot.contents && nodes[change.path].content == snapshot.contents[change.path])
      && (entry.kind.Symlink? ==> nodes[change.path].content == entry.target)
  }

  /* Parents. */

  /** All directories down to `own` can be made usable if and only if each is there or was
      recorded; their modes do not matter. */
  lemma {:induction false} EnsureExactly(snapshot: Snapshot, d: Disk, own: Path)
    ensures
      var attempt := Ensure(snapshot, d, own);
      && (attempt.ok <==> forall above :: Within(own, above) ==> Makeable(snapshot, d.nodes, above))
      && (attempt.ok ==> forall above :: Within(own, above) ==> UsableAt(attempt.disk, above))
  {
    if own == [] {
      EnsureOneExactly(snapshot, d, own);
      assert forall above :: Within(own, above) <==> above == own;
    } else {
      hide EnsureOne, Makeable, UsableAt;
      var upper := Ensure(snapshot, d, Parent(own));
      EnsureExactly(snapshot, d, Parent(own));
      EnsureElsewhere(snapshot, d, Parent(own), own);
      SameMakeable(snapshot, d, upper.disk, own);
      forall above
        ensures Within(own, above) <==> above == own || Within(Parent(own), above)
      {
        if IsAbove(above, own) {
          AboveParent(above, own);
        }
        if Within(Parent(own), above) {
          AboveChild(above, own);
        }
      }
      hide Ensure, IsAbove, SamePlace;
      if upper.ok {
        EnsureOneExactly(snapshot, upper.disk, own);
      }
    }
  }

  lemma SameMakeable(snapshot: Snapshot, d: Disk, e: Disk, path: Path)
    requires SamePlace(d, e, path)
    ensures Makeable(snapshot, e.nodes, path) <==> Makeable(snapshot, d.nodes, path)
  {
  }

  lemma EnsureOneExactly(snapshot: Snapshot, d: Disk, own: Path)
    requires forall above :: IsAbove(above, own) ==> UsableAt(d, above)
    ensures
      var attempt := EnsureOne(snapshot, d, own);
      && (attempt.ok <==> Makeable(snapshot, d.nodes, own))
      && (attempt.ok ==> forall above :: Within(own, above) ==> UsableAt(attempt.disk, above))
  {
    forall above | IsAbove(above, own)
      ensures Holds(d.nodes, above)
    {
      assert UsableAt(d, above);
    }
    LookupWay(d.nodes, own);
    if own != [] {
      assert IsAbove(Parent(own), own);
      WayParent(d.nodes, own);
      LookupWay(d.nodes, Parent(own));
      assert UsableAt(d, Parent(own));
    }
    hide Lookup, IsAbove;
  }

  lemma ParentsExactly(snapshot: Snapshot, d: Disk, path: Path)
    requires path != []
    ensures
      var attempt := EnsureParents(snapshot, d, path);
      && (attempt.ok <==> ParentsMakeable(snapshot, d.nodes, path))
      && (attempt.ok ==> Writable(attempt.disk.nodes, path))
      && (path in attempt.disk.nodes <==> path in d.nodes)
      && (path in d.nodes ==> attempt.disk.nodes[path].kind == d.nodes[path].kind)
  {
    hide Makeable, Ensure;
    var attempt := EnsureParents(snapshot, d, path);
    EnsureExactly(snapshot, d, Parent(path));
    ParentsElsewhere(snapshot, d, path, path);
    forall above
      ensures IsAbove(above, path) <==> Within(Parent(path), above)
    {
      if IsAbove(above, path) {
        AboveParent(above, path);
      }
      if Within(Parent(path), above) {
        AboveChild(above, path);
      }
    }
    if attempt.ok {
      WritableBelow(attempt.disk, path);
    }
  }

  lemma WritableBelow(d: Disk, path: Path)
    requires path != [] && forall above :: Within(Parent(path), above) ==> UsableAt(d, above)
    ensures Writable(d.nodes, path)
  {
    forall above | IsAbove(above, Parent(path))
      ensures Holds(d.nodes, above)
    {
      assert UsableAt(d, above);
    }
    assert UsableAt(d, Parent(path));
    LookupWay(d.nodes, Parent(path));
    hide Lookup;
  }

  /* One change. */

  lemma ObjectExactly(snapshot: Snapshot, d: Disk, change: Change)
    requires FromBaseline(snapshot, change) && change.before.Some?
    ensures
      RestoreObject(snapshot, d, change.path, change.before.value).ok <==>
      ParentsMakeable(snapshot, d.nodes, change.path)
      && Placeable(snapshot, d.nodes, change.path, change.before.value)
  {
    hide Makeable;
    if change.path != [] {
      ParentsExactly(snapshot, d, change.path);
      hide Writable, ParentsMakeable, EnsureParents;
    }
  }

  /** With force a change is undone if and only if it can be; what the session left, and
      what became of it since, changes nothing about that, nor is anything copied aside. */
  lemma ForcedExactly(snapshot: Snapshot, d: Disk, change: Change, expected: Option<Entry>)
    requires FromBaseline(snapshot, change)
    ensures
      var outcome := RestoreOne(snapshot, d, change, true);
      && outcome.result.path == change.path && outcome.result.sidecar.None?
      && outcome.result.status ==
           (if !CanUndo(snapshot, d, change) then Failed
            else if AlreadyRight(snapshot, d, change) then AlreadyRestored else Restored)
      && (outcome.result.status.AlreadyRestored? ==> outcome.disk == d)
      && RestoreOne(snapshot, d, change.(after := expected), true) == outcome
  {
    hide Lookup, Removable, RestoreObject, ParentsMakeable, Placeable;
    if change.before.Some? {
      ObjectExactly(snapshot, d, change);
    }
    var other := change.(after := expected);
    assert AlreadyRight(snapshot, d, other) <==> AlreadyRight(snapshot, d, change);
    hide AlreadyRight, Conflicts;
  }

  /* A whole restore. */

  lemma {:induction false} NoCopies(snapshot: Snapshot, start: Disk, changes: seq<Change>, path: Path)
    requires AllFromBaseline(snapshot, changes)
    ensures !IsCopy(RestoreAll(snapshot, start, changes, true).results, path)
  {
    hide RestoreOne;
    if changes != [] {
      var last := |changes| - 1;
      var earlier := RestoreAll(snapshot, start, changes[..last], true);
      NoCopies(snapshot, start, changes[..last], path);
      ForcedExactly(snapshot, earlier.disk, changes[last], None);
      hide CanUndo, AlreadyRight;
    }
  }

  /** The changes are the same but for what they say the session left. */
  ghost predicate SameBefore(changes: seq<Change>, others: seq<Change>) {
    |changes| == |others| && forall i :: 0 <= i < |changes| ==> others[i] == changes[i].(after := others[i].after)
  }

  /** No conflict plays any part: whatever the session is said to have left, a restore with
      force does the same. */
  lemma {:induction false} ConflictsIgnored(
    snapshot: Snapshot, start: Disk, changes: seq<Change>, others: seq<Change>)
    requires AllFromBaseline(snapshot, changes) && SameBefore(changes, others)
    ensures RestoreAll(snapshot, start, changes, true) == RestoreAll(snapshot, start, others, true)
    decreases |changes|
  {
    hide RestoreOne;
    if changes != [] {
      var last := |changes| - 1;
      ConflictsIgnored(snapshot, start, changes[..last], others[..last]);
      ForcedExactly(
        snapshot, RestoreAll(snapshot, start, changes[..last], true).disk, changes[last], others[last].after);
      hide CanUndo, AlreadyRight;
    }
  }

  lemma RightMeans(snapshot: Snapshot, nodes: Tree, change: Change)
    requires Consistent(snapshot, change) && Right(snapshot, nodes, change)
    ensures AsBefore(snapshot, nodes, change)
  {
  }

  /** Whatever the files were when the restore began, with force every change, at its turn,
      is undone if and only if it can be, and its path ends as it was before the session;
      what cannot be undone is reported as failed and its path ends as it was, or is a
      directory that had to be made. */
  lemma ForcedRun(snapshot: Snapshot, start: Disk, changes: seq<Change>, paths: seq<Path>, index: nat)
    requires Sound(snapshot, start, changes) && ChildrenFirst(changes) && index < |changes|
    requires Consistent(snapshot, changes[index])
    requires FinishOrder(RestoreAll(snapshot, start, changes, true).disk, paths)
    ensures
      var run := RestoreAll(snapshot, start, changes, true);
      var next := Finish(run, paths);
      var turn := RestoreAll(snapshot, start, changes[..index], true).disk;
      var result := run.results[index];
      && next.results == run.results && result.path == changes[index].path && result.sidecar.None?
      && (Success(result.status) <==> CanUndo(snapshot, turn, changes[index]))
      && if Success(result.status) then AsBefore(snapshot, next.disk.nodes, changes[index])
         else
           && result.status.Failed?
           && Untouched(snapshot, start.nodes, next.disk.nodes, changes, changes[index].path, false)
  {
    hide RestoreOne, Right, AsBefore, Untouched, CanUndo, AlreadyRight, Consistent, TreeShaped, Open;
    var run, path := RestoreAll(snapshot, start, changes, true), changes[index].path;
    var turn := RestoreAll(snapshot, start, changes[..index], true);
    FinishNeverFails(snapshot, start, changes, true, paths, path);
    NoCopies(snapshot, start, changes, path);
    AllResults(snapshot, start, changes, true, index);
    PrefixResults(snapshot, start, changes, true, index);
    ForcedExactly(snapshot, turn.disk, changes[index], None);
    ResultPaths(snapshot, start, changes, true);
    FirstRestoreRights(snapshot, start, changes, true, paths, index);
    UntouchedUnlessRestored(snapshot, start, changes, true, paths, path);
    hide RestoreAll, Finish, IsAbove;
    if Success(run.results[index].status) {
      RightMeans(snapshot, Finish(run, paths).disk.nodes, changes[index]);
    } else {
      assert !ReportedRestored(run.results, path);
    }
  }
}
