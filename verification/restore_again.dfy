/**
 Restoring a second time finds every path the first restore put right.
 */
module RestoreAgain {
  import opened Wrappers
  import opened FileTrees
  import opened Restoring
  import opened RestoreFrame

  /** The change and the snapshot tell the same story about what was there before. */
  ghost predicate Consistent(snapshot: Snapshot, change: Change) {
    && (change.path in snapshot.baseline <==> change.before.Some?)
    && (change.kind.Created? <==> change.before.None?)
    && (change.before.Some? && change.path in snapshot.contents ==>
          var entry, content := change.before.value, snapshot.contents[change.path];
          && (entry.kind.File? ==> entry.size == |content|)
          && (entry.kind.Symlink? ==> entry.target == content && entry.mode == LINK_MODE))
  }

  /** What is on disk at `path` is what was there before the session. */
  predicate Right(snapshot: Snapshot, nodes: Tree, change: Change) {
    MatchesBefore(snapshot, change, EntryAt(nodes, change.path), ContentAt(nodes, change.path))
  }

  /** Right already, or right once its directory gets its mode back. */
  ghost predicate Righted(snapshot: Snapshot, d: Disk, change: Change) {
    var path := change.path;
    if path in Unfinished(d) && path in d.nodes then
      path !in d.created && MatchesBefore(snapshot, change, Some(d.temporary[path]), d.nodes[path].content) &&
      SameButMode(d.temporary[path], d.nodes[path])
    else Right(snapshot, d.nodes, change)
  }

  predicate SameButMode(entry: Entry, node: Node) {
    entry == EntryOf(node).(mode := entry.mode)
  }

  lemma DirectoryRighted(snapshot: Snapshot, d: Disk, change: Change)
    requires Consistent(snapshot, change) && change.before.Some? && change.before.value.kind.Directory?
    ensures
      var attempt := RestoreDirectory(d, change.path, change.before.value);
      attempt.ok ==> Righted(snapshot, attempt.disk, change)
  {
  }

  lemma FileRighted(snapshot: Snapshot, start: Disk, d: Disk, changes: seq<Change>, change: Change)
    requires Consistent(snapshot, change) && change.before.Some? && !change.before.value.kind.Directory?
    requires Kept(snapshot, start, d, changes, change.path)
    ensures
      var attempt := RestoreFile(snapshot, d, change.path, change.before.value);
      attempt.ok ==> Righted(snapshot, attempt.disk, change)
  {
  }

  lemma StepRighted(snapshot: Snapshot, start: Disk, d: Disk, changes: seq<Change>, index: nat, force: bool)
    requires index < |changes| && Consistent(snapshot, changes[index])
    requires Kept(snapshot, start, d, changes, changes[index].path)
    ensures
      var outcome := RestoreOne(snapshot, d, changes[index], force);
      outcome.result.status.Restored? || outcome.result.status.AlreadyRestored? ==>
        Righted(snapshot, outcome.disk, changes[index])
  {
    hide Refuse;
    var change := changes[index];
    RefuseStatus(snapshot, d, change);
    if Lookup(d.nodes, change.path).Denied? {
    } else if AlreadyRight(snapshot, d, change) {
    } else if change.kind.Created? {
    } else if change.before.Some? {
      hide Kept, Righted, RestoreDirectory, RestoreFile, Ensure, AlreadyRight;
      if change.path != [] {
        EnsureFrame(snapshot, start, d, changes, Parent(change.path), change.path, index);
      }
      var e := EnsureParents(snapshot, d, change.path).disk;
      if change.before.value.kind.Directory? {
        DirectoryRighted(snapshot, e, change);
      } else {
        FileRighted(snapshot, start, e, changes, change);
      }
    }
  }

  /* Later steps work elsewhere. */

  predicate SamePlace(d: Disk, e: Disk, path: Path) {
    && Get(d.nodes, path) == Get(e.nodes, path)
    && (path in d.created <==> path in e.created)
    && (path in d.temporary <==> path in e.temporary)
    && (path in d.temporary ==> d.temporary[path] == e.temporary[path])
    && (path in d.finalized <==> path in e.finalized)
  }

  lemma SamePlaceRighted(snapshot: Snapshot, d: Disk, e: Disk, change: Change)
    requires SamePlace(d, e, change.path)
    ensures Righted(snapshot, d, change) <==> Righted(snapshot, e, change)
  {
  }

  lemma {:induction false} EnsureElsewhere(snapshot: Snapshot, d: Disk, above: Path, path: Path)
    requires path != above && !IsAbove(path, above)
    ensures SamePlace(d, Ensure(snapshot, d, above).disk, path)
  {
    if above != [] {
      if path == Parent(above) || IsAbove(path, Parent(above)) {
        AboveChild(path, above);
      }
      EnsureElsewhere(snapshot, d, Parent(above), path);
    }
  }

  lemma ObjectElsewhere(snapshot: Snapshot, d: Disk, own: Path, entry: Entry, path: Path)
    requires path != own && !IsAbove(path, own)
    ensures SamePlace(d, RestoreObject(snapshot, d, own, entry).disk, path)
  {
    hide SamePlace, Ensure, RestoreFile, RestoreDirectory;
    ParentsElsewhere(snapshot, d, own, path);
    var e := EnsureParents(snapshot, d, own).disk;
    WriteElsewhere(snapshot, d, e, own, entry, path);
  }

  lemma ParentsElsewhere(snapshot: Snapshot, d: Disk, own: Path, path: Path)
    requires !IsAbove(path, own)
    ensures SamePlace(d, EnsureParents(snapshot, d, own).disk, path)
  {
    hide Ensure;
    if own != [] {
      if path == Parent(own) || IsAbove(path, Parent(own)) {
        AboveChild(path, own);
      }
      EnsureElsewhere(snapshot, d, Parent(own), path);
    }
  }

  lemma WriteElsewhere(snapshot: Snapshot, d: Disk, e: Disk, own: Path, entry: Entry, path: Path)
    requires path != own && SamePlace(d, e, path)
    ensures SamePlace(d, RestoreDirectory(e, own, entry).disk, path)
    ensures SamePlace(d, RestoreFile(snapshot, e, own, entry).disk, path)
  {
  }

  lemma StepElsewhere(snapshot: Snapshot, d: Disk, change: Change, force: bool, path: Path)
    requires path != change.path && !IsAbove(path, change.path)
    ensures
      var outcome := RestoreOne(snapshot, d, change, force);
      outcome.result.sidecar != Some(path) ==> SamePlace(d, outcome.disk, path)
  {
    hide RestoreObject, AlreadyRight, Conflicts, Writable, Removable, Lookup;
    if change.before.Some? {
      ObjectElsewhere(snapshot, d, change.path, change.before.value, path);
    }
  }

  /* The first restore. */

  /** A change that was put right stays right while the others are restored. */
  lemma {:induction false} StaysRighted(
    snapshot: Snapshot, start: Disk, changes: seq<Change>, force: bool, index: nat, done: nat)
    requires Begun(start) && ChildrenFirst(changes) && index < done <= |changes|
    requires Consistent(snapshot, changes[index])
    ensures
      var run := RestoreAll(snapshot, start, changes[..done], force);
      var status := run.results[index].status;
      (status.Restored? || status.AlreadyRestored?) && !IsCopy(run.results, changes[index].path) ==>
        Righted(snapshot, run.disk, changes[index])
    decreases done
  {
    hide RestoreOne, Righted, Kept;
    assert changes[..done][..done - 1] == changes[..done - 1];
    var earlier := RestoreAll(snapshot, start, changes[..done - 1], force);
    var run := RestoreAll(snapshot, start, changes[..done], force);
    assert run.results == earlier.results + [RestoreOne(snapshot, earlier.disk, changes[done - 1], force).result];
    Extends(earlier.results, run.results, changes[index].path);
    if index == done - 1 {
      if !IsCopy(run.results, changes[index].path) {
        OwnTurn(snapshot, start, changes, force, index);
        StepRighted(snapshot, start, earlier.disk, changes, index, force);
      }
    } else {
      StaysRighted(snapshot, start, changes, force, index, done - 1);
      StepElsewhere(snapshot, earlier.disk, changes[done - 1], force, changes[index].path);
      assert run.results[done - 1] == RestoreOne(snapshot, earlier.disk, changes[done - 1], force).result;
      if !IsCopy(run.results, changes[index].path) {
        assert run.results[done - 1].sidecar != Some(changes[index].path);
        SamePlaceRighted(snapshot, earlier.disk, run.disk, changes[index]);
      }
    }
  }

  lemma OwnTurn(snapshot: Snapshot, start: Disk, changes: seq<Change>, force: bool, index: nat)
    requires Begun(start) && ChildrenFirst(changes) && index < |changes|
    requires !IsCopy(RestoreAll(snapshot, start, changes[..index], force).results, changes[index].path)
    ensures Kept(snapshot, start, RestoreAll(snapshot, start, changes[..index], force).disk, changes, changes[index].path)
  {
    hide RestoreOne, Kept;
    RunFrame(snapshot, start, changes, force, index, changes[index].path);
    ResultPaths(snapshot, start, changes[..index], force);
  }

  /** What is on disk differs at most in its mode from what was there before. */
  predicate RightButMode(snapshot: Snapshot, nodes: Tree, change: Change) {
    && change.path in nodes && change.before.Some?
    && MatchesBefore(snapshot, change, Some(EntryOf(nodes[change.path]).(mode := change.before.value.mode)),
                     nodes[change.path].content)
  }

  /** Once the directories in hand have their modes, what was righted is right. */
  lemma FinishedRight(snapshot: Snapshot, run: Run, paths: seq<Path>, change: Change)
    requires FinishOrder(run.disk, paths) && Righted(snapshot, run.disk, change)
    ensures
      var next := Finish(run, paths);
      Right(snapshot, next.disk.nodes, change) ||
      (Unreached(run, paths, change.path) && RightButMode(snapshot, next.disk.nodes, change))
  {
    hide Unreached;
    var path := change.path;
    FinishedMode(run, paths, path);
    var next := Finish(run, paths);
    if path in next.disk.nodes && !Unreached(run, paths, path) {
      assert next.disk.nodes[path] == run.disk.nodes[path].(mode := FinalMode(run.disk, path));
    }
    if path !in Unfinished(run.disk) {
      assert Get(next.disk.nodes, path) == Get(run.disk.nodes, path);
    }
  }

  /** What is reported as restored, or as right already, is right when the command ends,
      but for the mode of a directory that the finish step could not reach. */
  lemma RightsUpToReach(
    snapshot: Snapshot, start: Disk, changes: seq<Change>, force: bool, paths: seq<Path>, index: nat)
    requires Begun(start) && ChildrenFirst(changes) && index < |changes|
    requires Consistent(snapshot, changes[index])
    requires FinishOrder(RestoreAll(snapshot, start, changes, force).disk, paths)
    ensures
      var run := RestoreAll(snapshot, start, changes, force);
      var status := run.results[index].status;
      var next := Finish(run, paths);
      (status.Restored? || status.AlreadyRestored?) && !IsCopy(run.results, changes[index].path) ==>
        Right(snapshot, next.disk.nodes, changes[index]) ||
        (Unreached(run, paths, changes[index].path) && RightButMode(snapshot, next.disk.nodes, changes[index]))
  {
    hide Righted, Right;
    assert changes[..|changes|] == changes;
    var run := RestoreAll(snapshot, start, changes, force);
    StaysRighted(snapshot, start, changes, force, index, |changes|);
    var status := run.results[index].status;
    if (status.Restored? || status.AlreadyRestored?) && !IsCopy(run.results, changes[index].path) {
      FinishedRight(snapshot, run, paths, changes[index]);
    }
  }

  /* The second. */

  /** A path that is right when a restore begins is reported as already restored,
      unless it cannot be looked at. */
  lemma SecondRestoreFinds(
    snapshot: Snapshot, start: Disk, changes: seq<Change>, force: bool, index: nat)
    requires Begun(start) && ChildrenFirst(changes) && index < |changes|
    requires Consistent(snapshot, changes[index]) && Right(snapshot, start.nodes, changes[index])
    ensures
      var run := RestoreAll(snapshot, start, changes, force);
      var d := RestoreAll(snapshot, start, changes[..index], force).disk;
      !IsCopy(run.results, changes[index].path) ==>
        run.results[index].status == if Lookup(d.nodes, changes[index].path).Denied? then Failed else AlreadyRestored
  {
    hide RestoreOne, Kept, Right, Lookup;
    var change := changes[index];
    var run := RestoreAll(snapshot, start, changes, force);
    if !IsCopy(run.results, change.path) {
      AllResults(snapshot, start, changes, force, index);
      PrefixResults(snapshot, start, changes, force, index);
      var earlier := RestoreAll(snapshot, start, changes[..index], force);
      Extends(earlier.results, run.results, change.path);
      OwnTurn(snapshot, start, changes, force, index);
      RightNow(snapshot, start, earlier.disk, changes, change, force);
    }
  }

  /** A second restore reports as already restored whatever the first one put right. */
  lemma TwiceUpToReach(
    snapshot: Snapshot, start: Disk, changes: seq<Change>, force: bool, paths: seq<Path>,
    again: Disk, forceAgain: bool, index: nat)
    requires Begun(start) && Begun(again) && ChildrenFirst(changes) && index < |changes|
    requires Consistent(snapshot, changes[index])
    requires FinishOrder(RestoreAll(snapshot, start, changes, force).disk, paths)
    requires again.nodes == Finish(RestoreAll(snapshot, start, changes, force), paths).disk.nodes
    requires
      var path := changes[index].path;
      var run := RestoreAll(snapshot, start, changes, force);
      && (run.results[index].status.Restored? || run.results[index].status.AlreadyRestored?)
      && !IsCopy(run.results, path)
      && !Unreached(run, paths, path)
      && !IsCopy(RestoreAll(snapshot, again, changes, forceAgain).results, path)
    ensures
      var status := RestoreAll(snapshot, again, changes, forceAgain).results[index].status;
      var d := RestoreAll(snapshot, again, changes[..index], forceAgain).disk;
      status == if Lookup(d.nodes, changes[index].path).Denied? then Failed else AlreadyRestored
  {
    hide RestoreOne, Right, Lookup;
    RightsUpToReach(snapshot, start, changes, force, paths, index);
    SecondRestoreFinds(snapshot, again, changes, forceAgain, index);
  }

  lemma RightNow(
    snapshot: Snapshot, start: Disk, d: Disk, changes: seq<Change>, change: Change, force: bool)
    requires Begun(start) && Kept(snapshot, start, d, changes, change.path)
    requires Consistent(snapshot, change) && Right(snapshot, start.nodes, change)
    ensures
      var outcome := RestoreOne(snapshot, d, change, force);
      outcome.result.status == (if Lookup(d.nodes, change.path).Denied? then Failed else AlreadyRestored)
  {
  }

  lemma {:induction false} PrefixResults(
    snapshot: Snapshot, start: Disk, changes: seq<Change>, force: bool, index: nat)
    requires index <= |changes|
    ensures
      RestoreAll(snapshot, start, changes[..index], force).results
      <= RestoreAll(snapshot, start, changes, force).results
    decreases |changes|
  {
    hide RestoreOne;
    if index < |changes| {
      var last := |changes| - 1;
      PrefixResults(snapshot, start, changes[..last], force, index);
      assert changes[..last][..index] == changes[..index];
    } else {
      assert changes[..index] == changes;
    }
  }

  /** Everything ends with a recorded mode: its own if it was left alone, the one before
      the session if it was restored or had to be made. The only exception are directories
      that the finish step could not reach, and these are reported as failed. */
  lemma PermissionsUpToReach(
    snapshot: Snapshot, start: Disk, changes: seq<Change>, force: bool, paths: seq<Path>, path: Path)
    requires Begun(start) && ChildrenFirst(changes)
    requires forall i :: 0 <= i < |changes| ==> Consistent(snapshot, changes[i])
    requires FinishOrder(RestoreAll(snapshot, start, changes, force).disk, paths)
    ensures
      var run := RestoreAll(snapshot, start, changes, force);
      var next := Finish(run, paths);
      && (Unreached(run, paths, path) ==> ReportedFailed(next.results, path))
      && (path in next.disk.nodes && !IsCopy(run.results, path) && !Unreached(run, paths, path) ==>
        var mode := next.disk.nodes[path].mode;
        if ReportedRestored(run.results, path) then
          exists i :: 0 <= i < |changes| && changes[i].path == path &&
            changes[i].before.Some? && mode == changes[i].before.value.mode
        else if path in start.nodes then mode == start.nodes[path].mode
        else path in snapshot.baseline && mode == snapshot.baseline[path].mode)
  {
    hide RestoreOne, Kept;
    var run := RestoreAll(snapshot, start, changes, force);
    var next := Finish(run, paths);
    UntouchedUpToReach(snapshot, start, changes, force, paths, path);
    ResultPaths(snapshot, start, changes, force);
    FinishedMode(run, paths, path);
    if path in next.disk.nodes && !IsCopy(run.results, path) && !Unreached(run, paths, path) {
      if i :| 0 <= i < |run.results| && run.results[i].path == path && run.results[i].status.Restored? {
        RightsUpToReach(snapshot, start, changes, force, paths, i);
        assert Right(snapshot, next.disk.nodes, changes[i]);
      }
    }
  }
}
