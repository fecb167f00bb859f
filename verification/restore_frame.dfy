/**
 What a restore leaves alone. For any files, any list of changes and with or
 without conflicts: a path not reported as restored is as it was, is a missing
 directory that had to be made, or is a fresh copy beside a conflict.
 */
module RestoreFrame {
  import opened Wrappers
  import opened FileTrees
  import opened Restoring
  import opened Sidecars

  ghost predicate AboveSome(changes: seq<Change>, path: Path) {
    exists i :: 0 <= i < |changes| && IsAbove(path, changes[i].path)
  }

  predicate IsCopy(results: seq<Result>, path: Path) {
    exists i :: 0 <= i < |results| && results[i].sidecar == Some(path)
  }

  predicate ReportedRestored(results: seq<Result>, path: Path) {
    exists i :: 0 <= i < |results| && results[i].path == path && results[i].status.Restored?
  }

  /** `path` is as it was in `start`, but for being held open for now; or it is a
      directory that was missing and had to be made, still to get its own mode. */
  ghost predicate Kept(snapshot: Snapshot, start: Disk, d: Disk, changes: seq<Change>, path: Path) {
    path !in d.finalized &&
    if path in start.nodes then
      && path in d.nodes && path !in d.created
      && d.nodes[path] == start.nodes[path].(mode := d.nodes[path].mode)
      && if path in d.temporary then
           && d.temporary[path] == EntryOf(start.nodes[path]) && start.nodes[path].kind.Directory?
           && d.nodes[path].mode == start.nodes[path].mode.Widened()
         else d.nodes[path] == start.nodes[path]
    else
      && path !in d.temporary
      && (path in d.nodes <==> path in d.created)
      && (path in d.nodes ==>
            && AboveSome(changes, path)
            && path in snapshot.baseline && snapshot.baseline[path].kind.Directory?
            && d.created[path] == snapshot.baseline[path]
            && d.nodes[path].kind.Directory? && d.nodes[path].mode == PRIVATE)
  }

  /** A restore starts without a record of earlier directories. */
  predicate Begun(d: Disk) {
    d.created == map[] && d.temporary == map[] && d.finalized == {}
  }

  lemma EnsureOneFrame(snapshot: Snapshot, start: Disk, d: Disk, changes: seq<Change>, above: Path, path: Path)
    requires Kept(snapshot, start, d, changes, path) && AboveSome(changes, above)
    ensures Kept(snapshot, start, EnsureOne(snapshot, d, above).disk, changes, path)
  {
  }

  lemma {:induction false} EnsureFrame(
    snapshot: Snapshot, start: Disk, d: Disk, changes: seq<Change>, above: Path, path: Path, index: nat)
    requires Kept(snapshot, start, d, changes, path)
    requires index < |changes| && IsAbove(above, changes[index].path)
    ensures Kept(snapshot, start, Ensure(snapshot, d, above).disk, changes, path)
  {
    hide Kept, EnsureOne;
    if above == [] {
      EnsureOneFrame(snapshot, start, d, changes, above, path);
    } else {
      AboveTrans(Parent(above), above, changes[index].path);
      EnsureFrame(snapshot, start, d, changes, Parent(above), path, index);
      EnsureOneFrame(snapshot, start, Ensure(snapshot, d, Parent(above)).disk, changes, above, path);
    }
  }

  lemma ObjectFrame(
    snapshot: Snapshot, start: Disk, d: Disk, changes: seq<Change>, index: nat, entry: Entry, path: Path)
    requires index < |changes| && Kept(snapshot, start, d, changes, path)
    ensures
      var attempt := RestoreObject(snapshot, d, changes[index].path, entry);
      path != changes[index].path || !attempt.ok ==> Kept(snapshot, start, attempt.disk, changes, path)
  {
    hide Ensure;
    var own := changes[index].path;
    if own != [] {
      EnsureFrame(snapshot, start, d, changes, Parent(own), path, index);
    }
  }

  lemma StepFrame(
    snapshot: Snapshot, start: Disk, d: Disk, changes: seq<Change>, index: nat, force: bool, path: Path)
    requires index < |changes| && Kept(snapshot, start, d, changes, path)
    ensures
      var outcome := RestoreOne(snapshot, d, changes[index], force);
      !(outcome.result.path == path && outcome.result.status.Restored?) && outcome.result.sidecar != Some(path) ==>
        Kept(snapshot, start, outcome.disk, changes, path)
  {
    hide RestoreObject, AlreadyRight, Conflicts, Sidecar, Lookup;
    var change := changes[index];
    if change.before.Some? {
      ObjectFrame(snapshot, start, d, changes, index, change.before.value, path);
    }
  }

  /** Nothing but what is reported as restored is touched, in any run. */
  lemma {:induction false} RunFrame(
    snapshot: Snapshot, start: Disk, changes: seq<Change>, force: bool, done: nat, path: Path)
    requires Begun(start) && done <= |changes|
    ensures
      var run := RestoreAll(snapshot, start, changes[..done], force);
      !ReportedRestored(run.results, path) && !IsCopy(run.results, path) ==>
        Kept(snapshot, start, run.disk, changes, path)
  {
    hide Kept, RestoreOne;
    if done == 0 {
      StartKept(snapshot, start, changes, path);
    } else {
      assert changes[..done][..done - 1] == changes[..done - 1];
      RunFrame(snapshot, start, changes, force, done - 1, path);
      var earlier := RestoreAll(snapshot, start, changes[..done - 1], force);
      var run := RestoreAll(snapshot, start, changes[..done], force);
      assert run.results == earlier.results + [RestoreOne(snapshot, earlier.disk, changes[done - 1], force).result];
      if !ReportedRestored(run.results, path) && !IsCopy(run.results, path) {
        Extends(earlier.results, run.results, path);
        StepFrame(snapshot, start, earlier.disk, changes, done - 1, force, path);
        assert run.results[done - 1].sidecar != Some(path);
        assert !(run.results[done - 1].path == path && run.results[done - 1].status.Restored?);
      }
    }
  }

  lemma StartKept(snapshot: Snapshot, start: Disk, changes: seq<Change>, path: Path)
    requires Begun(start)
    ensures Kept(snapshot, start, start, changes, path)
  {
  }

  lemma Extends(earlier: seq<Result>, results: seq<Result>, path: Path)
    requires earlier <= results
    ensures ReportedRestored(earlier, path) ==> ReportedRestored(results, path)
    ensures IsCopy(earlier, path) ==> IsCopy(results, path)
  {
  }

  /* After the directories in hand got their modes. */

  predicate ReportedFailed(results: seq<Result>, path: Path) {
    exists i :: 0 <= i < |results| && results[i].path == path && results[i].status.Failed?
  }

  lemma Attached(results: seq<Result>, failing: Path, path: Path)
    ensures ReportedFailed(Attach(results, failing), failing)
    ensures ReportedFailed(results, path) ==> ReportedFailed(Attach(results, failing), path)
  {
    var index := FirstResult(results, failing);
    var after := Attach(results, failing);
    assert after[index].path == failing && after[index].status.Failed?;
    if i :| 0 <= i < |results| && results[i].path == path && results[i].status.Failed? {
      assert after[i].path == path && after[i].status.Failed?;
    }
  }

  /** The finish step came to the directory and could not look at it. */
  predicate Unreached(run: Run, paths: seq<Path>, path: Path)
    requires AllInHand(run.disk, paths)
  {
    paths != [] &&
    var last := |paths| - 1;
    Unreached(run, paths[..last], path) ||
    (paths[last] == path && !Lookup(Finish(run, paths[..last]).disk.nodes, path).Present?)
  }

  /** What finishing leaves of a path: its node with its final mode, or, if the finish
      step did not reach it, the node as it was and a reported failure. */
  ghost predicate Settles(run: Run, next: Run, path: Path, done: bool, unreached: bool) {
    && (path in run.disk.nodes <==> path in next.disk.nodes)
    && (path in run.disk.nodes ==>
          next.disk.nodes[path] == run.disk.nodes[path].(mode := next.disk.nodes[path].mode))
    && (if done && !unreached then path in next.disk.nodes ==> next.disk.nodes[path].mode == FinalMode(run.disk, path)
        else Get(next.disk.nodes, path) == Get(run.disk.nodes, path))
    && (unreached ==> done && ReportedFailed(next.results, path))
    && next.disk.(nodes := run.disk.nodes) == run.disk
  }

  function FinalMode(d: Disk, path: Path): Mode
    requires path in d.nodes
  {
    if path in Unfinished(d) then FinalEntry(d, path).mode else d.nodes[path].mode
  }

  lemma FinishOneSettles(run: Run, next: Run, failing: Path, path: Path, done: bool, unreached: bool)
    requires Settles(run, next, path, done, unreached)
    requires failing in Unfinished(run.disk) && (done ==> failing != path)
    ensures
      Settles(run, FinishOne(next, failing, FinalEntry(run.disk, failing).mode), path, done || failing == path,
              unreached || (failing == path && !Lookup(next.disk.nodes, path).Present?))
  {
    Attached(next.results, failing, path);
  }

  lemma {:induction false} FinishSettles(run: Run, paths: seq<Path>, path: Path)
    requires AllInHand(run.disk, paths)
    requires forall i, j :: 0 <= i < j < |paths| ==> paths[i] != paths[j]
    ensures Settles(run, Finish(run, paths), path, path in paths, Unreached(run, paths, path))
  {
    if paths != [] {
      var last := |paths| - 1;
      FinishSettles(run, paths[..last], path);
      hide Settles, FinishOne, Lookup;
      assert path in paths <==> path in paths[..last] || path == paths[last];
      assert path in paths[..last] ==> paths[last] != path;
      FinishOneSettles(
        run, Finish(run, paths[..last]), paths[last], path, path in paths[..last], Unreached(run, paths[..last], path));
    }
  }

  lemma FinishedMode(run: Run, paths: seq<Path>, path: Path)
    requires FinishOrder(run.disk, paths)
    ensures Settles(run, Finish(run, paths), path, path in Unfinished(run.disk), Unreached(run, paths, path))
  {
    assert AllInHand(run.disk, paths);
    FinishSettles(run, paths, path);
  }

  /** The path ends exactly as it was. If it was missing it still is, or it is a directory
      made for a path below it, with the mode it had before the session. Only the mode of
      a directory that the finish step could not reach may be another. */
  predicate Untouched(snapshot: Snapshot, start: Tree, nodes: Tree, changes: seq<Change>, path: Path, unreached: bool) {
    if path in start then
      && path in nodes
      && (nodes[path] == start[path] ||
          (unreached && start[path].kind.Directory? && nodes[path] == start[path].(mode := nodes[path].mode)))
    else
      path in nodes ==>
        && (exists i :: 0 <= i < |changes| && IsAbove(path, changes[i].path))
        && path in snapshot.baseline && snapshot.baseline[path].kind.Directory? && nodes[path].kind.Directory?
        && (nodes[path].mode == snapshot.baseline[path].mode || unreached)
  }

  /** Whatever conflicts there are, only paths reported as restored and copies beside
      conflicts differ from what was there; a mode that could not be set is reported. */
  lemma UntouchedUpToReach(
    snapshot: Snapshot, start: Disk, changes: seq<Change>, force: bool, paths: seq<Path>, path: Path)
    requires Begun(start)
    requires FinishOrder(RestoreAll(snapshot, start, changes, force).disk, paths)
    ensures
      var run := RestoreAll(snapshot, start, changes, force);
      var next := Finish(run, paths);
      && (!ReportedRestored(run.results, path) && (path in start.nodes || !IsCopy(run.results, path)) ==>
            Untouched(snapshot, start.nodes, next.disk.nodes, changes, path, Unreached(run, paths, path)))
      && (Unreached(run, paths, path) ==> ReportedFailed(next.results, path))
  {
    hide RestoreOne;
    assert changes[..|changes|] == changes;
    RunFrame(snapshot, start, changes, force, |changes|, path);
    if path in start.nodes {
      NoCopy(snapshot, start, changes, force, path);
    }
    FinishedMode(RestoreAll(snapshot, start, changes, force), paths, path);
  }

  /* Conflicts. */

  lemma {:induction false} ResultPaths(snapshot: Snapshot, start: Disk, changes: seq<Change>, force: bool)
    ensures forall i :: 0 <= i < |changes| ==> RestoreAll(snapshot, start, changes, force).results[i].path == changes[i].path
  {
    if changes != [] {
      hide RestoreObject, Refuse, Remove, AlreadyRight, Conflicts;
      ResultPaths(snapshot, start, changes[..|changes| - 1], force);
      OwnPath(snapshot, RestoreAll(snapshot, start, changes[..|changes| - 1], force).disk, changes[|changes| - 1], force);
    }
  }

  lemma RefuseStatus(snapshot: Snapshot, d: Disk, change: Change)
    ensures
      var result := Refuse(snapshot, d, change).result;
      result.path == change.path && (result.status.Refused? || result.status.Unending?)
  {
    hide Sidecar;
  }

  lemma OwnPath(snapshot: Snapshot, d: Disk, change: Change, force: bool)
    ensures RestoreOne(snapshot, d, change, force).result.path == change.path
  {
    RefuseStatus(snapshot, d, change);
    hide Refuse;
  }

  /** Copies are only ever written where nothing is. */
  lemma CopyFresh(snapshot: Snapshot, d: Disk, change: Change, force: bool)
    ensures
      var copy := RestoreOne(snapshot, d, change, force).result.sidecar;
      copy.Some? ==> copy.value !in d.nodes
  {
    SidecarFree(d.nodes, change.path, snapshot.id);
    hide Sidecar, RestoreObject, AlreadyRight, Conflicts, Lookup, Writable;
  }

  /** Until its own turn, a path that exists stays as it was. */
  lemma {:induction false} WaitingKept(
    snapshot: Snapshot, start: Disk, changes: seq<Change>, force: bool, done: nat, path: Path)
    requires Begun(start) && done <= |changes| && path in start.nodes
    requires forall i :: 0 <= i < done ==> changes[i].path != path
    ensures
      var run := RestoreAll(snapshot, start, changes[..done], force);
      Kept(snapshot, start, run.disk, changes, path) && !IsCopy(run.results, path)
  {
    hide RestoreOne;
    if done == 0 {
      StartKept(snapshot, start, changes, path);
    } else {
      assert changes[..done][..done - 1] == changes[..done - 1];
      WaitingKept(snapshot, start, changes, force, done - 1, path);
      var earlier := RestoreAll(snapshot, start, changes[..done - 1], force);
      OwnPath(snapshot, earlier.disk, changes[done - 1], force);
      CopyFresh(snapshot, earlier.disk, changes[done - 1], force);
      StepFrame(snapshot, start, earlier.disk, changes, done - 1, force, path);
    }
  }

  /** The current entry is neither what the session left nor what was there before it. */
  predicate ChangedSince(snapshot: Snapshot, d: Disk, change: Change) {
    Conflicts(d, change) && !AlreadyRight(snapshot, d, change)
  }

  lemma WaitingComparable(snapshot: Snapshot, start: Disk, d: Disk, changes: seq<Change>, change: Change)
    requires Begun(start) && change.path in start.nodes && Kept(snapshot, start, d, changes, change.path)
    ensures ChangedSince(snapshot, d, change) <==> ChangedSince(snapshot, start, change)
    ensures AlreadyRight(snapshot, d, change) <==> AlreadyRight(snapshot, start, change)
  {
  }

  /** Without force, a path that changed since the session is never overwritten; at most
      a directory is left open when the finish step cannot reach it. */
  lemma SurvivesUpToReach(
    snapshot: Snapshot, start: Disk, changes: seq<Change>, paths: seq<Path>, index: nat)
    requires Begun(start) && DistinctPaths(changes) && index < |changes|
    requires changes[index].path in start.nodes && ChangedSince(snapshot, start, changes[index])
    requires FinishOrder(RestoreAll(snapshot, start, changes, false).disk, paths)
    ensures
      var run := RestoreAll(snapshot, start, changes, false);
      var nodes := Finish(run, paths).disk.nodes;
      var path := changes[index].path;
      && path in nodes
      && (nodes[path] == start.nodes[path] ||
          (Unreached(run, paths, path) && start.nodes[path].kind.Directory? &&
           nodes[path] == start.nodes[path].(mode := nodes[path].mode)))
  {
    hide RestoreOne, Kept, Conflicts, AlreadyRight, Unreached, Finish;
    var path := changes[index].path;
    WaitingKept(snapshot, start, changes, false, index, path);
    var d := RestoreAll(snapshot, start, changes[..index], false).disk;
    WaitingComparable(snapshot, start, d, changes, changes[index]);
    NotRestored(snapshot, d, changes[index]);
    AllResults(snapshot, start, changes, false, index);
    ResultPaths(snapshot, start, changes, false);
    assert !ReportedRestored(RestoreAll(snapshot, start, changes, false).results, path);
    UntouchedUpToReach(snapshot, start, changes, false, paths, path);
  }

  lemma NotRestored(snapshot: Snapshot, d: Disk, change: Change)
    requires ChangedSince(snapshot, d, change)
    ensures !RestoreOne(snapshot, d, change, false).result.status.Restored?
  {
  }

  /** Each result is that of its own step. */
  lemma {:induction false} AllResults(snapshot: Snapshot, start: Disk, changes: seq<Change>, force: bool, index: nat)
    requires index < |changes|
    ensures
      var d := RestoreAll(snapshot, start, changes[..index], force).disk;
      RestoreAll(snapshot, start, changes, force).results[index]
      == RestoreOne(snapshot, d, changes[index], force).result
    decreases |changes|
  {
    hide RestoreOne;
    var last := |changes| - 1;
    if index < last {
      AllResults(snapshot, start, changes[..last], force, index);
      assert changes[..last][..index] == changes[..index];
    }
  }

  /** A path that exists and is not restored is never taken for a copy. */
  lemma {:induction false} NoCopy(snapshot: Snapshot, start: Disk, changes: seq<Change>, force: bool, path: Path)
    requires Begun(start) && path in start.nodes
    ensures
      var run := RestoreAll(snapshot, start, changes, force);
      !ReportedRestored(run.results, path) ==> !IsCopy(run.results, path) && path in run.disk.nodes
    decreases |changes|
  {
    hide RestoreOne, Kept;
    if changes != [] {
      var last := |changes| - 1;
      NoCopy(snapshot, start, changes[..last], force, path);
      var earlier := RestoreAll(snapshot, start, changes[..last], force);
      var run := RestoreAll(snapshot, start, changes, force);
      if !ReportedRestored(run.results, path) {
        Extends(earlier.results, run.results, path);
        CopyFresh(snapshot, earlier.disk, changes[last], force);
        assert run.results[last] == RestoreOne(snapshot, earlier.disk, changes[last], force).result;
        RunFrame(snapshot, start, changes, force, |changes|, path);
        assert changes[..|changes|] == changes;
        KeptThere(snapshot, start, run.disk, changes, path);
      }
    }
  }

  lemma KeptThere(snapshot: Snapshot, start: Disk, d: Disk, changes: seq<Change>, path: Path)
    requires Kept(snapshot, start, d, changes, path) && path in start.nodes
    ensures path in d.nodes
  {
  }
}
