/**
 Restoring without force: where the session's version is still there, force would change
 nothing; where it is not, the path is left alone and, if that can be done, the version of
 before the session is put beside it, where it stays.
 */
module RestoreConflicts {
  import opened Wrappers
  import opened FileTrees
  import opened Sidecars
  import opened Restoring
  import opened RestoreFrame
  import opened RestoreAgain
  import opened RestoreSteps
  import opened RestoreReach
  import opened ForcedRestore

  /** The path still holds what the session left: of a directory only the mode counts. */
  predicate AsLeft(nodes: Tree, change: Change) {
    match change.after
    case None => change.path !in nodes
    case Some(left) =>
      change.path in nodes &&
      var node := nodes[change.path];
      && node.kind == left.kind && node.mode == left.mode
      && (node.kind.Directory? ||
          (node.stamp == left.stamp
           && left.size == (if node.kind.File? then |node.content| else 0)
           && left.target == (if node.kind.Symlink? then node.content else "")))
  }

  /** The files with the directories that are held open for now as they were. */
  function Closed(d: Disk): Tree {
    map path | path in d.nodes ::
      if path in d.temporary && d.nodes[path].kind.Directory? then d.nodes[path].(mode := d.temporary[path].mode)
      else d.nodes[path]
  }

  /** What is remembered of a directory is the directory but for its mode. */
  predicate Remembered(d: Disk, path: Path) {
    path in d.nodes && path in d.temporary ==>
      d.nodes[path].kind.Directory? && SameButMode(d.temporary[path], d.nodes[path])
  }

  lemma ComparedAs(snapshot: Snapshot, d: Disk, change: Change)
    requires Remembered(d, change.path) && change.path !in d.created && Consistent(snapshot, change)
    ensures Conflicts(d, change) <==> !AsLeft(Closed(d), change)
    ensures AlreadyRight(snapshot, d, change) ==> AsBefore(snapshot, Closed(d), change)
  {
  }

  /** Where the session's version is still there, and for a directory that had to be made,
      force plays no part. */
  lemma ForceOnlyForConflicts(snapshot: Snapshot, d: Disk, change: Change)
    requires Remembered(d, change.path) && Consistent(snapshot, change)
    requires if change.path in d.created then change.before.Some? && change.before.value.kind.Directory?
             else AsLeft(Closed(d), change)
    ensures RestoreOne(snapshot, d, change, false) == RestoreOne(snapshot, d, change, true)
  {
    if change.path !in d.created {
      ComparedAs(snapshot, d, change);
    }
    hide AlreadyRight, Lookup, RestoreObject, Refuse, Remove, AsLeft, Closed, Consistent;
  }

  /** The version of before the session can be put in a place of its own. */
  predicate Copyable(snapshot: Snapshot, nodes: Tree, change: Change) {
    && change.before.Some? && change.path != [] && Writable(nodes, change.path)
    && !change.before.value.kind.Other?
    && (change.before.value.kind.Directory? || change.path in snapshot.contents)
  }

  /** `copy` stands beside the path and holds what that held before the session; of a
      directory, its mode. */
  predicate CopyOf(snapshot: Snapshot, nodes: Tree, change: Change, copy: Path) {
    && change.path != [] && copy != [] && Parent(copy) == Parent(change.path)
    && change.before.Some? && copy in nodes
    && nodes[copy].kind == change.before.value.kind && nodes[copy].mode == change.before.value.mode
    && (change.before.value.kind.File? || change.before.value.kind.Symlink? ==>
          change.path in snapshot.contents && nodes[copy].content == snapshot.contents[change.path])
  }

  /** A refusal changes nothing but that a copy is put in a place where nothing was, if
      there is a version of before the session that can be written there. */
  ghost predicate Refuses(snapshot: Snapshot, d: Disk, change: Change, outcome: Outcome) {
    var copy := outcome.result.sidecar;
    && (outcome.result.status.Refused? || outcome.result.status.Unending?)
    && (outcome.result.status.Refused? ==> (copy.Some? <==> Copyable(snapshot, d.nodes, change)))
    && (outcome.result.status.Unending? ==> copy.None? && change.path != [] && change.before.Some?)
    && (copy.None? ==> outcome.disk == d)
    && (copy.Some? ==>
          && copy.value !in d.nodes && CopyOf(snapshot, outcome.disk.nodes, change, copy.value)
          && outcome.disk.nodes - {copy.value} == d.nodes
          && outcome.disk == d.(nodes := outcome.disk.nodes, clock := outcome.disk.clock))
  }

  /** A path that holds neither what the session left nor what was there before it is left
      alone. */
  lemma ConflictExactly(snapshot: Snapshot, d: Disk, change: Change)
    requires Remembered(d, change.path) && Consistent(snapshot, change) && change.path !in d.created
    requires !Lookup(d.nodes, change.path).Denied?
    requires !AsLeft(Closed(d), change) && !AsBefore(snapshot, Closed(d), change)
    ensures Refuses(snapshot, d, change, RestoreOne(snapshot, d, change, false))
  {
    hide AlreadyRight, Lookup, Conflicts, AsLeft, Closed, AsBefore, Consistent, Refuses, Refuse;
    ComparedAs(snapshot, d, change);
    RefuseExactly(snapshot, d, change);
    hide RestoreObject, Remove;
  }

  lemma RefuseExactly(snapshot: Snapshot, d: Disk, change: Change)
    requires Consistent(snapshot, change)
    ensures Refuses(snapshot, d, change, Refuse(snapshot, d, change))
  {
    hide Sidecar, Writable;
    SidecarFree(d.nodes, change.path, snapshot.id);
    SidecarBeside(d.nodes, change.path, snapshot.id);
  }

  lemma SidecarBeside(nodes: Tree, path: Path, id: string)
    ensures
      var copy := Sidecar(nodes, path, id);
      copy.Some? ==>
        && path != [] && copy.value != [] && Parent(copy.value) == Parent(path)
        && (Writable(nodes, copy.value) <==> Writable(nodes, path))
  {
    hide Search, Lookup;
  }

  /* A whole restore. */

  lemma SidecarMeansRefusal(snapshot: Snapshot, d: Disk, change: Change, force: bool)
    ensures
      var outcome := RestoreOne(snapshot, d, change, force);
      outcome.result.sidecar.Some? ==>
        !force && outcome == Refuse(snapshot, d, change) && outcome.result.sidecar.value in outcome.disk.nodes
  {
    hide RestoreObject, AlreadyRight, Conflicts, Lookup, Sidecar, Writable;
  }

  /** No change works on the path or below it. */
  ghost predicate Aside(changes: seq<Change>, path: Path) {
    forall i :: 0 <= i < |changes| ==> changes[i].path != path && !IsAbove(path, changes[i].path)
  }

  lemma {:induction false} CopyStands(
    snapshot: Snapshot, start: Disk, changes: seq<Change>, copy: Path, first: nat, done: nat)
    requires first <= done <= |changes| && Aside(changes, copy)
    requires copy in RestoreAll(snapshot, start, changes[..first], false).disk.nodes
    ensures
      SamePlace(RestoreAll(snapshot, start, changes[..first], false).disk,
                RestoreAll(snapshot, start, changes[..done], false).disk, copy)
    decreases done
  {
    hide RestoreOne;
    if first < done {
      CopyStands(snapshot, start, changes, copy, first, done - 1);
      assert changes[..done][..done - 1] == changes[..done - 1];
      var d := RestoreAll(snapshot, start, changes[..done - 1], false).disk;
      StepElsewhere(snapshot, d, changes[done - 1], false, copy);
      CopyFresh(snapshot, d, changes[done - 1], false);
    }
  }

  lemma {:induction false} CopiesStand(
    snapshot: Snapshot, start: Disk, changes: seq<Change>, copy: Path, done: nat)
    requires done <= |changes| && Aside(changes, copy)
    ensures
      var run := RestoreAll(snapshot, start, changes[..done], false);
      IsCopy(run.results, copy) ==> copy in run.disk.nodes
    decreases done
  {
    hide RestoreOne, SamePlace;
    if done > 0 {
      var earlier := RestoreAll(snapshot, start, changes[..done - 1], false);
      var run := RestoreAll(snapshot, start, changes[..done], false);
      CopiesStand(snapshot, start, changes, copy, done - 1);
      assert changes[..done][..done - 1] == changes[..done - 1];
      SidecarMeansRefusal(snapshot, earlier.disk, changes[done - 1], false);
      if IsCopy(earlier.results, copy) {
        CopyStands(snapshot, start, changes, copy, done - 1, done);
        Standing(earlier.disk, run.disk, copy);
      } else if IsCopy(run.results, copy) {
        assert run.results[done - 1].sidecar == Some(copy);
      }
    }
  }

  lemma Standing(d: Disk, e: Disk, path: Path)
    requires SamePlace(d, e, path) && path in d.nodes
    ensures path in e.nodes
  {
  }

  /** Just written, a copy is no directory in hand. */
  lemma CopyWritten(snapshot: Snapshot, start: Disk, changes: seq<Change>, index: nat, copy: Path)
    requires Begun(start) && index < |changes| && Consistent(snapshot, changes[index]) && Aside(changes, copy)
    requires RestoreAll(snapshot, start, changes[..index + 1], false).results[index].sidecar == Some(copy)
    ensures
      var d := RestoreAll(snapshot, start, changes[..index + 1], false).disk;
      CopyOf(snapshot, d.nodes, changes[index], copy) && copy !in Unfinished(d)
  {
    hide RestoreOne, Refuse, CopyOf, Kept, IsAbove;
    assert changes[..index + 1][..index] == changes[..index];
    var earlier := RestoreAll(snapshot, start, changes[..index], false);
    var outcome := RestoreOne(snapshot, earlier.disk, changes[index], false);
    SidecarMeansRefusal(snapshot, earlier.disk, changes[index], false);
    RefuseExactly(snapshot, earlier.disk, changes[index]);
    CopiesStand(snapshot, start, changes, copy, index);
    RunFrame(snapshot, start, changes, false, index, copy);
    ResultPaths(snapshot, start, changes[..index], false);
    KeptAbsent(snapshot, start, earlier.disk, changes, copy);
  }

  lemma KeptAbsent(snapshot: Snapshot, start: Disk, d: Disk, changes: seq<Change>, path: Path)
    requires Kept(snapshot, start, d, changes, path) && path !in d.nodes
    ensures path !in Unfinished(d)
  {
  }

  /** A copy reported beside a conflict is there when the command ends, and holds what the
      path held before the session. */
  lemma CopiesStay(
    snapshot: Snapshot, start: Disk, changes: seq<Change>, paths: seq<Path>, index: nat, copy: Path)
    requires Begun(start) && index < |changes| && Consistent(snapshot, changes[index]) && Aside(changes, copy)
    requires RestoreAll(snapshot, start, changes, false).results[index].sidecar == Some(copy)
    requires FinishOrder(RestoreAll(snapshot, start, changes, false).disk, paths)
    ensures
      var next := Finish(RestoreAll(snapshot, start, changes, false), paths);
      CopyOf(snapshot, next.disk.nodes, changes[index], copy)
  {
    hide RestoreOne, Kept, IsAbove;
    var run := RestoreAll(snapshot, start, changes, false);
    PrefixResults(snapshot, start, changes, false, index + 1);
    CopyWritten(snapshot, start, changes, index, copy);
    CopyStands(snapshot, start, changes, copy, index + 1, |changes|);
    assert changes[..|changes|] == changes;
    FinishedMode(run, paths, copy);
  }

  /** Without force a path that holds neither what the session left nor what was there
      before it ends exactly as it was, and is reported as refused, unless it cannot be
      looked at or its copy finds no name. */
  lemma ForeignSurvives(
    snapshot: Snapshot, start: Disk, changes: seq<Change>, paths: seq<Path>, index: nat)
    requires Sound(snapshot, start, changes) && DistinctPaths(changes) && index < |changes|
    requires Consistent(snapshot, changes[index]) && changes[index].path in start.nodes
    requires !AsLeft(start.nodes, changes[index]) && !AsBefore(snapshot, start.nodes, changes[index])
    requires FinishOrder(RestoreAll(snapshot, start, changes, false).disk, paths)
    ensures
      var run := RestoreAll(snapshot, start, changes, false);
      var turn := RestoreAll(snapshot, start, changes[..index], false).disk;
      && Get(Finish(run, paths).disk.nodes, changes[index].path) == Get(start.nodes, changes[index].path)
      && var result := run.results[index];
         if Lookup(turn.nodes, changes[index].path).Denied? then result.status.Failed?
         else
           && (result.status.Refused? || result.status.Unending?)
           && (result.status.Refused? ==> (result.sidecar.Some? <==> Copyable(snapshot, turn.nodes, changes[index])))
  {
    var change, turn := changes[index], RestoreAll(snapshot, start, changes[..index], false).disk;
    ClosedStart(start);
    ComparedAs(snapshot, start, change);
    hide RestoreAll, AsLeft, AsBefore, Closed, Consistent, TreeShaped, Open, AllFromBaseline, Kept;
    assert ChangedSince(snapshot, start, change);
    NeverOverwritten(snapshot, start, changes, paths, index);
    AllResults(snapshot, start, changes, false, index);
    WaitingKept(snapshot, start, changes, false, index, change.path);
    WaitingComparable(snapshot, start, turn, changes, change);
    hide Conflicts, AlreadyRight, Finish, Lookup, RestoreObject, Remove;
    RefuseExactly(snapshot, turn, change);
  }

  lemma ClosedStart(start: Disk)
    requires Begun(start)
    ensures Closed(start) == start.nodes
  {
  }
}
