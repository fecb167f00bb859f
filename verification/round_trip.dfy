/**
 Restoring a selection of a session's changes gives back exactly what was there
 before the session, and leaves everything else as the session left it. It succeeds
 exactly if every change fits its turn; the first that does not is the first failure.
 */
module RoundTrip {
  import opened Wrappers
  import opened FileTrees
  import opened Restoring
  import opened RestoreFrame
  import opened RestoreAgain
  import opened RestoreSteps

  /* The whole run. */

  function Paths(changes: seq<Change>): set<Path> {
    set i | 0 <= i < |changes| :: changes[i].path
  }

  ghost predicate Selected(s: Session, changes: seq<Change>) {
    && Recorded(s) && ChildrenFirst(changes) && s.listed == Paths(changes)
    && forall i :: 0 <= i < |changes| ==> Accurate(s, changes[i])
  }

  /** Nothing has been restored yet. */
  ghost predicate Sealed(s: Session, d: Disk) {
    d.nodes == s.after && d.created == map[] && d.temporary == map[] && d.finalized == {}
  }

  lemma SealedMid(s: Session, d: Disk)
    requires Recorded(s) && Sealed(s, d)
    ensures Mid(s, d, s.listed)
  {
  }

  /** The paths rewritten by the first `done` changes. */
  ghost function HeldBy(s: Session, changes: seq<Change>, done: nat): set<Path>
    requires done <= |changes|
  {
    set i | 0 <= i < done && Rewritten(s, changes[i].path) :: changes[i].path
  }

  ghost predicate FitsTurn(s: Session, changes: seq<Change>, index: nat)
    requires index < |changes|
  {
    Fits(s, HeldBy(s, changes, index), changes[index].path)
  }

  /** The first `done` changes fit their turns. */
  ghost predicate AllFit(s: Session, changes: seq<Change>, done: nat)
    requires done <= |changes|
  {
    forall i :: 0 <= i < done ==> FitsTurn(s, changes, i)
  }

  lemma {:induction false} PrefixMid(s: Session, d: Disk, changes: seq<Change>, force: bool, done: nat)
    requires Selected(s, changes) && Sealed(s, d) && done <= |changes| && AllFit(s, changes, done)
    ensures
      var run := RestoreAll(s.snapshot, d, changes[..done], force);
      && Mid(s, run.disk, Paths(changes[done..])) && HeldOpen(s, run.disk, HeldBy(s, changes, done))
      && forall i :: 0 <= i < done ==> Success(run.results[i].status)
    decreases done
  {
    hide Recorded, Mid, RestoreOne, Fits, Rewritten, Accurate, Success;
    if done == 0 {
      assert changes[0..] == changes;
      SealedMid(s, d);
    } else {
      hide HeldOpen, Lowest;
      var change := changes[done - 1];
      PrefixMid(s, d, changes, force, done - 1);
      assert changes[..done][..done - 1] == changes[..done - 1];
      NextPending(changes, done - 1);
      hide ChildrenFirst;
      var held := HeldBy(s, changes, done - 1);
      assert HeldBy(s, changes, done) == NowHeld(s, held, change.path);
      assert FitsTurn(s, changes, done - 1);
      var earlier := RestoreAll(s.snapshot, d, changes[..done - 1], force).disk;
      StepReverts(s, earlier, Paths(changes[done - 1..]), held, change, force);
    }
  }

  /** As long as everything fits, the next change succeeds exactly if it fits too. */
  lemma NextExactly(s: Session, d: Disk, changes: seq<Change>, force: bool, index: nat)
    requires Selected(s, changes) && Sealed(s, d) && index < |changes| && AllFit(s, changes, index)
    ensures
      var run := RestoreAll(s.snapshot, d, changes, force);
      && (forall i :: 0 <= i < index ==> Success(run.results[i].status))
      && (Success(run.results[index].status) <==> FitsTurn(s, changes, index))
  {
    hide Recorded, Mid, HeldOpen, RestoreOne, Fits;
    PrefixMid(s, d, changes, force, index);
    NextPending(changes, index);
    var earlier := RestoreAll(s.snapshot, d, changes[..index], force);
    var pending, held := Paths(changes[index..]), HeldBy(s, changes, index);
    if FitsTurn(s, changes, index) {
      StepReverts(s, earlier.disk, pending, held, changes[index], force);
    } else {
      StepFails(s, earlier.disk, pending, held, changes[index], force);
    }
    AllResults(s.snapshot, d, changes, force, index);
    PrefixResults(s.snapshot, d, changes, force, index);
  }

  lemma NextPending(changes: seq<Change>, index: nat)
    requires index < |changes| && ChildrenFirst(changes)
    ensures
      var pending := Paths(changes[index..]);
      && changes[index].path in pending
      && Lowest(pending, changes[index].path)
      && pending - {changes[index].path} == Paths(changes[index + 1..])
  {
  }

  /* Finishing. */

  ghost predicate AllReachable(s: Session) {
    forall path :: path in s.listed ==> Reachable(s.after, path)
  }

  /** A directory with entries can be searched once it has its final mode. */
  lemma ViewSearchable(s: Session, d: Disk, path: Path)
    requires Recorded(s) && Mid(s, d, {}) && path in d.nodes && path != [] && AllReachable(s)
    ensures Parent(path) in d.nodes && ViewMode(d, Parent(path)).searchable
  {
    var above := Parent(path);
    assert IsAbove(above, path);
    assert Holds(d.nodes, above);
    assert Settled(s, d, {}, path) && Settled(s, d, {}, above);
    assert above in s.listed ==> Closed(s, above);
    assert path in s.listed ==> Reachable(s.after, path);
    assert path in s.before ==> Holds(s.before, above);
    assert path in s.after ==> Holds(s.after, above);
  }

  /** The nodes of `d` with the final modes of the directories in `done`. */
  ghost predicate FinishedWith(d: Disk, nodes: Tree, done: set<Path>) {
    && nodes.Keys == d.nodes.Keys
    && forall path :: path in nodes ==>
         nodes[path] == d.nodes[path].(mode := if path in done then ViewMode(d, path) else d.nodes[path].mode)
  }

  lemma FinishOneKeeps(s: Session, d: Disk, run: Run, done: set<Path>, path: Path)
    requires Recorded(s) && Mid(s, d, {}) && path in Unfinished(d) && AllReachable(s)
    requires Rooted(run.disk.nodes) && FinishedWith(d, run.disk.nodes, done)
    ensures
      var next := FinishOne(run, path, FinalEntry(d, path).mode);
      && next == run.(disk := run.disk.(nodes := next.disk.nodes))
      && Rooted(next.disk.nodes) && FinishedWith(d, next.disk.nodes, done + {path})
  {
    UnfinishedThere(s, d, path);
    LookupPresent(run.disk.nodes, path);
    RootedFinished(s, d, run.disk.nodes, done, path);
    hide Mid, Recorded, Lookup, Rooted;
  }

  lemma RootedFinished(s: Session, d: Disk, nodes: Tree, done: set<Path>, path: Path)
    requires Recorded(s) && Mid(s, d, {}) && path in Unfinished(d) && path in nodes && AllReachable(s)
    requires Rooted(nodes) && FinishedWith(d, nodes, done)
    ensures path in d.nodes && Rooted(nodes[path := nodes[path].(mode := ViewMode(d, path))])
  {
    UnfinishedThere(s, d, path);
    hide Mid, Recorded, Unfinished, Lookup;
    if child :| child in nodes && child != [] && Parent(child) == path {
      ViewSearchable(s, d, child);
    }
    RootedChanged(nodes, path, nodes[path].(mode := ViewMode(d, path)));
  }

  lemma UnfinishedThere(s: Session, d: Disk, path: Path)
    requires Mid(s, d, {}) && path in Unfinished(d)
    ensures path in d.nodes && d.nodes[path].kind.Directory? && FinalEntry(d, path).mode == ViewMode(d, path)
  {
    assert Settled(s, d, {}, path) && InHand(s, d, path);
  }

  lemma {:induction false} FinishViews(s: Session, run: Run, paths: seq<Path>)
    requires Recorded(s) && Mid(s, run.disk, {}) && AllInHand(run.disk, paths) && AllReachable(s)
    ensures
      var next := Finish(run, paths);
      && next == run.(disk := run.disk.(nodes := next.disk.nodes))
      && Rooted(next.disk.nodes) && FinishedWith(run.disk, next.disk.nodes, set path | path in paths)
  {
    hide Recorded;
    if paths == [] {
      assert Rooted(run.disk.nodes);
    } else {
      hide Mid, FinishOne;
      var last := |paths| - 1;
      FinishViews(s, run, paths[..last]);
      var done := set path | path in paths[..last];
      assert done + {paths[last]} == set path | path in paths;
      FinishOneKeeps(s, run.disk, Finish(run, paths[..last]), done, paths[last]);
    }
  }

  lemma FinalView(s: Session, d: Disk, nodes: Tree, path: Path)
    requires FinishedWith(d, nodes, Unfinished(d))
    ensures Get(nodes, path) == View(d, path)
  {
  }

  lemma NeededCreated(s: Session, d: Disk, path: Path)
    requires Recorded(s) && Mid(s, d, {}) && path !in s.listed && Needed(s, path)
    ensures path in d.created
  {
    var listed :| listed in s.listed && listed in s.before && Within(listed, path);
    assert Settled(s, d, {}, listed) && Settled(s, d, {}, path);
    RootedAbove(d.nodes, path, listed);
  }

  ghost predicate Reverted(s: Session, nodes: Tree, path: Path) {
    if path in s.listed || Needed(s, path) then Similar(Get(nodes, path), Get(s.before, path))
    else Intact(Get(nodes, path), Get(s.after, path))
  }

  lemma ViewReverted(s: Session, d: Disk, nodes: Tree, path: Path)
    requires Recorded(s) && Mid(s, d, {}) && FinishedWith(d, nodes, Unfinished(d))
    ensures Reverted(s, nodes, path)
  {
    FinalView(s, d, nodes, path);
    if path !in s.listed && Needed(s, path) {
      NeededCreated(s, d, path);
    }
    assert Settled(s, d, {}, path);
  }

  /** Finishing turns no failure into a success. */
  lemma {:induction false} StaysFailed(run: Run, paths: seq<Path>, index: nat)
    requires AllInHand(run.disk, paths) && index < |run.results| && !Success(run.results[index].status)
    ensures
      var results := Finish(run, paths).results;
      index < |results| && !Success(results[index].status)
  {
    if paths != [] {
      StaysFailed(run, paths[..|paths| - 1], index);
      hide Lookup;
    }
  }

  lemma FittingReachable(s: Session, changes: seq<Change>)
    requires s.listed == Paths(changes) && AllFit(s, changes, |changes|)
    ensures AllReachable(s)
  {
    forall path | path in s.listed
      ensures Reachable(s.after, path)
    {
      var i :| 0 <= i < |changes| && changes[i].path == path;
      assert FitsTurn(s, changes, i);
    }
  }

  /** The first change that does not fit its turn, if any. */
  lemma {:induction false} FirstMisfit(s: Session, changes: seq<Change>, done: nat) returns (index: nat)
    requires done <= |changes| && !AllFit(s, changes, done)
    ensures index < done && AllFit(s, changes, index) && !FitsTurn(s, changes, index)
  {
    hide FitsTurn;
    index := done - 1;
    if !AllFit(s, changes, done - 1) {
      index := FirstMisfit(s, changes, done - 1);
    }
  }

  /** Before the directories in hand are finished with, already, everything succeeded if
      and only if everything fits. */
  lemma SelectionExactly(s: Session, d: Disk, changes: seq<Change>, force: bool)
    requires Selected(s, changes) && Sealed(s, d)
    ensures
      var results := RestoreAll(s.snapshot, d, changes, force).results;
      (forall i :: 0 <= i < |results| ==> Success(results[i].status)) <==> AllFit(s, changes, |changes|)
  {
    hide Mid, HeldOpen, ChildrenFirst, RestoreAll, Recorded, FitsTurn;
    if AllFit(s, changes, |changes|) {
      assert changes[..|changes|] == changes;
      PrefixMid(s, d, changes, force, |changes|);
    } else {
      var index := FirstMisfit(s, changes, |changes|);
      NextExactly(s, d, changes, force, index);
    }
  }

  /** Restoring a selection succeeds everywhere if and only if every change fits its turn.
      Then every selected path, and every missing directory above one that was there
      before, is again what it was before the session, mode included; everything else is
      left exactly as the session left it. */
  lemma RestoreReverts(s: Session, d: Disk, changes: seq<Change>, force: bool, paths: seq<Path>)
    requires Selected(s, changes) && Sealed(s, d)
    requires FinishOrder(RestoreAll(s.snapshot, d, changes, force).disk, paths)
    ensures
      var run := Finish(RestoreAll(s.snapshot, d, changes, force), paths);
      && ((forall i :: 0 <= i < |run.results| ==> Success(run.results[i].status)) <==> AllFit(s, changes, |changes|))
      && (AllFit(s, changes, |changes|) ==>
            |run.results| == |changes| && Rooted(run.disk.nodes) && forall path :: Reverted(s, run.disk.nodes, path))
  {
    hide Mid, HeldOpen, Reverted, ChildrenFirst, RestoreAll, Finish, Recorded, FitsTurn;
    var run := RestoreAll(s.snapshot, d, changes, force);
    assert AllInHand(run.disk, paths);
    if AllFit(s, changes, |changes|) {
      assert changes[..|changes|] == changes && Paths(changes[|changes|..]) == {};
      PrefixMid(s, d, changes, force, |changes|);
      FittingReachable(s, changes);
      FinishViews(s, run, paths);
      assert (set path | path in paths) == Unfinished(run.disk);
      forall path
        ensures Reverted(s, Finish(run, paths).disk.nodes, path)
      {
        ViewReverted(s, run.disk, Finish(run, paths).disk.nodes, path);
      }
    } else {
      var index := FirstMisfit(s, changes, |changes|);
      NextExactly(s, d, changes, force, index);
      StaysFailed(run, paths, index);
    }
  }

  /** Every difference the session made is listed. */
  ghost predicate CompleteList(s: Session) {
    forall path :: path !in s.listed ==> Similar(Get(s.before, path), Get(s.after, path))
  }

  /** Restore inverts the session: when every difference is listed and fits its turn, the
      files are again what they were before it. */
  lemma RestoreInverts(s: Session, d: Disk, changes: seq<Change>, force: bool, paths: seq<Path>)
    requires Selected(s, changes) && Sealed(s, d) && CompleteList(s) && AllFit(s, changes, |changes|)
    requires FinishOrder(RestoreAll(s.snapshot, d, changes, force).disk, paths)
    ensures
      var run := Finish(RestoreAll(s.snapshot, d, changes, force), paths);
      forall path :: Similar(Get(run.disk.nodes, path), Get(s.before, path))
  {
    hide Selected, Sealed, AllFit, RestoreAll, Finish;
    assert AllInHand(RestoreAll(s.snapshot, d, changes, force).disk, paths);
    hide FinishOrder;
    RestoreReverts(s, d, changes, force, paths);
    var nodes := Finish(RestoreAll(s.snapshot, d, changes, force), paths).disk.nodes;
    forall path
      ensures Similar(Get(nodes, path), Get(s.before, path))
    {
      assert Reverted(s, nodes, path);
    }
  }
}
