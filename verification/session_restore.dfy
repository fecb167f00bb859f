/**
 From two scans to a restored tree: what the diff lists is exactly what has to be
 put back, and putting it back gives the files as they were before the session.
 */
module SessionRestore {
  import opened Wrappers
  import opened FileTrees
  import opened Restoring
  import opened RestoreOrder
  import opened Sorting
  import opened RestoreFrame
  import opened RestoreReach
  import opened RestoreSteps
  import opened RoundTrip
  import opened Diffing
  import opened Restorer

  function EntriesOf(tree: Tree): map<Path, Entry> {
    map path | path in tree :: EntryOf(tree[path])
  }

  function ContentsOf(tree: Tree): map<Path, string> {
    map path | path in tree :: tree[path].content
  }

  /** Complete scans of both trees, with a snapshot of the first. */
  function ScansOf(before: Tree, after: Tree, snapshot: Snapshot): Scans {
    Scans(EntriesOf(before), EntriesOf(after), {}, [], Some(snapshot.contents), ContentsOf(after))
  }

  /** A rewritten file gets new times: equal entries mean equal nodes. */
  ghost predicate Telling(before: Tree, after: Tree) {
    forall path :: path in before && path in after && !EntriesDiffer(EntryOf(before[path]), EntryOf(after[path])) ==>
      Similar(Some(before[path]), Some(after[path]))
  }

  predicate Differs(before: Tree, after: Tree, path: Path) {
    if path in before && path in after then EntriesDiffer(EntryOf(before[path]), EntryOf(after[path]))
    else path in before || path in after
  }

  /** The change a complete diff lists for a path. */
  function ChangeOf(before: Tree, after: Tree, path: Path): Change {
    Change(if path !in before then Created else if path in after then Modified else Deleted,
           path, EntryAt(before, path), EntryAt(after, path))
  }

  predicate Same(before: Tree, after: Tree, path: Path) {
    Similar(Get(before, path), Get(after, path))
  }

  /** Something else below the same directory is written back earlier in the restore
      order, which opens the directory for as long as the command runs. */
  ghost predicate OpenedEarlier(before: Tree, after: Tree, path: Path)
    requires path != []
  {
    exists other ::
      && other in before && !Same(before, after, other) && IsAbove(Parent(path), other)
      && Leq(ChangeOf(before, after, other), ChangeOf(before, after, path))
  }

  /** What can be put back: nothing behind a directory that cannot be searched, no special
      file, no new mode of the watched root, nothing that turned from or into a directory,
      and a created path only in a directory that can be written or is opened earlier. */
  ghost predicate Undoable(before: Tree, after: Tree, path: Path) {
    && Reachable(after, path)
    && (path in before ==> !before[path].kind.Other?)
    && (Same(before, after, path) ||
        ((path == [] && path in before ==> !before[path].kind.Directory?) &&
         (path in before && path in after ==> (before[path].kind.Directory? <==> after[path].kind.Directory?))))
    && (path !in before && path in after && path != [] ==>
          Parent(path) in after && (after[Parent(path)].mode.Usable() || OpenedEarlier(before, after, path)))
  }

  ghost predicate AllUndoable(before: Tree, after: Tree) {
    forall path :: Differs(before, after, path) ==> Undoable(before, after, path)
  }

  ghost predicate Observed(before: Tree, after: Tree, snapshot: Snapshot) {
    Rooted(before) && Rooted(after) && Faithful(snapshot, before) && Telling(before, after)
  }

  function TheSession(before: Tree, after: Tree, snapshot: Snapshot, changes: seq<Change>): Session {
    Session(snapshot, before, after, Paths(changes))
  }

  /** A suppressed change is no change: the diff misses nothing that matters. */
  lemma NothingMissed(before: Tree, after: Tree, snapshot: Snapshot, path: Path)
    requires Observed(before, after, snapshot)
    ensures ChangeAt(ScansOf(before, after, snapshot), path).None? ==> Similar(Get(before, path), Get(after, path))
  {
  }

  lemma ListedAccurate(before: Tree, after: Tree, snapshot: Snapshot, changes: seq<Change>, change: Change)
    requires Observed(before, after, snapshot)
    requires change.path in Paths(changes) && ChangeAt(ScansOf(before, after, snapshot), change.path) == Some(change)
    ensures Accurate(TheSession(before, after, snapshot, changes), change)
    ensures Differs(before, after, change.path) && change == ChangeOf(before, after, change.path)
  {
  }

  lemma ListsComplete(before: Tree, after: Tree, snapshot: Snapshot, changes: seq<Change>)
    requires Observed(before, after, snapshot)
    requires
      var scans := ScansOf(before, after, snapshot);
      Lists(scans, changes, scans.before.Keys + scans.after.Keys)
    ensures
      var s := TheSession(before, after, snapshot, changes);
      Recorded(s) && CompleteList(s) &&
      forall i :: 0 <= i < |changes| ==>
        Accurate(s, changes[i]) && Differs(before, after, changes[i].path) &&
        changes[i] == ChangeOf(before, after, changes[i].path)
  {
    hide ChangeAt, Similar, Accurate, Faithful, Telling, ChangeOf, Differs;
    var s := TheSession(before, after, snapshot, changes);
    var scans := ScansOf(before, after, snapshot);
    forall path | path !in s.listed
      ensures Similar(Get(s.before, path), Get(s.after, path))
    {
      if ChangeAt(scans, path).Some? {
        ChangeThere(scans, path);
      }
      NothingMissed(before, after, snapshot, path);
    }
    forall i | 0 <= i < |changes|
      ensures Accurate(s, changes[i]) && Differs(before, after, changes[i].path)
      ensures changes[i] == ChangeOf(before, after, changes[i].path)
    {
      ListedAccurate(before, after, snapshot, changes, changes[i]);
    }
  }

  lemma ChangeThere(s: Scans, path: Path)
    requires ChangeAt(s, path).Some?
    ensures path in s.before.Keys + s.after.Keys
  {
  }

  /** Reordering keeps what a list is. */
  lemma OrderedSelected(before: Tree, after: Tree, snapshot: Snapshot, changes: seq<Change>, ordered: seq<Change>)
    requires Observed(before, after, snapshot) && DistinctPaths(changes)
    requires
      var s := TheSession(before, after, snapshot, changes);
      Recorded(s) && forall i :: 0 <= i < |changes| ==> Accurate(s, changes[i])
    requires Ordered(ordered) && multiset(ordered) == multiset(changes)
    ensures Selected(TheSession(before, after, snapshot, changes), ordered)
  {
    hide Similar, Observed, Ordered, Recorded, ChildrenFirst, RestoreRank, Accurate;
    var s := TheSession(before, after, snapshot, changes);
    forall i | 0 <= i < |ordered|
      ensures ordered[i] in changes && Accurate(s, ordered[i])
    {
      assert ordered[i] in multiset(ordered);
    }
    StaysDistinct(changes, ordered, (change: Change) => change.path);
    forall i, j | 0 <= i < |ordered| && 0 <= j < |ordered| && IsAbove(ordered[i].path, ordered[j].path)
      ensures RestoreRank(ordered[i]) == 1
    {
      AboveIsDirectory(s, ordered[i], ordered[j]);
    }
    OrderedChildrenFirst(ordered);
    assert Paths(ordered) == Paths(changes) by {
      forall path | path in Paths(changes)
        ensures path in Paths(ordered)
      {
        var i :| 0 <= i < |changes| && changes[i].path == path;
        assert changes[i] in multiset(changes);
        assert changes[i] in ordered;
      }
    }
  }

  lemma AboveIsDirectory(s: Session, above: Change, change: Change)
    requires Recorded(s) && Accurate(s, above) && Accurate(s, change) && IsAbove(above.path, change.path)
    ensures RestoreRank(above) == 1
  {
    if change.path in s.before {
      RootedAbove(s.before, above.path, change.path);
    } else {
      RootedAbove(s.after, above.path, change.path);
    }
  }

  /* Every listed change fits its turn exactly if every difference can be undone. */

  /** Ties of the restore order are never between two entries of one directory. */
  lemma SiblingsApart(left: Change, right: Change)
    requires left.path != [] && IsAbove(Parent(left.path), right.path)
    requires Leq(left, right) && Leq(right, left)
    ensures left.path == right.path
  {
    var l, r := left.path, right.path;
    TextLeqAntisymmetric(PathText(l), PathText(r));
    assert Parent(l) == Parent(r);
    var above := PathText(Parent(l)) + "/";
    assert PathText(l) == above + l[|l| - 1] && PathText(r) == above + r[|r| - 1];
    assert (above + l[|l| - 1])[|above|..] == l[|l| - 1];
    assert (above + r[|r| - 1])[|above|..] == r[|r| - 1];
    assert l == Parent(l) + [l[|l| - 1]] && r == Parent(r) + [r[|r| - 1]];
  }

  /** A complete list in restore order. */
  ghost predicate Arranged(before: Tree, after: Tree, snapshot: Snapshot, ordered: seq<Change>) {
    var s := TheSession(before, after, snapshot, ordered);
    && Rooted(after) && CompleteList(s) && Ordered(ordered)
    && forall i :: 0 <= i < |ordered| ==>
         Differs(before, after, ordered[i].path) && ordered[i] == ChangeOf(before, after, ordered[i].path)
  }

  /** What the command opened before a change's turn is what the order puts before it. */
  lemma HeldExactly(before: Tree, after: Tree, snapshot: Snapshot, ordered: seq<Change>, index: nat)
    requires Arranged(before, after, snapshot, ordered) && index < |ordered|
    requires ordered[index].path != [] && ordered[index].path !in before
    ensures
      var path := ordered[index].path;
      var held := HeldBy(TheSession(before, after, snapshot, ordered), ordered, index);
      OpenedEarlier(before, after, path) <==> exists other :: other in held && IsAbove(Parent(path), other)
  {
    hide Leq, ChangeOf, Differs, Similar;
    var path := ordered[index].path;
    var s := TheSession(before, after, snapshot, ordered);
    var held := HeldBy(s, ordered, index);
    if OpenedEarlier(before, after, path) {
      var other :|
        && other in before && !Same(before, after, other) && IsAbove(Parent(path), other)
        && Leq(ChangeOf(before, after, other), ChangeOf(before, after, path));
      assert other in s.listed;
      var j :| 0 <= j < |ordered| && ordered[j].path == other;
      if j > index {
        SiblingsApart(ordered[index], ordered[j]);
      }
      assert other in held;
    }
    if other :| other in held && IsAbove(Parent(path), other) {
      var j :| 0 <= j < index && Rewritten(s, ordered[j].path) && ordered[j].path == other;
      assert Leq(ordered[j], ordered[index]);
    }
  }

  lemma TurnExactly(before: Tree, after: Tree, snapshot: Snapshot, ordered: seq<Change>, index: nat)
    requires Arranged(before, after, snapshot, ordered) && index < |ordered|
    ensures
      FitsTurn(TheSession(before, after, snapshot, ordered), ordered, index) <==>
      Undoable(before, after, ordered[index].path)
  {
    var path := ordered[index].path;
    if path != [] && path !in before {
      HeldExactly(before, after, snapshot, ordered, index);
    }
    hide Arranged, Reachable, HeldBy, OpenedEarlier, Similar;
  }

  /** A difference that a diff does not list is one of times only, which needs nothing. */
  lemma SuppressedUndoable(before: Tree, after: Tree, snapshot: Snapshot, path: Path)
    requires Observed(before, after, snapshot) && Differs(before, after, path)
    requires ChangeAt(ScansOf(before, after, snapshot), path).None?
    ensures Undoable(before, after, path)
  {
    NothingMissed(before, after, snapshot, path);
    forall above | IsAbove(above, path) && above in after
      ensures Holds(after, above)
    {
      RootedAbove(after, above, path);
    }
  }

  lemma TurnsExactly(before: Tree, after: Tree, snapshot: Snapshot, ordered: seq<Change>)
    requires Observed(before, after, snapshot) && Arranged(before, after, snapshot, ordered)
    requires forall path ::
      ChangeAt(ScansOf(before, after, snapshot), path).Some? ==> path in Paths(ordered)
    ensures
      AllFit(TheSession(before, after, snapshot, ordered), ordered, |ordered|) <==> AllUndoable(before, after)
  {
    hide Observed, ChangeAt, Undoable, FitsTurn, Differs, ChangeOf;
    var s := TheSession(before, after, snapshot, ordered);
    if AllFit(s, ordered, |ordered|) {
      forall path | Differs(before, after, path)
        ensures Undoable(before, after, path)
      {
        if ChangeAt(ScansOf(before, after, snapshot), path).None? {
          SuppressedUndoable(before, after, snapshot, path);
        } else {
          var i :| 0 <= i < |ordered| && ordered[i].path == path;
          assert FitsTurn(s, ordered, i);
          TurnExactly(before, after, snapshot, ordered, i);
        }
      }
    }
    if AllUndoable(before, after) {
      forall i | 0 <= i < |ordered|
        ensures FitsTurn(s, ordered, i)
      {
        TurnExactly(before, after, snapshot, ordered, i);
      }
    }
  }

  lemma OrderedArranged(before: Tree, after: Tree, snapshot: Snapshot, changes: seq<Change>, ordered: seq<Change>)
    requires Observed(before, after, snapshot)
    requires
      var scans := ScansOf(before, after, snapshot);
      Lists(scans, changes, scans.before.Keys + scans.after.Keys)
    requires Ordered(ordered) && multiset(ordered) == multiset(changes) && Paths(ordered) == Paths(changes)
    ensures Arranged(before, after, snapshot, ordered)
    ensures TheSession(before, after, snapshot, ordered) == TheSession(before, after, snapshot, changes)
    ensures forall path ::
      ChangeAt(ScansOf(before, after, snapshot), path).Some? ==> path in Paths(ordered)
  {
    hide ChangeAt, Ordered, Differs, ChangeOf, Similar, Accurate, Recorded;
    ListsComplete(before, after, snapshot, changes);
    forall i | 0 <= i < |ordered|
      ensures Differs(before, after, ordered[i].path) && ordered[i] == ChangeOf(before, after, ordered[i].path)
    {
      assert ordered[i] in multiset(ordered);
      assert ordered[i] in changes;
    }
    forall path | ChangeAt(ScansOf(before, after, snapshot), path).Some?
      ensures path in Paths(changes)
    {
      ChangeThere(ScansOf(before, after, snapshot), path);
    }
  }

  /** A directory that cannot be written, with what a session finds and leaves in it. */
  function Locked(name: string): Tree {
    var open, locked := Node(Directory, "", Mode(true, true, 0), 0), Node(Directory, "", Mode(false, true, 0), 0);
    map[[] := open, ["d"] := locked, ["d", name] := Node(File, "text", Mode(true, false, 0), 0)]
  }

  lemma DeletedFirst()
    ensures OpenedEarlier(Locked("f"), Locked("g"), ["d", "g"])
  {
    var f, g, d := ["d", "f"], ["d", "g"], ["d"];
    assert Parent(f) == d && Parent(g) == d && Parent(d) == [];
    assert PathText(f) == "/d/f" && PathText(g) == "/d/g";
    assert TextLeq("/d/f", "/d/g");
    assert Leq(ChangeOf(Locked("f"), Locked("g"), f), ChangeOf(Locked("f"), Locked("g"), g));
  }

  lemma LockedAlone()
    ensures !AllUndoable(Locked("g") - {["d", "g"]}, Locked("g"))
  {
    var g := ["d", "g"];
    assert Parent(g) == ["d"];
    assert !Undoable(Locked("g") - {g}, Locked("g"), g);
    assert Differs(Locked("g") - {g}, Locked("g"), g);
  }

  lemma LockedReachable(name: string)
    ensures Reachable(Locked("g"), ["d", name])
  {
    forall above | IsAbove(above, ["d", name])
      ensures above == [] || above == ["d"]
    {
    }
  }

  /** A file created in such a directory cannot be removed again, unless a file deleted
      from it is restored first. */
  lemma DeletionOpens()
    ensures !AllUndoable(Locked("g") - {["d", "g"]}, Locked("g"))
    ensures AllUndoable(Locked("f"), Locked("g"))
  {
    LockedAlone();
    DeletedFirst();
    hide OpenedEarlier, Reachable;
    forall path | Differs(Locked("f"), Locked("g"), path)
      ensures Undoable(Locked("f"), Locked("g"), path)
    {
      assert path == ["d", "f"] || path == ["d", "g"];
      assert Parent(path) == ["d"];
      LockedReachable(path[1]);
    }
  }

  /** A snapshot of a tree has the shape of a scan, and a diff takes its changes from it:
      in whatever state the files are later, the finish step reaches its directories. */
  lemma ObservedSound(
    before: Tree, after: Tree, snapshot: Snapshot, changes: seq<Change>, start: Disk)
    requires Observed(before, after, snapshot) && Begun(start)
    requires
      var scans := ScansOf(before, after, snapshot);
      Lists(scans, changes, scans.before.Keys + scans.after.Keys)
    ensures Scanned(snapshot) && Sound(snapshot, start, changes)
  {
    BaselineScanned(before, snapshot);
    ScannedOpen(snapshot);
    hide Observed, TreeShaped, Open, Lists, ScansOf;
    ListedFromBaseline(before, after, snapshot, changes);
  }

  lemma BaselineScanned(before: Tree, snapshot: Snapshot)
    requires Rooted(before) && Faithful(snapshot, before)
    ensures Scanned(snapshot)
  {
    forall path | path in snapshot.baseline && path != []
      ensures Parent(path) in snapshot.baseline
      ensures snapshot.baseline[Parent(path)].kind.Directory? && snapshot.baseline[Parent(path)].mode.searchable
    {
      assert Holds(before, Parent(path));
      assert FaithfulAt(snapshot, before, Parent(path));
    }
  }

  lemma ListedFromBaseline(before: Tree, after: Tree, snapshot: Snapshot, changes: seq<Change>)
    requires Observed(before, after, snapshot)
    requires
      var scans := ScansOf(before, after, snapshot);
      Lists(scans, changes, scans.before.Keys + scans.after.Keys)
    ensures AllFromBaseline(snapshot, changes)
  {
    hide Rooted, Telling, ExcludedFromDiff, EntriesDiffer, CheaplyMatches;
    forall i | 0 <= i < |changes|
      ensures FromBaseline(snapshot, changes[i])
    {
      assert changes[i].path in before ==> FaithfulAt(snapshot, before, changes[i].path);
    }
  }

  /** Diffing the scans of a session and restoring what is listed succeeds on every path
      if and only if every difference can be undone. Then the files are again as they
      were before the session. */
  method UndoSession(execution: RestoreExecution, ghost before: Tree, scans: Scans, force: bool)
    returns (results: seq<Result>, back: bool)
    requires Begun(execution.State()) && Observed(before, execution.nodes, execution.snapshot)
    requires scans == ScansOf(before, execution.nodes, execution.snapshot)
    modifies execution
    ensures
      (back && forall i :: 0 <= i < |results| ==> Success(results[i].status)) <==>
      AllUndoable(before, old(execution.nodes))
    ensures
      AllUndoable(before, old(execution.nodes)) ==>
      forall path :: Similar(Get(execution.nodes, path), Get(before, path))
  {
    hide Lists, Observed, Similar, Ordered, FinishOrder, RestoreAll, Finish, AllUndoable;
    ghost var start, snapshot := execution.State(), execution.snapshot;
    var changes := Diff(scans);
    ghost var s := TheSession(before, start.nodes, snapshot, changes);
    ListsComplete(before, start.nodes, snapshot, changes);
    ghost var ordered, paths;
    results, back, ordered, paths := execution.RestoreChanges(changes, force);
    ListsDistinct(scans, changes);
    OrderedSelected(before, start.nodes, snapshot, changes, ordered);
    OrderedArranged(before, start.nodes, snapshot, changes, ordered);
    TurnsExactly(before, start.nodes, snapshot, ordered);
    SelectionExactly(s, start, ordered, force);
    if back {
      RestoreReverts(s, start, ordered, force, paths);
    }
    if AllUndoable(before, start.nodes) {
      RestoreInverts(s, start, ordered, force, paths);
    }
  }

  lemma ListsDistinct(s: Scans, changes: seq<Change>)
    requires Lists(s, changes, s.before.Keys + s.after.Keys)
    ensures DistinctPaths(changes)
  {
  }
}
