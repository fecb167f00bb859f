/**
 The finish step reaches every directory in hand. For any files, conflicts included, no
 step closes or removes a directory above one still in hand, and finishing goes deepest
 first. What a scan records makes this so: the theorems about a whole restore need no
 exception for it. For trees of entries in general it is known exactly when it holds.
 */
module RestoreReach {
  import opened Wrappers
  import opened FileTrees
  import opened Sidecars
  import opened Restoring
  import opened RestoreFrame
  import opened RestoreAgain

  /** Every entry was found in a directory that was recorded too. */
  ghost predicate TreeShaped(snapshot: Snapshot) {
    forall path :: path in snapshot.baseline && path != [] ==>
      Parent(path) in snapshot.baseline && snapshot.baseline[Parent(path)].kind.Directory?
  }

  /** Something was recorded below the path. */
  ghost predicate Inner(snapshot: Snapshot, path: Path) {
    exists below :: below in snapshot.baseline && IsAbove(path, below)
  }

  /** No directory but the watched root that closes the way to a recorded directory with
      something in it. */
  ghost predicate Open(snapshot: Snapshot) {
    forall above, path ::
      above in snapshot.baseline && above != [] && IsAbove(above, path) && Inner(snapshot, path) ==>
        snapshot.baseline[above].mode.searchable
  }

  /** Every entry was found in a directory that could be searched, as a scan has to. */
  ghost predicate Scanned(snapshot: Snapshot) {
    TreeShaped(snapshot) &&
    forall path :: path in snapshot.baseline && path != [] ==> snapshot.baseline[Parent(path)].mode.searchable
  }

  /** The change says of its path before the session what the baseline says. */
  predicate FromBaseline(snapshot: Snapshot, change: Change) {
    && (change.path in snapshot.baseline <==> change.before.Some?)
    && (change.before.Some? ==> change.before.value == snapshot.baseline[change.path])
    && (change.kind.Created? <==> change.before.None?)
  }

  ghost predicate AllFromBaseline(snapshot: Snapshot, changes: seq<Change>) {
    forall i :: 0 <= i < |changes| ==> FromBaseline(snapshot, changes[i])
  }

  lemma {:induction false} BaselineAbove(snapshot: Snapshot, above: Path, path: Path)
    requires TreeShaped(snapshot) && path in snapshot.baseline && IsAbove(above, path)
    ensures above in snapshot.baseline && snapshot.baseline[above].kind.Directory?
  {
    AboveParent(above, path);
    if above != Parent(path) {
      BaselineAbove(snapshot, above, Parent(path));
    }
  }

  /** What a scan records is open. */
  lemma ScannedOpen(snapshot: Snapshot)
    requires Scanned(snapshot)
    ensures Open(snapshot)
  {
    forall above, path | above in snapshot.baseline && IsAbove(above, path) && Inner(snapshot, path)
      ensures snapshot.baseline[above].mode.searchable
    {
      var below :| below in snapshot.baseline && IsAbove(path, below);
      AboveTrans(above, path, below);
      SearchableAbove(snapshot, above, below);
    }
  }

  lemma {:induction false} SearchableAbove(snapshot: Snapshot, above: Path, path: Path)
    requires Scanned(snapshot) && path in snapshot.baseline && IsAbove(above, path)
    ensures above in snapshot.baseline && snapshot.baseline[above].mode.searchable
  {
    AboveParent(above, path);
    if above != Parent(path) {
      SearchableAbove(snapshot, above, Parent(path));
    }
  }

  /* Looking at a path. */

  /** Every path above is a directory that can be searched. */
  ghost predicate Way(tree: Tree, path: Path) {
    forall above :: IsAbove(above, path) ==> Holds(tree, above)
  }

  lemma WayParent(tree: Tree, path: Path)
    requires path != []
    ensures Way(tree, path) <==> Way(tree, Parent(path)) && Holds(tree, Parent(path))
  {
    assert IsAbove(Parent(path), path);
    forall above
      ensures IsAbove(above, path) <==> IsAbove(above, Parent(path)) || above == Parent(path)
    {
      if IsAbove(above, path) {
        AboveParent(above, path);
      }
      if Within(Parent(path), above) {
        AboveChild(above, path);
      }
    }
  }

  lemma {:induction false} LookupWay(tree: Tree, path: Path)
    ensures Way(tree, path) ==> Lookup(tree, path) == if path in tree then Present(tree[path]) else Absent
    ensures Lookup(tree, path).Present? ==> Way(tree, path) && Lookup(tree, path) == Present(tree[path])
  {
    if path != [] {
      LookupWay(tree, Parent(path));
      WayParent(tree, path);
      hide Way;
    }
  }

  lemma WritableWay(nodes: Tree, path: Path)
    requires Writable(nodes, path)
    ensures Way(nodes, path)
  {
    if path != [] {
      LookupWay(nodes, Parent(path));
      WayParent(nodes, path);
    }
    hide Lookup;
  }

  /* The steps. */

  ghost predicate ReachAt(snapshot: Snapshot, d: Disk, path: Path) {
    path in d.nodes && path in snapshot.baseline && Inner(snapshot, path) && Way(d.nodes, path)
  }

  /** Every directory in hand can be looked at. */
  ghost predicate InReach(snapshot: Snapshot, d: Disk) {
    forall path :: path in Unfinished(d) ==> ReachAt(snapshot, d, path)
  }

  /** Nothing above the directories in hand was closed, and no other came into hand. */
  lemma ReachStays(snapshot: Snapshot, d: Disk, e: Disk)
    requires InReach(snapshot, d) && Unfinished(e) <= Unfinished(d)
    requires forall path :: path in Unfinished(d) ==> path in e.nodes
    requires forall above, path :: path in Unfinished(d) && IsAbove(above, path) && Holds(d.nodes, above) ==>
      Holds(e.nodes, above)
    ensures InReach(snapshot, e)
  {
    hide Unfinished, IsAbove;
    forall path | path in Unfinished(e)
      ensures ReachAt(snapshot, e, path)
    {
      assert ReachAt(snapshot, d, path);
    }
  }

  lemma EnsureOneReach(snapshot: Snapshot, d: Disk, path: Path)
    requires InReach(snapshot, d) && path in snapshot.baseline && Inner(snapshot, path)
    ensures InReach(snapshot, EnsureOne(snapshot, d, path).disk)
  {
    var e := EnsureOne(snapshot, d, path).disk;
    LookupWay(d.nodes, path);
    if Writable(d.nodes, path) {
      WritableWay(d.nodes, path);
    }
    hide Lookup, Writable, Inner;
    forall above | Holds(d.nodes, above)
      ensures Holds(e.nodes, above)
    {
    }
    forall p | p in Unfinished(e)
      ensures ReachAt(snapshot, e, p)
    {
      assert p != path ==> p in Unfinished(d) && ReachAt(snapshot, d, p);
    }
  }

  lemma {:induction false} EnsureReach(snapshot: Snapshot, d: Disk, above: Path, path: Path)
    requires TreeShaped(snapshot) && InReach(snapshot, d) && path in snapshot.baseline && IsAbove(above, path)
    ensures InReach(snapshot, Ensure(snapshot, d, above).disk)
  {
    BaselineAbove(snapshot, above, path);
    hide TreeShaped, InReach, EnsureOne;
    if above == [] {
      EnsureOneReach(snapshot, d, above);
    } else {
      AboveTrans(Parent(above), above, path);
      EnsureReach(snapshot, d, Parent(above), path);
      EnsureOneReach(snapshot, Ensure(snapshot, d, Parent(above)).disk, above);
    }
  }

  /** A directory that gets its mode back stays open for those in hand below it. */
  lemma DirectoryReach(snapshot: Snapshot, d: Disk, path: Path)
    requires Open(snapshot) && InReach(snapshot, d) && path in snapshot.baseline && path != []
    ensures InReach(snapshot, RestoreDirectory(d, path, snapshot.baseline[path]).disk)
  {
    hide Lookup, Writable;
    var e := RestoreDirectory(d, path, snapshot.baseline[path]).disk;
    forall above, p | p in Unfinished(d) && IsAbove(above, p) && Holds(d.nodes, above)
      ensures Holds(e.nodes, above)
    {
      assert ReachAt(snapshot, d, p);
    }
    forall p | p in Unfinished(d)
      ensures p in e.nodes
    {
      assert ReachAt(snapshot, d, p);
    }
    hide InReach;
    ReachStays(snapshot, d, e);
  }

  /** A file never takes the place of a directory in hand or above one. */
  lemma FileReach(snapshot: Snapshot, d: Disk, path: Path, entry: Entry)
    requires InReach(snapshot, d)
    ensures InReach(snapshot, RestoreFile(snapshot, d, path, entry).disk)
  {
    hide Lookup, Writable;
    var e := RestoreFile(snapshot, d, path, entry).disk;
    forall p | p in Unfinished(d)
      ensures p in e.nodes
    {
      assert ReachAt(snapshot, d, p);
    }
    hide InReach;
    ReachStays(snapshot, d, e);
  }

  lemma ObjectReach(snapshot: Snapshot, d: Disk, path: Path)
    requires TreeShaped(snapshot) && Open(snapshot) && InReach(snapshot, d) && path in snapshot.baseline
    ensures InReach(snapshot, RestoreObject(snapshot, d, path, snapshot.baseline[path]).disk)
  {
    hide InReach, Open, RestoreDirectory, RestoreFile, Ensure;
    if path != [] {
      EnsureReach(snapshot, d, Parent(path), path);
    }
    var e := EnsureParents(snapshot, d, path).disk;
    if snapshot.baseline[path].kind.Directory? && path != [] {
      DirectoryReach(snapshot, e, path);
    } else {
      FileReach(snapshot, e, path, snapshot.baseline[path]);
    }
  }

  /** What was not there before has no directory in hand below it. */
  lemma RemoveReach(snapshot: Snapshot, d: Disk, change: Change)
    requires TreeShaped(snapshot) && InReach(snapshot, d) && change.path !in snapshot.baseline
    ensures InReach(snapshot, Remove(d, change).disk)
  {
    hide Removable;
    var e := Remove(d, change).disk;
    forall above, p | p in Unfinished(d) && IsAbove(above, p) && Holds(d.nodes, above)
      ensures Holds(e.nodes, above)
    {
      assert ReachAt(snapshot, d, p);
      BaselineAbove(snapshot, above, p);
    }
    forall p | p in Unfinished(d)
      ensures p in e.nodes
    {
      assert ReachAt(snapshot, d, p);
    }
    hide InReach, TreeShaped;
    ReachStays(snapshot, d, e);
  }

  /** A copy is new, and so above nothing in hand. */
  lemma RefuseReach(snapshot: Snapshot, d: Disk, change: Change)
    requires InReach(snapshot, d)
    ensures InReach(snapshot, Refuse(snapshot, d, change).disk)
  {
    SidecarFree(d.nodes, change.path, snapshot.id);
    hide Sidecar, Writable;
    var e := Refuse(snapshot, d, change).disk;
    forall p | p in Unfinished(d)
      ensures p in e.nodes
    {
      assert ReachAt(snapshot, d, p);
    }
    hide InReach;
    ReachStays(snapshot, d, e);
  }

  lemma StepReach(snapshot: Snapshot, d: Disk, change: Change, force: bool)
    requires TreeShaped(snapshot) && Open(snapshot) && InReach(snapshot, d) && FromBaseline(snapshot, change)
    ensures InReach(snapshot, RestoreOne(snapshot, d, change, force).disk)
  {
    hide TreeShaped, Open, InReach, Lookup, AlreadyRight, Conflicts, RestoreObject, Remove, Refuse;
    RefuseReach(snapshot, d, change);
    if change.kind.Created? {
      RemoveReach(snapshot, d, change);
    } else {
      ObjectReach(snapshot, d, change.path);
    }
  }

  lemma {:induction false} RunReach(snapshot: Snapshot, start: Disk, changes: seq<Change>, force: bool)
    requires TreeShaped(snapshot) && Open(snapshot) && Begun(start) && AllFromBaseline(snapshot, changes)
    ensures InReach(snapshot, RestoreAll(snapshot, start, changes, force).disk)
    decreases |changes|
  {
    hide TreeShaped, Open, RestoreOne;
    if changes != [] {
      hide InReach;
      var last := |changes| - 1;
      RunReach(snapshot, start, changes[..last], force);
      StepReach(snapshot, RestoreAll(snapshot, start, changes[..last], force).disk, changes[last], force);
    }
  }

  /* Finishing. */

  /** Directories finished with are at least as deep as those left, so none lies above. */
  lemma FinishReaches(snapshot: Snapshot, run: Run, paths: seq<Path>, index: nat)
    requires InReach(snapshot, run.disk) && FinishOrder(run.disk, paths) && index < |paths|
    ensures AllInHand(run.disk, paths[..index])
    ensures Lookup(Finish(run, paths[..index]).disk.nodes, paths[index]).Present?
  {
    assert AllInHand(run.disk, paths[..index]);
    var path, nodes := paths[index], Finish(run, paths[..index]).disk.nodes;
    assert ReachAt(snapshot, run.disk, path);
    forall p | |p| <= |path| && p !in paths[..index]
      ensures Get(nodes, p) == Get(run.disk.nodes, p)
    {
      FinishSettles(run, paths[..index], p);
    }
    assert path !in paths[..index];
    forall above | IsAbove(above, path)
      ensures Holds(nodes, above)
    {
      assert above !in paths[..index];
      assert Get(nodes, above) == Get(run.disk.nodes, above);
    }
    assert Get(nodes, path) == Get(run.disk.nodes, path);
    LookupWay(nodes, path);
    hide Lookup, Finish, FinishOrder;
  }

  lemma {:induction false} AllReached(snapshot: Snapshot, run: Run, paths: seq<Path>, count: nat, path: Path)
    requires InReach(snapshot, run.disk) && FinishOrder(run.disk, paths) && count <= |paths|
    ensures AllInHand(run.disk, paths[..count])
    ensures !Unreached(run, paths[..count], path) && Finish(run, paths[..count]).results == run.results
    decreases count
  {
    hide InReach;
    assert AllInHand(run.disk, paths[..count]);
    if count > 0 {
      AllReached(snapshot, run, paths, count - 1, path);
      FinishReaches(snapshot, run, paths, count - 1);
      assert paths[..count][..count - 1] == paths[..count - 1];
      hide Lookup;
    }
  }

  /** What a command can rely on before it restores. */
  ghost predicate Sound(snapshot: Snapshot, start: Disk, changes: seq<Change>) {
    TreeShaped(snapshot) && Open(snapshot) && Begun(start) && AllFromBaseline(snapshot, changes)
  }

  /** The finish step reaches every directory and so never fails. */
  lemma FinishNeverFails(
    snapshot: Snapshot, start: Disk, changes: seq<Change>, force: bool, paths: seq<Path>, path: Path)
    requires Sound(snapshot, start, changes)
    requires FinishOrder(RestoreAll(snapshot, start, changes, force).disk, paths)
    ensures
      var run := RestoreAll(snapshot, start, changes, force);
      !Unreached(run, paths, path) && Finish(run, paths).results == run.results
  {
    hide InReach, RestoreAll;
    RunReach(snapshot, start, changes, force);
    AllReached(snapshot, RestoreAll(snapshot, start, changes, force), paths, |paths|, path);
    assert paths[..|paths|] == paths;
    hide Finish;
  }

  /* Whole restores. */

  /** Whatever conflicts there are, only paths reported as restored and copies beside
      conflicts differ from what was there: any other path ends exactly as it was, or is a
      missing directory that was needed, with the mode it had before the session. */
  lemma UntouchedUnlessRestored(
    snapshot: Snapshot, start: Disk, changes: seq<Change>, force: bool, paths: seq<Path>, path: Path)
    requires Sound(snapshot, start, changes)
    requires FinishOrder(RestoreAll(snapshot, start, changes, force).disk, paths)
    ensures
      var run := RestoreAll(snapshot, start, changes, force);
      !ReportedRestored(run.results, path) && (path in start.nodes || !IsCopy(run.results, path)) ==>
        Untouched(snapshot, start.nodes, Finish(run, paths).disk.nodes, changes, path, false)
  {
    FinishNeverFails(snapshot, start, changes, force, paths, path);
    hide TreeShaped, Open, AllFromBaseline, RestoreAll, Finish, Unreached;
    UntouchedUpToReach(snapshot, start, changes, force, paths, path);
  }

  /** Without force, a path that changed since the session is never overwritten. */
  lemma NeverOverwritten(
    snapshot: Snapshot, start: Disk, changes: seq<Change>, paths: seq<Path>, index: nat)
    requires Sound(snapshot, start, changes) && DistinctPaths(changes) && index < |changes|
    requires changes[index].path in start.nodes && ChangedSince(snapshot, start, changes[index])
    requires FinishOrder(RestoreAll(snapshot, start, changes, false).disk, paths)
    ensures
      var nodes := Finish(RestoreAll(snapshot, start, changes, false), paths).disk.nodes;
      Get(nodes, changes[index].path) == Get(start.nodes, changes[index].path)
  {
    FinishNeverFails(snapshot, start, changes, false, paths, changes[index].path);
    hide TreeShaped, Open, AllFromBaseline, RestoreAll, Finish, Unreached, ChangedSince;
    SurvivesUpToReach(snapshot, start, changes, paths, index);
  }

  /** What is reported as restored, or as right already, is right when the command ends. */
  lemma FirstRestoreRights(
    snapshot: Snapshot, start: Disk, changes: seq<Change>, force: bool, paths: seq<Path>, index: nat)
    requires Sound(snapshot, start, changes) && ChildrenFirst(changes) && index < |changes|
    requires Consistent(snapshot, changes[index])
    requires FinishOrder(RestoreAll(snapshot, start, changes, force).disk, paths)
    ensures
      var run := RestoreAll(snapshot, start, changes, force);
      var status := run.results[index].status;
      (status.Restored? || status.AlreadyRestored?) && !IsCopy(run.results, changes[index].path) ==>
        Right(snapshot, Finish(run, paths).disk.nodes, changes[index])
  {
    FinishNeverFails(snapshot, start, changes, force, paths, changes[index].path);
    hide TreeShaped, Open, AllFromBaseline, Right, Unreached, Consistent;
    RightsUpToReach(snapshot, start, changes, force, paths, index);
  }

  /** A second restore reports as already restored whatever the first one put right. */
  lemma RestoreTwice(
    snapshot: Snapshot, start: Disk, changes: seq<Change>, force: bool, paths: seq<Path>,
    again: Disk, forceAgain: bool, index: nat)
    requires Sound(snapshot, start, changes) && Begun(again) && ChildrenFirst(changes) && index < |changes|
    requires Consistent(snapshot, changes[index])
    requires FinishOrder(RestoreAll(snapshot, start, changes, force).disk, paths)
    requires again.nodes == Finish(RestoreAll(snapshot, start, changes, force), paths).disk.nodes
    requires
      var path := changes[index].path;
      var run := RestoreAll(snapshot, start, changes, force);
      && (run.results[index].status.Restored? || run.results[index].status.AlreadyRestored?)
      && !IsCopy(run.results, path)
      && !IsCopy(RestoreAll(snapshot, again, changes, forceAgain).results, path)
    ensures
      var status := RestoreAll(snapshot, again, changes, forceAgain).results[index].status;
      var d := RestoreAll(snapshot, again, changes[..index], forceAgain).disk;
      status == if Lookup(d.nodes, changes[index].path).Denied? then Failed else AlreadyRestored
  {
    FinishNeverFails(snapshot, start, changes, force, paths, changes[index].path);
    hide TreeShaped, Open, AllFromBaseline, Unreached, Consistent, Lookup;
    TwiceUpToReach(snapshot, start, changes, force, paths, again, forceAgain, index);
  }

  /** Everything ends with a recorded mode: its own if it was left alone, the one before
      the session if it was restored or had to be made. */
  lemma PermissionsConserved(
    snapshot: Snapshot, start: Disk, changes: seq<Change>, force: bool, paths: seq<Path>, path: Path)
    requires Sound(snapshot, start, changes) && ChildrenFirst(changes)
    requires forall i :: 0 <= i < |changes| ==> Consistent(snapshot, changes[i])
    requires FinishOrder(RestoreAll(snapshot, start, changes, force).disk, paths)
    ensures
      var run := RestoreAll(snapshot, start, changes, force);
      var next := Finish(run, paths);
      path in next.disk.nodes && !IsCopy(run.results, path) ==>
        var mode := next.disk.nodes[path].mode;
        if ReportedRestored(run.results, path) then
          path in snapshot.baseline && mode == snapshot.baseline[path].mode
        else if path in start.nodes then mode == start.nodes[path].mode
        else path in snapshot.baseline && mode == snapshot.baseline[path].mode
  {
    FinishNeverFails(snapshot, start, changes, force, paths, path);
    hide TreeShaped, Open, Unreached, RestoreAll, Finish, Consistent;
    PermissionsUpToReach(snapshot, start, changes, force, paths, path);
  }

  /* When it does not. */

  /** No restore from this baseline ever leaves the finish step before a closed way. */
  ghost predicate AlwaysReached(snapshot: Snapshot) {
    forall start: Disk, changes: seq<Change>, force: bool, paths: seq<Path>, path: Path ::
      Begun(start) && AllFromBaseline(snapshot, changes) &&
      FinishOrder(RestoreAll(snapshot, start, changes, force).disk, paths) ==>
        !Unreached(RestoreAll(snapshot, start, changes, force), paths, path)
  }

  predicate UsableAt(d: Disk, path: Path) {
    path in d.nodes && d.nodes[path].kind.Directory? && d.nodes[path].mode.Usable()
  }

  lemma {:induction false} EnsureNothing(snapshot: Snapshot, d: Disk, own: Path)
    requires forall path :: Within(own, path) ==> UsableAt(d, path)
    ensures Ensure(snapshot, d, own) == Attempt(d, true)
  {
    if own != [] {
      forall path | Within(Parent(own), path)
        ensures UsableAt(d, path)
      {
        AboveChild(path, own);
      }
      EnsureNothing(snapshot, d, Parent(own));
    }
    forall path | IsAbove(path, own)
      ensures Holds(d.nodes, path)
    {
      assert Within(own, path) && UsableAt(d, path);
    }
    assert Within(own, own) && UsableAt(d, own);
    LookupWay(d.nodes, own);
    hide Lookup, Writable;
  }

  function Widened(d: Disk, path: Path): Disk
    requires path in d.nodes
  {
    Chmod(d, path, d.nodes[path].mode.Widened()).(temporary := d.temporary[path := EntryOf(d.nodes[path])])
  }

  lemma {:induction false} EnsureWidens(snapshot: Snapshot, d: Disk, own: Path, closed: Path)
    requires Within(own, closed) && closed in d.nodes && closed !in d.temporary
    requires d.nodes[closed].kind.Directory? && d.nodes[closed].mode.searchable && !d.nodes[closed].mode.Usable()
    requires forall path :: Within(own, path) && path != closed ==> UsableAt(d, path)
    ensures Ensure(snapshot, d, own) == Attempt(Widened(d, closed), true)
  {
    if own == closed {
      if own != [] {
        forall path | Within(Parent(own), path)
          ensures UsableAt(d, path)
        {
          AboveChild(path, own);
        }
        EnsureNothing(snapshot, d, Parent(own));
      }
      forall path | IsAbove(path, own)
        ensures Holds(d.nodes, path)
      {
        assert Within(own, path) && UsableAt(d, path);
      }
      LookupWay(d.nodes, own);
    } else {
      AboveParent(closed, own);
      forall path | Within(Parent(own), path) && path != closed
        ensures UsableAt(d, path)
      {
        AboveChild(path, own);
      }
      EnsureWidens(snapshot, d, Parent(own), closed);
      forall path | IsAbove(path, own)
        ensures Holds(Widened(d, closed).nodes, path)
      {
        assert Within(own, path) && (path != closed ==> UsableAt(d, path));
      }
      assert Within(own, own) && UsableAt(d, own);
      LookupWay(Widened(d, closed).nodes, own);
    }
    hide Lookup, Writable;
  }

  ghost function Aboves(path: Path): set<Path> {
    set length | 0 <= length < |path| :: path[..length]
  }

  lemma AbovesAre(above: Path, path: Path)
    ensures above in Aboves(path) <==> IsAbove(above, path)
  {
    if IsAbove(above, path) {
      assert above == path[..|above|];
    }
  }

  const PLAIN := Node(Directory, "", PRIVATE, 0)

  /** Usable directories above a missing path, but for one that cannot be written. */
  ghost function OneClosed(path: Path, closed: Path): Disk {
    Disk(map above | above in Aboves(path) :: if above == closed then PLAIN.(mode := Mode(false, true, 0)) else PLAIN,
         0, map[], map[], {})
  }

  /** The missing path's restore, successful or not, takes the closed directory in hand
      and leaves everything above the path usable. */
  lemma TakesInHand(snapshot: Snapshot, closed: Path, path: Path, change: Change)
    requires IsAbove(closed, path) && path in snapshot.baseline
    requires change == Change(Deleted, path, Some(snapshot.baseline[path]), None)
    ensures
      var d := RestoreOne(snapshot, OneClosed(path, closed), change, true).disk;
      && Unfinished(d) == {closed} && d.temporary.Keys == {closed} && d.finalized <= {path}
      && forall above :: IsAbove(above, path) ==> above in d.nodes && d.nodes[above] == PLAIN
  {
    var start := OneClosed(path, closed);
    forall above
      ensures above in start.nodes <==> IsAbove(above, path)
    {
      AbovesAre(above, path);
    }
    AboveParent(closed, path);
    forall above | Within(Parent(path), above) && above != closed
      ensures UsableAt(start, above)
    {
      AboveChild(above, path);
    }
    EnsureWidens(snapshot, start, Parent(path), closed);
    LookupWay(start.nodes, path);
    hide Lookup, Writable, Ensure, Aboves;
  }

  /** Restoring an unsearchable directory then shuts the one in hand away. */
  lemma ShutsAway(snapshot: Snapshot, d: Disk, above: Path, closed: Path, change: Change)
    requires above in snapshot.baseline && snapshot.baseline[above].kind.Directory?
    requires !snapshot.baseline[above].mode.searchable && above != [] && IsAbove(above, closed)
    requires change.kind.Modified? && change.path == above && change.before == Some(snapshot.baseline[above])
    requires Unfinished(d) == {closed} && d.temporary.Keys == {closed}
    requires forall path :: Within(above, path) ==> path in d.nodes && d.nodes[path] == PLAIN
    ensures
      var e := RestoreOne(snapshot, d, change, true).disk;
      Unfinished(e) == {closed} && !Lookup(e.nodes, closed).Present?
  {
    forall path | Within(Parent(above), path)
      ensures UsableAt(d, path)
    {
      AboveChild(path, above);
    }
    EnsureNothing(snapshot, d, Parent(above));
    LookupWay(d.nodes, above);
    hide Ensure, Writable;
    var e := RestoreOne(snapshot, d, change, true).disk;
    assert !Holds(e.nodes, above);
    LookupWay(e.nodes, closed);
    hide Lookup;
  }

  lemma Missed(snapshot: Snapshot, above: Path, closed: Path, path: Path)
    requires TreeShaped(snapshot) && path in snapshot.baseline && IsAbove(closed, path) && IsAbove(above, closed)
    requires above != [] && above in snapshot.baseline && !snapshot.baseline[above].mode.searchable
    ensures !AlwaysReached(snapshot)
  {
    AboveTrans(above, closed, path);
    BaselineAbove(snapshot, above, path);
    var start := OneClosed(path, closed);
    var first := Change(Deleted, path, Some(snapshot.baseline[path]), None);
    var second := Change(Modified, above, Some(snapshot.baseline[above]), EntryAt(start.nodes, above));
    var changes := [first, second];
    TakesInHand(snapshot, closed, path, first);
    var d := RestoreOne(snapshot, start, first, true).disk;
    forall p | Within(above, p)
      ensures p in d.nodes && d.nodes[p] == PLAIN
    {
      if p != above {
        AboveTrans(p, above, path);
      }
    }
    ShutsAway(snapshot, d, above, closed, second);
    hide RestoreOne, Lookup, TreeShaped;
    var run := RestoreAll(snapshot, start, changes, true);
    assert changes[..1] == [first] && [first][..0] == [];
    assert RestoreAll(snapshot, start, [first], true).disk == d;
    assert run.disk == RestoreOne(snapshot, d, second, true).disk;
    assert [closed][..0] == [];
    assert FinishOrder(run.disk, [closed]) && Unreached(run, [closed], closed);
    assert AllFromBaseline(snapshot, changes);
  }

  /** For a baseline in which every entry's directory is recorded, the finish step always
      reaches its directories if and only if no unsearchable directory but the watched
      root was recorded above a directory with something in it. */
  lemma ReachedExactly(snapshot: Snapshot)
    requires TreeShaped(snapshot)
    ensures AlwaysReached(snapshot) <==> Open(snapshot)
  {
    if Open(snapshot) {
      forall start: Disk, changes: seq<Change>, force: bool, paths: seq<Path>, path: Path |
        Begun(start) && AllFromBaseline(snapshot, changes) &&
        FinishOrder(RestoreAll(snapshot, start, changes, force).disk, paths)
        ensures !Unreached(RestoreAll(snapshot, start, changes, force), paths, path)
      {
        FinishNeverFails(snapshot, start, changes, force, paths, path);
      }
    } else {
      var above, closed :|
        above in snapshot.baseline && above != [] && IsAbove(above, closed) && Inner(snapshot, closed)
        && !snapshot.baseline[above].mode.searchable;
      var path :| path in snapshot.baseline && IsAbove(closed, path);
      Missed(snapshot, above, closed, path);
    }
  }
}
