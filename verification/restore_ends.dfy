/**
 When a restore comes back. Only a conflict without force asks for the name of a copy,
 and only a search for one can go on for ever.
 */
module RestoreEnds {
  import opened Wrappers
  import opened FileTrees
  import opened Sidecars
  import opened Restoring
  import opened RestoreFrame

  /** A conflict whose baseline version is to be put beside it, and no name for it. */
  predicate Hangs(snapshot: Snapshot, d: Disk, change: Change, force: bool) {
    && !force && !Lookup(d.nodes, change.path).Denied? && ChangedSince(snapshot, d, change)
    && change.before.Some? && change.path != [] && Sidecar(d.nodes, change.path, snapshot.id).None?
  }

  lemma StepHangs(snapshot: Snapshot, d: Disk, change: Change, force: bool)
    ensures RestoreOne(snapshot, d, change, force).result.status.Unending? <==> Hangs(snapshot, d, change, force)
  {
    hide Sidecar, Lookup, AlreadyRight, Conflicts, RestoreObject;
  }

  /** A restore comes back if and only if no change meets, at its turn, a conflict for
      whose copy there is no name; with force it always does. */
  lemma ComesBackExactly(snapshot: Snapshot, start: Disk, changes: seq<Change>, force: bool)
    ensures
      ComesBack(RestoreAll(snapshot, start, changes, force).results) <==>
      forall i :: 0 <= i < |changes| ==>
        !Hangs(snapshot, RestoreAll(snapshot, start, changes[..i], force).disk, changes[i], force)
    ensures force ==> ComesBack(RestoreAll(snapshot, start, changes, force).results)
  {
    hide RestoreOne, RestoreAll, Hangs;
    forall i | 0 <= i < |changes|
      ensures
        RestoreAll(snapshot, start, changes, force).results[i].status.Unending? <==>
        Hangs(snapshot, RestoreAll(snapshot, start, changes[..i], force).disk, changes[i], force)
    {
      AllResults(snapshot, start, changes, force, i);
      StepHangs(snapshot, RestoreAll(snapshot, start, changes[..i], force).disk, changes[i], force);
    }
    if force {
      NeverForced(snapshot, start, changes);
    }
  }

  lemma NeverForced(snapshot: Snapshot, start: Disk, changes: seq<Change>)
    ensures forall i :: 0 <= i < |changes| ==>
      !Hangs(snapshot, RestoreAll(snapshot, start, changes[..i], true).disk, changes[i], true)
  {
    hide RestoreAll;
  }

  /** A file that was there before the session and has changed since it ended makes the
      restore hang if its name has 219 bytes or more, unless the way to it is closed. */
  lemma LongNameHangs(snapshot: Snapshot, start: Disk, changes: seq<Change>, index: nat)
    requires Begun(start) && DistinctPaths(changes) && index < |changes|
    requires changes[index].path in start.nodes && ChangedSince(snapshot, start, changes[index])
    requires changes[index].before.Some? && SessionID(snapshot.id)
    requires changes[index].path != [] && |changes[index].path[|changes[index].path| - 1]| >= 219
    ensures
      var d := RestoreAll(snapshot, start, changes[..index], false).disk;
      RestoreAll(snapshot, start, changes, false).results[index].status
      == if Lookup(d.nodes, changes[index].path).Denied? then Failed else Unending
  {
    hide RestoreOne, Lookup, Sidecar, ChangedSince, Kept, SessionID;
    var change := changes[index];
    var d := RestoreAll(snapshot, start, changes[..index], false).disk;
    WaitingKept(snapshot, start, changes, false, index, change.path);
    WaitingComparable(snapshot, start, d, changes, change);
    AllResults(snapshot, start, changes, false, index);
    StepHangs(snapshot, d, change, false);
    NoSidecar(d.nodes, change.path, snapshot.id);
    DeniedFails(snapshot, d, change);
  }

  lemma NoSidecar(nodes: Tree, path: Path, id: string)
    requires path != [] && SessionID(id) && |path[|path| - 1]| >= 219
    ensures Sidecar(nodes, path, id).None?
  {
    SessionNames(nodes, path, id, |nodes| + 1);
    hide Search, SessionID;
  }

  lemma DeniedFails(snapshot: Snapshot, d: Disk, change: Change)
    ensures Lookup(d.nodes, change.path).Denied? ==> RestoreOne(snapshot, d, change, false).result.status.Failed?
  {
    hide Lookup, Refuse, AlreadyRight, Conflicts, RestoreObject, Remove;
  }

  /* What a hung restore leaves behind. */

  /** The path is as it was, but for a directory that was opened and never closed again;
      or it is a missing directory that was made and never got its own mode. */
  predicate LeftBehind(snapshot: Snapshot, start: Disk, d: Disk, changes: seq<Change>, path: Path) {
    if path in start.nodes then
      && path in d.nodes
      && (path in d.temporary ==> start.nodes[path].kind.Directory?)
      && d.nodes[path] ==
           if path in d.temporary then start.nodes[path].(mode := start.nodes[path].mode.Widened())
           else start.nodes[path]
    else
      path in d.nodes ==>
        && (exists i :: 0 <= i < |changes| && IsAbove(path, changes[i].path))
        && path in snapshot.baseline && snapshot.baseline[path].kind.Directory?
        && d.nodes[path].kind.Directory? && d.nodes[path].mode == PRIVATE
  }

  /** A restore that hangs at a change has done what came before it and nothing else; the
      directories it opened or made on the way stay as they are. */
  lemma HangLeaves(
    snapshot: Snapshot, start: Disk, changes: seq<Change>, force: bool, index: nat, path: Path)
    requires Begun(start) && index < |changes|
    requires RestoreAll(snapshot, start, changes, force).results[index].status.Unending?
    ensures
      var run := RestoreAll(snapshot, start, changes[..index + 1], force);
      && run.disk == RestoreAll(snapshot, start, changes[..index], force).disk
      && (!ReportedRestored(run.results, path) && (path in start.nodes || !IsCopy(run.results, path)) ==>
            LeftBehind(snapshot, start, run.disk, changes, path))
  {
    hide RestoreOne, Hangs;
    var earlier := RestoreAll(snapshot, start, changes[..index], force);
    var run := RestoreAll(snapshot, start, changes[..index + 1], force);
    assert changes[..index + 1][..index] == changes[..index];
    AllResults(snapshot, start, changes, force, index);
    UnendingKeeps(snapshot, earlier.disk, changes[index], force);
    RunFrame(snapshot, start, changes, force, index + 1, path);
    if path in start.nodes {
      NoCopy(snapshot, start, changes[..index + 1], force, path);
    }
  }

  lemma UnendingKeeps(snapshot: Snapshot, d: Disk, change: Change, force: bool)
    ensures
      var outcome := RestoreOne(snapshot, d, change, force);
      outcome.result.status.Unending? ==> outcome.disk == d
  {
    hide Sidecar, Lookup, AlreadyRight, Conflicts, RestoreObject;
  }

  /* Names that are short enough from the start. */

  /** How many entries restoring these changes can add at most. */
  function Room(changes: seq<Change>): nat {
    if changes == [] then 0 else Room(changes[..|changes| - 1]) + |changes[|changes| - 1].path| + 1
  }

  lemma OneMore(before: Tree, after: Tree, path: Path)
    requires after.Keys <= before.Keys + {path}
    ensures |after| <= |before| + 1
  {
    Fewer(after.Keys, before.Keys + {path});
    assert |after| == |after.Keys| && |before| == |before.Keys|;
  }

  lemma EnsureOneAdds(snapshot: Snapshot, d: Disk, path: Path)
    ensures |EnsureOne(snapshot, d, path).disk.nodes| <= |d.nodes| + 1
  {
    hide Lookup, Writable;
    OneMore(d.nodes, EnsureOne(snapshot, d, path).disk.nodes, path);
  }

  lemma {:induction false} EnsureAdds(snapshot: Snapshot, d: Disk, path: Path)
    ensures |Ensure(snapshot, d, path).disk.nodes| <= |d.nodes| + |path| + 1
  {
    hide EnsureOne;
    if path == [] {
      EnsureOneAdds(snapshot, d, path);
    } else {
      EnsureAdds(snapshot, d, Parent(path));
      EnsureOneAdds(snapshot, Ensure(snapshot, d, Parent(path)).disk, path);
    }
  }

  lemma WriteAdds(snapshot: Snapshot, d: Disk, path: Path, entry: Entry)
    ensures |RestoreDirectory(d, path, entry).disk.nodes| <= |d.nodes| + 1
    ensures |RestoreFile(snapshot, d, path, entry).disk.nodes| <= |d.nodes| + 1
  {
    hide Writable;
    OneMore(d.nodes, RestoreDirectory(d, path, entry).disk.nodes, path);
    OneMore(d.nodes, RestoreFile(snapshot, d, path, entry).disk.nodes, path);
  }

  lemma RefuseAdds(snapshot: Snapshot, d: Disk, change: Change)
    ensures |Refuse(snapshot, d, change).disk.nodes| <= |d.nodes| + 1
  {
    hide Writable, Sidecar;
    var named := Sidecar(d.nodes, change.path, snapshot.id);
    OneMore(d.nodes, Refuse(snapshot, d, change).disk.nodes, if named.Some? then named.value else []);
  }

  lemma RemoveAdds(d: Disk, change: Change)
    ensures |Remove(d, change).disk.nodes| <= |d.nodes|
  {
    hide Removable;
    var e := Remove(d, change).disk.nodes;
    Fewer(e.Keys, d.nodes.Keys);
    assert |e| == |e.Keys| && |d.nodes| == |d.nodes.Keys|;
  }

  lemma StepAdds(snapshot: Snapshot, d: Disk, change: Change, force: bool)
    ensures |RestoreOne(snapshot, d, change, force).disk.nodes| <= |d.nodes| + |change.path| + 1
  {
    RefuseAdds(snapshot, d, change);
    RemoveAdds(d, change);
    hide Refuse, Remove, Lookup, AlreadyRight, Conflicts, RestoreDirectory, RestoreFile, Ensure;
    if change.before.Some? {
      if change.path != [] {
        EnsureAdds(snapshot, d, Parent(change.path));
      }
      WriteAdds(snapshot, EnsureParents(snapshot, d, change.path).disk, change.path, change.before.value);
    }
  }

  lemma {:induction false} RunAdds(snapshot: Snapshot, start: Disk, changes: seq<Change>, force: bool, done: nat)
    requires done <= |changes|
    ensures |RestoreAll(snapshot, start, changes[..done], force).disk.nodes| <= |start.nodes| + Room(changes[..done])
    ensures Room(changes[..done]) <= Room(changes)
    decreases |changes| + done
  {
    hide RestoreOne;
    var last := |changes| - 1;
    if done < |changes| {
      RunAdds(snapshot, start, changes[..last], force, done);
      assert changes[..last][..done] == changes[..done];
    } else if done > 0 {
      assert changes[..done] == changes && changes[..last][..last] == changes[..last];
      RunAdds(snapshot, start, changes[..last], force, last);
      StepAdds(snapshot, RestoreAll(snapshot, start, changes[..last], force).disk, changes[last], force);
    }
  }

  /** A restore comes back if every name leaves room for a number as large as the files
      there are at the start and those it can add. */
  lemma ShortNamesComeBack(snapshot: Snapshot, start: Disk, changes: seq<Change>, force: bool)
    requires forall i :: 0 <= i < |changes| && changes[i].path != [] ==>
      |SidecarName(changes[i].path[|changes[i].path| - 1], snapshot.id, |start.nodes| + Room(changes))| <= NAME_MAX
    ensures ComesBack(RestoreAll(snapshot, start, changes, force).results)
  {
    hide RestoreAll, Hangs, SidecarName, Room;
    forall i | 0 <= i < |changes|
      ensures !Hangs(snapshot, RestoreAll(snapshot, start, changes[..i], force).disk, changes[i], force)
    {
      RunAdds(snapshot, start, changes, force, i);
      RoomNamed(snapshot, RestoreAll(snapshot, start, changes[..i], force).disk, changes[i],
                |start.nodes| + Room(changes), force);
    }
    ComesBackExactly(snapshot, start, changes, force);
  }

  lemma RoomNamed(snapshot: Snapshot, d: Disk, change: Change, count: nat, force: bool)
    requires |d.nodes| <= count
    requires change.path != [] ==>
      |SidecarName(change.path[|change.path| - 1], snapshot.id, count)| <= NAME_MAX
    ensures !Hangs(snapshot, d, change, force)
  {
    var path := change.path;
    if path != [] && !Lookup(d.nodes, path).Denied? {
      NamesGrow(path[|path| - 1], snapshot.id, |d.nodes|, count);
      LookUpThrough(d.nodes, path);
      CandidateBeside(path, snapshot.id, |d.nodes|);
      LookUpThrough(d.nodes, Candidate(path, snapshot.id, |d.nodes|));
      LongNamesHang(d.nodes, path, snapshot.id, |d.nodes| + 1);
    }
    hide Lookup, Candidate, Search, SidecarName, ChangedSince;
  }
}
