/**
 The restore command itself: it updates the files and, while it runs, the record of
 directories it created, widened and finished with. Every method does what the
 functions of `Restoring` say.
 */
module Restorer {
  import opened Wrappers
  import opened FileTrees
  import opened Sidecars
  import opened Restoring
  import opened RestoreOrder
  import opened RestoreFrame
  import opened RestoreAgain

  class RestoreExecution {
    const snapshot: Snapshot
    var nodes: Tree
    var clock: int
    var created: map<Path, Entry>
    var temporary: map<Path, Entry>
    var finalized: set<Path>

    constructor (snapshot: Snapshot, nodes: Tree, clock: int)
      ensures this.snapshot == snapshot && State() == Disk(nodes, clock, map[], map[], {})
    {
      this.snapshot := snapshot;
      this.nodes, this.clock := nodes, clock;
      created, temporary, finalized := map[], map[], {};
    }

    function State(): Disk
      reads this
    {
      Disk(nodes, clock, created, temporary, finalized)
    }

    method Mkdir(path: Path)
      modifies this`nodes, this`clock
      ensures State() == Made(old(State()), path)
    {
      nodes := nodes[path := Node(Directory, "", PRIVATE, clock)];
      clock := clock + 1;
    }

    method SetMode(path: Path, mode: Mode)
      requires path in nodes
      modifies this`nodes
      ensures State() == Chmod(old(State()), path, mode)
    {
      nodes := nodes[path := nodes[path].(mode := mode)];
    }

    method EnsureDirectory(path: Path) returns (ok: bool)
      modifies this`nodes, this`clock, this`created, this`temporary
      ensures Attempt(State(), ok) == EnsureOne(snapshot, old(State()), path)
    {
      var look := Lookup(nodes, path);
      if look.Denied? {
        return false;
      }
      if look.Present? && path in nodes {
        var node := nodes[path];
        if !node.kind.Directory? {
          return false;
        }
        if !node.mode.Usable() {
          if path !in temporary {
            temporary := temporary[path := EntryOf(node)];
          }
          SetMode(path, node.mode.Widened());
        }
        return true;
      }
      if path in nodes || path !in snapshot.baseline || !snapshot.baseline[path].kind.Directory? ||
         !Writable(nodes, path)
      {
        return false;
      }
      Mkdir(path);
      created := created[path := snapshot.baseline[path]];
      return true;
    }

    /** Makes or widens every directory above `path`, from the root down. */
    method EnsureParentDirectories(path: Path) returns (ok: bool)
      modifies this`nodes, this`clock, this`created, this`temporary
      ensures Attempt(State(), ok) == EnsureParents(snapshot, old(State()), path)
    {
      hide EnsureOne;
      if path == [] {
        return [] in snapshot.baseline && !snapshot.baseline[[]].kind.Directory?;
      }
      ok := EnsureDirectory([]);
      var length := 0;
      while ok && length < |path| - 1
        invariant 0 <= length <= |path| - 1
        invariant Attempt(State(), ok) == Ensure(snapshot, old(State()), path[..length])
        decreases |path| - length, if ok then 1 else 0
      {
        assert Parent(path[..length + 1]) == path[..length];
        length := length + 1;
        ok := EnsureDirectory(path[..length]);
      }
      if !ok {
        EnsureFails(snapshot, old(State()), path[..length], Parent(path));
      }
    }

    /** A failure above is a failure below. */
    static lemma {:induction false} EnsureFails(snapshot: Snapshot, disk: Disk, above: Path, path: Path)
      requires Within(path, above) && !Ensure(snapshot, disk, above).ok
      ensures Ensure(snapshot, disk, path) == Ensure(snapshot, disk, above)
    {
      if path != above {
        AboveParent(above, path);
        EnsureFails(snapshot, disk, above, Parent(path));
      }
    }

    method WriteAtomically(source: Path, path: Path, entry: Entry)
      requires source in snapshot.contents
      modifies this`nodes, this`clock
      ensures State() == Written(snapshot, old(State()), source, path, entry)
    {
      var mode := if entry.kind.Symlink? then LINK_MODE else entry.mode;
      nodes := nodes[path := Node(entry.kind, snapshot.contents[source], mode, clock)];
      clock := clock + 1;
    }

    method RestoreSnapshotObject(path: Path, entry: Entry) returns (ok: bool)
      modifies this
      ensures Attempt(State(), ok) == RestoreObject(snapshot, old(State()), path, entry)
    {
      hide EnsureParents;
      ok := EnsureParentDirectories(path);
      if !ok {
        return;
      }
      if entry.kind.Directory? {
        if path in nodes {
          if !nodes[path].kind.Directory? {
            return false;
          }
        } else if !Writable(nodes, path) {
          return false;
        } else {
          Mkdir(path);
          created := created[path := entry];
        }
        SetMode(path, entry.mode);
        finalized := finalized + {path};
        return true;
      }
      if entry.kind.Other? || path !in snapshot.contents || !Writable(nodes, path) ||
         (path in nodes && nodes[path].kind.Directory?)
      {
        return false;
      }
      WriteAtomically(path, path, entry);
      return true;
    }

    method RestoreOneChange(change: Change, force: bool) returns (result: Result)
      modifies this
      ensures Outcome(State(), result) == RestoreOne(snapshot, old(State()), change, force)
    {
      hide RestoreObject, MatchesBefore, MatchesExpected;
      result := Result(change.path, Failed, None);
      if Lookup(nodes, change.path).Denied? {
        return;
      }
      if AlreadyRight(snapshot, State(), change) {
        return Result(change.path, AlreadyRestored, None);
      }
      if Conflicts(State(), change) && !force {
        result := RefuseChange(change);
        return;
      }
      if change.kind.Created? {
        if change.path in nodes {
          if !Removable(nodes, change.path) {
            return;
          }
          nodes := nodes - {change.path};
        }
        return Result(change.path, Restored, None);
      }
      if change.before.Some? {
        var ok := RestoreSnapshotObject(change.path, change.before.value);
        result := Result(change.path, if ok then Restored else Failed, None);
      }
    }

    method RefuseChange(change: Change) returns (result: Result)
      modifies this`nodes, this`clock
      ensures Outcome(State(), result) == Refuse(snapshot, old(State()), change)
    {
      result := Result(change.path, Refused, None);
      if change.before.None? || change.path == [] {
        return;
      }
      var entry := change.before.value;
      var named := AvailableSidecar(nodes, change.path, snapshot.id, |nodes| + 1);
      if named.None? {
        return Result(change.path, Unending, None);
      }
      var sidecar := named.value;
      if !Writable(nodes, sidecar) {
        return;
      }
      if entry.kind.Directory? {
        Mkdir(sidecar);
        SetMode(sidecar, entry.mode);
      } else if entry.kind.Other? || change.path !in snapshot.contents {
        return;
      } else {
        WriteAtomically(change.path, sidecar, entry);
      }
      result := Result(change.path, Refused, Some(sidecar));
    }

    /** Stops for ever at the first step that does not end. */
    method RestoreSelection(changes: seq<Change>, force: bool) returns (results: seq<Result>, back: bool)
      modifies this
      ensures back <==> ComesBack(RestoreAll(snapshot, old(State()), changes, force).results)
      ensures |results| <= |changes|
      ensures Run(State(), results) == RestoreAll(snapshot, old(State()), changes[..|results|], force)
      ensures if back then |results| == |changes| else results != [] && results[|results| - 1].status.Unending?
    {
      hide RestoreOne;
      results, back := [], true;
      for index := 0 to |changes|
        invariant |results| == index && ComesBack(results)
        invariant Run(State(), results) == RestoreAll(snapshot, old(State()), changes[..index], force)
      {
        assert changes[..index + 1][..index] == changes[..index];
        var result := RestoreOneChange(changes[index], force);
        results := results + [result];
        if result.status.Unending? {
          PrefixResults(snapshot, old(State()), changes, force, index + 1);
          assert RestoreAll(snapshot, old(State()), changes, force).results[index].status.Unending?;
          return results, false;
        }
      }
      assert changes[..|changes|] == changes;
    }

    /** The unfinished directories, deepest first. */
    method FinishPaths() returns (paths: seq<Path>)
      ensures FinishOrder(State(), paths)
    {
      paths := [];
      var pending := created.Keys + temporary.Keys - finalized;
      while pending != {}
        invariant forall path :: path in pending || path in paths <==> path in Unfinished(State())
        invariant forall path :: path in pending ==> path !in paths
        invariant forall i :: 0 <= i < |paths| ==> forall path :: path in pending ==> |paths[i]| >= |path|
        invariant forall i, j :: 0 <= i < j < |paths| ==> paths[i] != paths[j] && |paths[i]| >= |paths[j]|
        decreases pending
      {
        var deepest := Deepest(pending);
        pending := pending - {deepest};
        paths := paths + [deepest];
      }
    }

    static method Deepest(pending: set<Path>) returns (deepest: Path)
      requires pending != {}
      ensures deepest in pending && forall path :: path in pending ==> |path| <= |deepest|
    {
      deepest :| deepest in pending;
      var left := pending - {deepest};
      while left != {}
        invariant deepest in pending && left <= pending
        invariant forall path :: path in pending && path !in left ==> |path| <= |deepest|
        decreases left
      {
        var path :| path in left;
        if |path| > |deepest| {
          deepest := path;
        }
        left := left - {path};
      }
    }

    method FinishRestoreExecution(results: seq<Result>) returns (finished: seq<Result>, ghost paths: seq<Path>)
      modifies this`nodes
      ensures FinishOrder(old(State()), paths)
      ensures Run(State(), finished) == Finish(Run(old(State()), results), paths)
    {
      hide FinishOne;
      var order := FinishPaths();
      paths := order;
      finished := results;
      assert AllInHand(State(), order);
      for index := 0 to |order|
        invariant AllInHand(old(State()), order[..index])
        invariant State() == old(State()).(nodes := nodes)
        invariant Run(State(), finished) == Finish(Run(old(State()), results), order[..index])
      {
        var path := order[index];
        assert order[..index + 1][..index] == order[..index];
        finished := FinishDirectory(finished, path);
      }
      assert order[..|order|] == order;
    }

    method FinishDirectory(results: seq<Result>, path: Path) returns (finished: seq<Result>)
      requires path in Unfinished(State())
      modifies this`nodes
      ensures Run(State(), finished) == FinishOne(Run(old(State()), results), path, FinalEntry(old(State()), path).mode)
      ensures State() == old(State()).(nodes := nodes)
    {
      finished := results;
      if Lookup(nodes, path).Present? && path in nodes {
        SetMode(path, FinalEntry(State(), path).mode);
      } else {
        finished := AttachFailure(results, path);
      }
    }

    static method AttachFailure(results: seq<Result>, path: Path) returns (attached: seq<Result>)
      ensures attached == Attach(results, path)
    {
      var index := 0;
      while index < |results| && results[index].path != path
        invariant 0 <= index <= |results|
        invariant FirstResult(results, path) == index + FirstResult(results[index..], path)
      {
        assert results[index..][1..] == results[index + 1..];
        index := index + 1;
      }
      if index < |results| {
        return results[index := results[index].(status := Failed)];
      }
      return results + [Result(path, Failed, None)];
    }

    /** A whole restore: what changed is put back in order, then the directories in
        hand get their modes. Without `back` the command hangs after the last result. */
    method RestoreChanges(changes: seq<Change>, force: bool)
      returns (results: seq<Result>, back: bool, ghost ordered: seq<Change>, ghost paths: seq<Path>)
      requires Begun(State())
      modifies this
      ensures Ordered(ordered) && multiset(ordered) == multiset(changes)
      ensures back <==> ComesBack(RestoreAll(snapshot, old(State()), ordered, force).results)
      ensures back ==>
        && FinishOrder(RestoreAll(snapshot, old(State()), ordered, force).disk, paths)
        && Run(State(), results) == Finish(RestoreAll(snapshot, old(State()), ordered, force), paths)
      ensures !back ==>
        && 0 < |results| <= |ordered| && results[|results| - 1].status.Unending?
        && Run(State(), results) == RestoreAll(snapshot, old(State()), ordered[..|results|], force)
    {
      var inOrder := OrderRestoreChanges(changes);
      ordered, paths := inOrder, [];
      results, back := RestoreSelection(inOrder, force);
      if back {
        assert inOrder[..|inOrder|] == inOrder;
        results, paths := FinishRestoreExecution(results);
      }
    }
  }
}
