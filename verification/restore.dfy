/**
 Restoring changed paths from a snapshot: what each step does to the files and to
 the record of directories created or temporarily widened on the way.
 */
module Restoring {
  import opened Wrappers
  import opened FileTrees
  import opened Sidecars

  /** What a scan records of a node; a file's bytes are in the snapshot instead. */
  datatype Entry = Entry(kind: Kind, size: nat, target: string, mode: Mode, stamp: int)

  function EntryOf(node: Node): Entry {
    Entry(node.kind, if node.kind.File? then |node.content| else 0,
          if node.kind.Symlink? then node.content else "", node.mode, node.stamp)
  }

  function EntryAt(tree: Tree, path: Path): Option<Entry> {
    if path in tree then Some(EntryOf(tree[path])) else None
  }

  /** Of directories only the mode is compared. */
  predicate EntriesDiffer(left: Entry, right: Entry) {
    if left.kind.Directory? && right.kind.Directory? then left.mode != right.mode else left != right
  }

  datatype ChangeKind = Created | Modified | Deleted

  datatype Change = Change(kind: ChangeKind, path: Path, before: Option<Entry>, after: Option<Entry>)

  /** `Unending` is no status: the search for the name of a copy never ends, so the
      command never comes back and nothing after this step happens. */
  datatype Status = Restored | AlreadyRestored | Refused | Failed | Unending

  datatype Result = Result(path: Path, status: Status, sidecar: Option<Path>)

  /** What a session recorded: entries before it and the bytes of files and links. */
  datatype Snapshot = Snapshot(baseline: map<Path, Entry>, contents: map<Path, string>, id: string)

  /** The files, and the directories this restore created, widened and finished with. */
  datatype Disk = Disk(
    nodes: Tree, clock: int, created: map<Path, Entry>, temporary: map<Path, Entry>, finalized: set<Path>)

  /** The mode of a directory made before its own mode is known to be wanted. */
  const PRIVATE := Mode(true, true, 0)

  /** Linux gives every symbolic link one mode. */
  const LINK_MODE := Mode(true, true, 1)

  predicate Writable(nodes: Tree, path: Path) {
    path == [] ||
    (Lookup(nodes, Parent(path)).Present? &&
     var directory := Lookup(nodes, Parent(path)).node;
     directory.kind.Directory? && directory.mode.Usable())
  }

  function Made(disk: Disk, path: Path): Disk {
    disk.(nodes := disk.nodes[path := Node(Directory, "", PRIVATE, disk.clock)], clock := disk.clock + 1)
  }

  function Chmod(disk: Disk, path: Path, mode: Mode): Disk
    requires path in disk.nodes
  {
    disk.(nodes := disk.nodes[path := disk.nodes[path].(mode := mode)])
  }

  /** An empty directory or anything else can be removed from a writable directory. */
  predicate Removable(nodes: Tree, path: Path) {
    && Writable(nodes, path) && path in nodes
    && (nodes[path].kind.Directory? ==> forall child :: child in nodes && child != [] ==> Parent(child) != path)
  }

  datatype Attempt = Attempt(disk: Disk, ok: bool)

  /** A missing parent is created from the baseline, an unusable one widened for now. */
  function EnsureOne(snapshot: Snapshot, disk: Disk, path: Path): Attempt {
    var look := Lookup(disk.nodes, path);
    if look.Denied? then Attempt(disk, false)
    else if look.Present? && path in disk.nodes then
      var node := disk.nodes[path];
      if !node.kind.Directory? then Attempt(disk, false)
      else if node.mode.Usable() then Attempt(disk, true)
      else
        var noted := if path in disk.temporary then disk.temporary else disk.temporary[path := EntryOf(node)];
        Attempt(Chmod(disk, path, node.mode.Widened()).(temporary := noted), true)
    else if path in disk.nodes || path !in snapshot.baseline || !snapshot.baseline[path].kind.Directory? then
      Attempt(disk, false)
    else if !Writable(disk.nodes, path) then Attempt(disk, false)
    else
      var made := Made(disk, path);
      Attempt(made.(created := made.created[path := snapshot.baseline[path]]), true)
  }

  /** From the root down to and including `path`. */
  function Ensure(snapshot: Snapshot, disk: Disk, path: Path): Attempt {
    if path == [] then EnsureOne(snapshot, disk, path)
    else
      var upper := Ensure(snapshot, disk, Parent(path));
      if !upper.ok then upper else EnsureOne(snapshot, upper.disk, path)
  }

  function EnsureParents(snapshot: Snapshot, disk: Disk, path: Path): Attempt {
    if path != [] then Ensure(snapshot, disk, Parent(path))
    else Attempt(disk, path in snapshot.baseline && !snapshot.baseline[path].kind.Directory?)
  }

  /** Writes the snapshot's version of a path over what is there. */
  function RestoreObject(snapshot: Snapshot, disk: Disk, path: Path, entry: Entry): Attempt {
    var parents := EnsureParents(snapshot, disk, path);
    if !parents.ok then parents
    else if entry.kind.Directory? then RestoreDirectory(parents.disk, path, entry)
    else RestoreFile(snapshot, parents.disk, path, entry)
  }

  function RestoreDirectory(disk: Disk, path: Path, entry: Entry): Attempt {
    if path in disk.nodes then
      if !disk.nodes[path].kind.Directory? then Attempt(disk, false)
      else Attempt(Chmod(disk, path, entry.mode).(finalized := disk.finalized + {path}), true)
    else if !Writable(disk.nodes, path) then Attempt(disk, false)
    else
      var made := Made(disk, path);
      Attempt(Chmod(made, path, entry.mode).(created := made.created[path := entry],
                                             finalized := made.finalized + {path}), true)
  }

  /** A file or link is written beside its destination and renamed over it. */
  function RestoreFile(snapshot: Snapshot, disk: Disk, path: Path, entry: Entry): Attempt {
    if entry.kind.Other? || path !in snapshot.contents || !Writable(disk.nodes, path) then Attempt(disk, false)
    else if path in disk.nodes && disk.nodes[path].kind.Directory? then Attempt(disk, false)
    else Attempt(Written(snapshot, disk, path, path, entry), true)
  }

  function Written(snapshot: Snapshot, disk: Disk, source: Path, path: Path, entry: Entry): Disk
    requires source in snapshot.contents
  {
    var mode := if entry.kind.Symlink? then LINK_MODE else entry.mode;
    disk.(nodes := disk.nodes[path := Node(entry.kind, snapshot.contents[source], mode, disk.clock)],
          clock := disk.clock + 1)
  }

  /** The current entry is already what was there before; files compare by content. */
  predicate MatchesBefore(snapshot: Snapshot, change: Change, current: Option<Entry>, content: string) {
    match change.before
    case None => current.None?
    case Some(before) =>
      && current.Some? && current.value.kind == before.kind && current.value.mode == before.mode
      && match before.kind
         case Directory => true
         case Symlink => current.value.target == before.target
         case File =>
           && current.value.size == before.size
           && change.path in snapshot.contents && snapshot.contents[change.path] == content
         case Other => false
  }

  predicate MatchesExpected(current: Option<Entry>, expected: Option<Entry>) {
    match expected
    case None => current.None?
    case Some(entry) => current.Some? && !EntriesDiffer(current.value, entry)
  }

  /** A temporarily widened directory is compared as it was. */
  function Comparable(disk: Disk, path: Path): Option<Entry> {
    if path !in disk.nodes then None
    else if path in disk.temporary then Some(disk.temporary[path])
    else Some(EntryOf(disk.nodes[path]))
  }

  function ContentAt(nodes: Tree, path: Path): string {
    if path in nodes then nodes[path].content else ""
  }

  datatype Outcome = Outcome(disk: Disk, result: Result)

  function Ended(disk: Disk, change: Change, status: Status): Outcome {
    Outcome(disk, Result(change.path, status, None))
  }

  predicate AlreadyRight(snapshot: Snapshot, disk: Disk, change: Change) {
    && MatchesBefore(snapshot, change, Comparable(disk, change.path), ContentAt(disk.nodes, change.path))
    && change.path !in disk.created
  }

  predicate Conflicts(disk: Disk, change: Change) {
    && !MatchesExpected(Comparable(disk, change.path), change.after)
    && !(change.path in disk.created && change.before.Some? && change.before.value.kind.Directory?)
  }

  /** One change. */
  function RestoreOne(snapshot: Snapshot, disk: Disk, change: Change, force: bool): Outcome {
    if Lookup(disk.nodes, change.path).Denied? then Ended(disk, change, Failed)
    else if AlreadyRight(snapshot, disk, change) then Ended(disk, change, AlreadyRestored)
    else if Conflicts(disk, change) && !force then Refuse(snapshot, disk, change)
    else if change.kind.Created? then Remove(disk, change)
    else if change.before.None? then Ended(disk, change, Failed)
    else
      var attempt := RestoreObject(snapshot, disk, change.path, change.before.value);
      Ended(attempt.disk, change, if attempt.ok then Restored else Failed)
  }

  function Remove(disk: Disk, change: Change): Outcome {
    if change.path !in disk.nodes then Ended(disk, change, Restored)
    else if !Removable(disk.nodes, change.path) then Ended(disk, change, Failed)
    else Ended(disk.(nodes := disk.nodes - {change.path}), change, Restored)
  }

  /** A conflicting path is left alone; what was there before is put beside it. (A copy
      of the watched root would lie outside it and is not modelled.) */
  function Refuse(snapshot: Snapshot, disk: Disk, change: Change): Outcome {
    if change.before.None? || change.path == [] then Ended(disk, change, Refused)
    else
      var entry, named := change.before.value, Sidecar(disk.nodes, change.path, snapshot.id);
      if named.None? then Ended(disk, change, Unending)
      else RefuseBeside(snapshot, disk, change, entry, named.value)
  }

  function RefuseBeside(snapshot: Snapshot, disk: Disk, change: Change, entry: Entry, sidecar: Path): Outcome {
    if !Writable(disk.nodes, sidecar) then Ended(disk, change, Refused)
    else if entry.kind.Directory? then
      Outcome(Chmod(Made(disk, sidecar), sidecar, entry.mode), Result(change.path, Refused, Some(sidecar)))
    else if entry.kind.Other? || change.path !in snapshot.contents then Ended(disk, change, Refused)
    else
      Outcome(Written(snapshot, disk, change.path, sidecar, entry), Result(change.path, Refused, Some(sidecar)))
  }

  ghost predicate DistinctPaths(changes: seq<Change>) {
    forall i, j :: 0 <= i < j < |changes| ==> changes[i].path != changes[j].path
  }

  /** An order in which nothing is restored before what lies below it. */
  ghost predicate ChildrenFirst(changes: seq<Change>) {
    forall i, j :: 0 <= i < j < |changes| ==>
      changes[i].path != changes[j].path && !IsAbove(changes[i].path, changes[j].path)
  }

  datatype Run = Run(disk: Disk, results: seq<Result>)

  /** No step kept the command from coming back. */
  predicate ComesBack(results: seq<Result>) {
    forall i :: 0 <= i < |results| ==> !results[i].status.Unending?
  }

  /** The changes in order. What follows an unending step is never reached. */
  function RestoreAll(snapshot: Snapshot, disk: Disk, changes: seq<Change>, force: bool): (run: Run)
    ensures |run.results| == |changes|
  {
    if changes == [] then Run(disk, [])
    else
      var last := |changes| - 1;
      var earlier := RestoreAll(snapshot, disk, changes[..last], force);
      var outcome := RestoreOne(snapshot, earlier.disk, changes[last], force);
      Run(outcome.disk, earlier.results + [outcome.result])
  }

  /* Directories made or widened on the way get their own modes in the end. */

  function Unfinished(disk: Disk): set<Path> {
    disk.created.Keys + disk.temporary.Keys - disk.finalized
  }

  function FinalEntry(disk: Disk, path: Path): Entry
    requires path in disk.created || path in disk.temporary
  {
    if path in disk.created then disk.created[path] else disk.temporary[path]
  }

  function FirstResult(results: seq<Result>, path: Path): (index: nat)
    ensures index <= |results| && (index < |results| ==> results[index].path == path)
  {
    if results == [] || results[0].path == path then 0 else 1 + FirstResult(results[1..], path)
  }

  /** A failure is reported with the path's own result, or as one more result. */
  function Attach(results: seq<Result>, path: Path): seq<Result> {
    var index := FirstResult(results, path);
    if index < |results| then results[index := results[index].(status := Failed)]
    else results + [Result(path, Failed, None)]
  }

  function FinishOne(run: Run, path: Path, mode: Mode): Run {
    if Lookup(run.disk.nodes, path).Present? && path in run.disk.nodes then
      run.(disk := Chmod(run.disk, path, mode))
    else run.(results := Attach(run.results, path))
  }

  predicate AllInHand(disk: Disk, paths: seq<Path>) {
    forall i :: 0 <= i < |paths| ==> paths[i] in Unfinished(disk)
  }

  function Finish(run: Run, paths: seq<Path>): Run
    requires AllInHand(run.disk, paths)
  {
    if paths == [] then run
    else
      var last := |paths| - 1;
      FinishOne(Finish(run, paths[..last]), paths[last], FinalEntry(run.disk, paths[last]).mode)
  }

  /** `paths` are the unfinished directories, each once, deepest first. */
  ghost predicate FinishOrder(disk: Disk, paths: seq<Path>) {
    && (forall path :: path in paths <==> path in Unfinished(disk))
    && forall i, j :: 0 <= i < j < |paths| ==> paths[i] != paths[j] && |paths[i]| >= |paths[j]|
  }
}
