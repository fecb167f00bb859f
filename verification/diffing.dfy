/**
 Comparing two scans of the watched files.
 */
module Diffing {
  import opened Wrappers
  import opened FileTrees
  import opened Restoring

  /** Files up to this size are compared byte by byte before a change is reported. */
  const AUTOMATIC_COMPARISON_BYTES := 8 * 1024 * 1024

  /** A path below a prefix, or the prefix itself. Nothing is below the root directory:
      its name already ends in the separator that is looked for. */
  predicate Covers(prefix: Path, path: Path) {
    path == prefix || (prefix != [] && IsAbove(prefix, path))
  }

  predicate CoveredBy(path: Path, prefixes: set<Path>) {
    exists prefix :: prefix in prefixes && Covers(prefix, path)
  }

  /** A watched root: whether it could be captured, and what inside it could not. */
  datatype Root = Root(path: Path, existed: bool, uncaptured: set<Path>)

  /** A root that did capture a path is trusted over a failure reported elsewhere. */
  predicate ExcludedFromDiff(path: Path, uncaptured: set<Path>, roots: seq<Root>) {
    && CoveredBy(path, uncaptured)
    && forall i :: 0 <= i < |roots| && roots[i].existed && Covers(roots[i].path, path) ==>
         exists failure :: failure in roots[i].uncaptured && Covers(failure, path)
  }

  /** What is compared: scans, and the bytes of files in the snapshot and on disk. */
  datatype Scans = Scans(
    before: map<Path, Entry>, after: map<Path, Entry>, uncaptured: set<Path>, roots: seq<Root>,
    saved: Option<map<Path, string>>, live: map<Path, string>)

  /** A file that merely looks changed, as far as a bounded comparison can tell. */
  predicate CheaplyMatches(s: Scans, path: Path, before: Entry, after: Entry) {
    && s.saved.Some? && before.kind.File? && after.kind.File?
    && before.size == after.size && before.size <= AUTOMATIC_COMPARISON_BYTES && before.mode == after.mode
    && path in s.saved.value && path in s.live && s.saved.value[path] == s.live[path]
  }

  /** The change to report for a path, if any. */
  function ChangeAt(s: Scans, path: Path): Option<Change> {
    if ExcludedFromDiff(path, s.uncaptured, s.roots) then None
    else if path in s.before then
      if path !in s.after then Some(Change(Deleted, path, Some(s.before[path]), None))
      else if EntriesDiffer(s.before[path], s.after[path]) && !CheaplyMatches(s, path, s.before[path], s.after[path])
      then Some(Change(Modified, path, Some(s.before[path]), Some(s.after[path])))
      else None
    else if path in s.after then Some(Change(Created, path, None, Some(s.after[path])))
    else None
  }

  /** Exactly the changes of the paths in `done` are listed, each once. */
  ghost predicate Lists(s: Scans, changes: seq<Change>, done: set<Path>) {
    && DistinctPaths(changes)
    && (forall i :: 0 <= i < |changes| ==>
          changes[i].path in done && ChangeAt(s, changes[i].path) == Some(changes[i]))
    && forall path :: path in done && ChangeAt(s, path).Some? ==>
         exists i :: 0 <= i < |changes| && changes[i].path == path
  }

  lemma ListsNext(s: Scans, changes: seq<Change>, done: set<Path>, path: Path)
    requires Lists(s, changes, done) && path !in done
    ensures
      var change := ChangeAt(s, path);
      Lists(s, if change.Some? then changes + [change.value] else changes, done + {path})
  {
    var change := ChangeAt(s, path);
    var longer := if change.Some? then changes + [change.value] else changes;
    forall p | p in done + {path} && ChangeAt(s, p).Some?
      ensures exists i :: 0 <= i < |longer| && longer[i].path == p
    {
      if p == path {
        assert longer[|changes|].path == p;
      } else {
        var i :| 0 <= i < |changes| && changes[i].path == p;
        assert longer[i].path == p;
      }
    }
  }

  /** Visits what was there before, and then what is new, and lists what changed. */
  method Diff(s: Scans) returns (changes: seq<Change>)
    ensures Lists(s, changes, s.before.Keys + s.after.Keys)
  {
    hide Lists, CheaplyMatches, EntriesDiffer, ExcludedFromDiff;
    changes := [];
    var pending := s.before.Keys;
    ghost var done: set<Path> := {};
    NothingListed(s);
    while pending != {}
      invariant done !! pending && done + pending == s.before.Keys
      invariant Lists(s, changes, done)
      decreases pending
    {
      var path :| path in pending;
      ListsNext(s, changes, done, path);
      pending, done := pending - {path}, done + {path};
      if ExcludedFromDiff(path, s.uncaptured, s.roots) {
        continue;
      }
      var earlier := s.before[path];
      if path !in s.after {
        changes := changes + [Change(Deleted, path, Some(earlier), None)];
        continue;
      }
      var now := s.after[path];
      if EntriesDiffer(earlier, now) && !CheaplyMatches(s, path, earlier, now) {
        changes := changes + [Change(Modified, path, Some(earlier), Some(now))];
      }
    }
    pending := s.after.Keys;
    while pending != {}
      invariant pending <= s.after.Keys && done == s.before.Keys + (s.after.Keys - pending)
      invariant Lists(s, changes, done)
      decreases pending
    {
      var path :| path in pending;
      pending := pending - {path};
      if path in s.before {
        assert done == s.before.Keys + (s.after.Keys - pending);
        continue;
      }
      ListsNext(s, changes, done, path);
      done := done + {path};
      if !ExcludedFromDiff(path, s.uncaptured, s.roots) {
        changes := changes + [Change(Created, path, None, Some(s.after[path]))];
      }
    }
    assert done == s.before.Keys + s.after.Keys;
  }

  lemma NothingListed(s: Scans)
    ensures Lists(s, [], {})
  {
  }
}
