/**
 Reconciling a snapshot with two scans of its source: a path is captured only when
 its source did not change while the snapshot was taken and the snapshot agrees
 with it; every other path is covered by a reported failure.
 */
module Capture {
  import opened FileTrees
  import opened Restoring
  import opened Sorting
  import opened Diffing

  /** A scanned entry and how many names its file has. */
  datatype Scanned = Scanned(entry: Entry, links: nat)

  datatype Failure = Failure(path: Path, error: string, category: string)

  function FailurePaths(failures: seq<Failure>): set<Path> {
    set i | 0 <= i < |failures| :: failures[i].path
  }

  predicate SnapshotMatchesSource(snapshot: Entry, source: Entry) {
    && snapshot.kind == source.kind && snapshot.target == source.target
    && (source.kind.File? ==> snapshot.size == source.size)
  }

  /** What was scanned; `toDirectory` are the links that lead to a directory. */
  datatype SourceScans = SourceScans(
    before: map<Path, Scanned>, after: map<Path, Scanned>, snapshot: map<Path, Scanned>, toDirectory: set<Path>)
  {
    function Paths(): set<Path> {
      before.Keys + after.Keys + snapshot.Keys
    }

    /** Unchanged at the source and the same in the snapshot. */
    predicate Stable(path: Path) {
      && path in before && path in after && before[path] == after[path]
      && path in snapshot && SnapshotMatchesSource(snapshot[path].entry, before[path].entry)
    }

    /** Stable and of a kind that can be restored on its own. */
    predicate Capturable(path: Path) {
      && Stable(path)
      && !before[path].entry.kind.Other?
      && !(before[path].entry.kind.File? && before[path].links > 1)
      && !(before[path].entry.kind.Symlink? && path in toDirectory)
    }

    function Reason(path: Path): string
      requires !Capturable(path)
    {
      if path !in before || path !in after || before[path] != after[path] then
        "path changed while its snapshot was being captured"
      else if !Stable(path) then "captured path does not match the stable source metadata"
      else if before[path].entry.kind.Other? then "unsupported file type"
      else if before[path].entry.kind.File? then "hard-linked file"
      else "symlinked directory target is not followed or snapshotted"
    }
  }

  /* The order of visits. */

  predicate PathLeq(left: Path, right: Path) {
    TextLeq(PathText(left), PathText(right))
  }

  lemma PathOrder()
    ensures TotalOrder(PathLeq)
  {
    forall left, right
      ensures PathLeq(left, right) || PathLeq(right, left)
    {
      TextLeqTotal(PathText(left), PathText(right));
    }
    forall first, second, third | PathLeq(first, second) && PathLeq(second, third)
      ensures PathLeq(first, third)
    {
      TextLeqTrans(PathText(first), PathText(second), PathText(third));
    }
  }

  lemma {:induction false} TextPrefix(prefix: string, text: string)
    requires prefix <= text
    ensures TextLeq(prefix, text)
  {
    if prefix != "" {
      TextPrefix(prefix[1..], text[1..]);
    }
  }

  lemma {:induction false} AboveText(above: Path, path: Path)
    requires IsAbove(above, path)
    ensures PathText(above) <= PathText(path) && |PathText(above)| < |PathText(path)|
  {
    AboveParent(above, path);
    if above != Parent(path) {
      AboveText(above, Parent(path));
    }
  }

  /** Sorting by text puts whatever lies above a path before it. */
  lemma PrefixFirst(ordered: seq<Path>, i: nat, j: nat)
    requires Sorted(ordered, PathLeq) && i < |ordered| && j < |ordered|
    requires IsAbove(ordered[i], ordered[j])
    ensures i < j
  {
    AboveText(ordered[i], ordered[j]);
    TextPrefix(PathText(ordered[i]), PathText(ordered[j]));
    if j < i {
      assert PathLeq(ordered[j], ordered[i]);
      TextLeqAntisymmetric(PathText(ordered[i]), PathText(ordered[j]));
    }
  }

  /** Every path once, in the order of their texts. */
  method OrderedPaths(paths: set<Path>) returns (ordered: seq<Path>)
    ensures Sorted(ordered, PathLeq) && DistinctBy(ordered, (path: Path) => path)
    ensures forall path :: path in ordered <==> path in paths
  {
    var listed: seq<Path> := [];
    var pending := paths;
    while pending != {}
      invariant pending <= paths && DistinctBy(listed, (path: Path) => path)
      invariant forall path :: path in listed <==> path in paths && path !in pending
      decreases pending
    {
      var path :| path in pending;
      listed := listed + [path];
      pending := pending - {path};
    }
    PathOrder();
    ordered := Sort(listed, PathLeq);
    StaysDistinct(listed, ordered, (path: Path) => path);
    forall path
      ensures path in ordered <==> path in listed
    {
      assert path in ordered <==> path in multiset(ordered);
      assert path in listed <==> path in multiset(listed);
    }
  }

  /* Reconciliation. */

  /** Captured paths are capturable, untouched and outside every failure. */
  ghost predicate Accounts(s: SourceScans, captured: map<Path, Scanned>, failed: set<Path>) {
    forall path :: path in captured ==>
      s.Capturable(path) && captured[path] == s.before[path] && !CoveredBy(path, failed)
  }

  /** No failure is invented. */
  ghost predicate Founded(s: SourceScans, existing: set<Path>, failed: set<Path>) {
    existing <= failed &&
    forall path :: path in failed && path !in existing ==>
      path in s.Paths() && !s.Capturable(path) && !CoveredBy(path, existing)
  }

  /** How far the visits have come. */
  ghost predicate Visited(
    s: SourceScans, existing: set<Path>, captured: map<Path, Scanned>, failed: set<Path>, done: seq<Path>)
  {
    && Accounts(s, captured, failed) && Founded(s, existing, failed)
    && (forall path :: path in captured ==> path in done)
    && forall path :: path in done ==> path in captured || CoveredBy(path, failed)
  }

  lemma Skips(
    s: SourceScans, existing: set<Path>, captured: map<Path, Scanned>, failed: set<Path>, done: seq<Path>, path: Path)
    requires Visited(s, existing, captured, failed, done) && CoveredBy(path, failed)
    ensures Visited(s, existing, captured, failed, done + [path])
  {
  }

  lemma Captures(
    s: SourceScans, existing: set<Path>, captured: map<Path, Scanned>, failed: set<Path>, done: seq<Path>, path: Path)
    requires Visited(s, existing, captured, failed, done) && !CoveredBy(path, failed) && s.Capturable(path)
    ensures path in s.before && Visited(s, existing, captured[path := s.before[path]], failed, done + [path])
  {
  }

  lemma Fails(
    s: SourceScans, existing: set<Path>, captured: map<Path, Scanned>, failed: set<Path>, done: seq<Path>, path: Path)
    requires Visited(s, existing, captured, failed, done) && !CoveredBy(path, failed) && !s.Capturable(path)
    requires path in s.Paths() && forall earlier :: earlier in done ==> !Covers(path, earlier)
    ensures Visited(s, existing, captured, failed + {path}, done + [path])
  {
    MoreCovered(failed, failed + {path}, path);
    MoreExisting(existing, failed, path);
    hide CoveredBy, Covers;
  }

  lemma MoreExisting(existing: set<Path>, failed: set<Path>, path: Path)
    requires existing <= failed && !CoveredBy(path, failed)
    ensures !CoveredBy(path, existing)
  {
  }

  /** What speaks against capturing a path, if anything. */
  method Objection(s: SourceScans, path: Path) returns (error: string)
    ensures error == "" <==> s.Capturable(path)
    ensures error != "" ==> error == s.Reason(path)
  {
    if path !in s.before || path !in s.after || s.before[path] != s.after[path] {
      return "path changed while its snapshot was being captured";
    }
    var source := s.before[path];
    if path !in s.snapshot || !SnapshotMatchesSource(s.snapshot[path].entry, source.entry) {
      return "captured path does not match the stable source metadata";
    }
    match source.entry.kind {
      case Other => error := "unsupported file type";
      case File => error := if source.links > 1 then "hard-linked file" else "";
      case Symlink =>
        error := if path in s.toDirectory then "symlinked directory target is not followed or snapshotted" else "";
      case Directory => error := "";
    }
  }

  /** Every scanned path is captured or covered by a failure, and never both. */
  method ReconcileCapture(s: SourceScans, existing: seq<Failure>)
    returns (captured: map<Path, Scanned>, failures: seq<Failure>)
    ensures Accounts(s, captured, FailurePaths(failures))
    ensures Founded(s, FailurePaths(existing), FailurePaths(failures))
    ensures forall path :: path in s.Paths() ==> (path in captured <==> !CoveredBy(path, FailurePaths(failures)))
  {
    hide Accounts, Founded, FailurePaths, CoveredBy, Covers, Visited, Sorted, DistinctBy, SourceScans.Capturable;
    var all := existing;
    captured := map[];
    var failed := FailedPrefixes(existing);
    var ordered := OrderedPaths(s.Paths());
    Unvisited(s, failed);
    for index := 0 to |ordered|
      invariant failed == FailurePaths(all)
      invariant Visited(s, FailurePaths(existing), captured, failed, ordered[..index])
    {
      var path := ordered[index];
      assert path in s.Paths() by { assert path in ordered; }
      assert ordered[..index + 1] == ordered[..index] + [path];
      if CoveredBy(path, failed) {
        Skips(s, FailurePaths(existing), captured, failed, ordered[..index], path);
        continue;
      }
      var error := Objection(s, path);
      if error == "" {
        Captures(s, FailurePaths(existing), captured, failed, ordered[..index], path);
        captured := captured[path := s.before[path]];
      } else {
        NoneBelow(ordered, index);
        Fails(s, FailurePaths(existing), captured, failed, ordered[..index], path);
        FailureAdded(all, Failure(path, error, ""));
        all := all + [Failure(path, error, "")];
        failed := failed + {path};
      }
    }
    assert ordered[..|ordered|] == ordered;
    failures := MergeFailures(all);
    AllVisited(s, FailurePaths(existing), captured, failed, ordered);
  }

  method FailedPrefixes(failures: seq<Failure>) returns (failed: set<Path>)
    ensures failed == FailurePaths(failures)
  {
    failed := {};
    for index := 0 to |failures|
      invariant failed == FailurePaths(failures[..index])
    {
      assert failures[..index + 1] == failures[..index] + [failures[index]];
      FailureAdded(failures[..index], failures[index]);
      failed := failed + {failures[index].path};
    }
    assert failures[..|failures|] == failures;
  }

  lemma Unvisited(s: SourceScans, failed: set<Path>)
    ensures Visited(s, failed, map[], failed, [])
  {
  }

  lemma AllVisited(
    s: SourceScans, existing: set<Path>, captured: map<Path, Scanned>, failed: set<Path>, ordered: seq<Path>)
    requires Visited(s, existing, captured, failed, ordered) && forall path :: path in ordered <==> path in s.Paths()
    ensures Accounts(s, captured, failed) && Founded(s, existing, failed)
    ensures forall path :: path in s.Paths() ==> (path in captured <==> !CoveredBy(path, failed))
  {
  }

  lemma FailureAdded(failures: seq<Failure>, failure: Failure)
    ensures FailurePaths(failures + [failure]) == FailurePaths(failures) + {failure.path}
  {
    var longer := failures + [failure];
    forall path | path in FailurePaths(failures) + {failure.path}
      ensures path in FailurePaths(longer)
    {
      if path == failure.path {
        assert longer[|failures|].path == path;
      } else {
        var i :| 0 <= i < |failures| && failures[i].path == path;
        assert longer[i].path == path;
      }
    }
  }

  lemma MoreCovered(earlier: set<Path>, failed: set<Path>, added: Path)
    requires failed == earlier || failed == earlier + {added}
    ensures forall path :: CoveredBy(path, earlier) ==> CoveredBy(path, failed)
    ensures forall path :: CoveredBy(path, failed) ==> CoveredBy(path, earlier) || (failed != earlier && Covers(added, path))
    ensures failed != earlier ==> CoveredBy(added, failed)
  {
  }

  /** A path visited earlier is not below one visited later. */
  lemma NoneBelow(ordered: seq<Path>, index: nat)
    requires Sorted(ordered, PathLeq) && DistinctBy(ordered, (path: Path) => path) && index < |ordered|
    ensures forall path :: path in ordered[..index] ==> !Covers(ordered[index], path)
  {
    forall path | path in ordered[..index]
      ensures !Covers(ordered[index], path)
    {
      var i :| 0 <= i < index && ordered[i] == path;
      if IsAbove(ordered[index], ordered[i]) {
        PrefixFirst(ordered, index, i);
      }
      var key := (path: Path) => path;
      assert key(ordered[i]) != key(ordered[index]);
    }
  }

  /* Merging failures. */

  /** One failure for each path; its category is the one all reports agree on. */
  ghost predicate Merges(failures: seq<Failure>, merged: map<Path, Failure>) {
    && merged.Keys == FailurePaths(failures)
    && forall path :: path in merged ==> merged[path].path == path && Agreed(failures, merged[path])
  }

  /** The category of all reports of a path, or none where they differ, and the error of
      the last. */
  ghost predicate Agreed(failures: seq<Failure>, merged: Failure) {
    && LastError(failures, merged)
    && (forall i :: 0 <= i < |failures| && failures[i].path == merged.path ==>
          failures[i].category == merged.category || merged.category == "")
    && (merged.category == "" ==> Plain(failures, merged.path) || Differing(failures, merged.path))
  }

  ghost predicate LastError(failures: seq<Failure>, merged: Failure) {
    exists last :: 0 <= last < |failures| && failures[last].path == merged.path && failures[last].error == merged.error
      && forall i :: last < i < |failures| ==> failures[i].path != merged.path
  }

  ghost predicate Plain(failures: seq<Failure>, path: Path) {
    exists i :: 0 <= i < |failures| && failures[i].path == path && failures[i].category == ""
  }

  ghost predicate Differing(failures: seq<Failure>, path: Path) {
    exists i, j ::
      0 <= i < j < |failures| && failures[i].path == path && failures[j].path == path
      && failures[i].category != failures[j].category
  }

  /** One more report, of this path or of another. */
  lemma AgreedNext(earlier: seq<Failure>, failure: Failure, merged: Failure)
    requires Agreed(earlier, merged)
    ensures failure.path != merged.path ==> Agreed(earlier + [failure], merged)
    ensures failure.path == merged.path ==>
      Agreed(earlier + [failure], if merged.category != failure.category then failure.(category := "") else failure)
  {
    var longer := earlier + [failure];
    assert longer[|earlier|] == failure;
    var last :| 0 <= last < |earlier| && earlier[last].path == merged.path && earlier[last].error == merged.error
      && forall i :: last < i < |earlier| ==> earlier[i].path != merged.path;
    assert longer[last] == earlier[last];
    if Plain(earlier, merged.path) {
      var i :| 0 <= i < |earlier| && earlier[i].path == merged.path && earlier[i].category == "";
      assert longer[i] == earlier[i];
    }
    if Differing(earlier, merged.path) {
      var i, j :|
        0 <= i < j < |earlier| && earlier[i].path == merged.path && earlier[j].path == merged.path
        && earlier[i].category != earlier[j].category;
      assert longer[i] == earlier[i] && longer[j] == earlier[j];
    }
  }

  lemma AgreedFirst(earlier: seq<Failure>, failure: Failure)
    requires failure.path !in FailurePaths(earlier)
    ensures Agreed(earlier + [failure], failure)
  {
    var longer := earlier + [failure];
    assert longer[|earlier|] == failure;
    forall i | 0 <= i < |earlier|
      ensures longer[i].path != failure.path
    {
      assert earlier[i].path in FailurePaths(earlier);
    }
  }

  lemma MergeNext(failures: seq<Failure>, index: nat, merged: map<Path, Failure>)
    requires index < |failures| && Merges(failures[..index], merged)
    ensures
      var failure := failures[index];
      var agreed :=
        if failure.path in merged && merged[failure.path].category != failure.category then failure.(category := "")
        else failure;
      Merges(failures[..index + 1], merged[failure.path := agreed])
  {
    hide FailurePaths, Agreed;
    var failure := failures[index];
    var earlier := failures[..index];
    assert failures[..index + 1] == earlier + [failure];
    FailureAdded(earlier, failure);
    forall path | path in merged
      ensures path != failure.path ==> Agreed(earlier + [failure], merged[path])
    {
      AgreedNext(earlier, failure, merged[path]);
    }
    if failure.path in merged {
      AgreedNext(earlier, failure, merged[failure.path]);
    } else {
      AgreedFirst(earlier, failure);
    }
  }

  lemma NothingMerged()
    ensures FailurePaths([]) == {}
  {
  }

  method MergeFailures(failures: seq<Failure>) returns (merged: seq<Failure>)
    ensures FailurePaths(merged) == FailurePaths(failures)
    ensures forall i, j :: 0 <= i < j < |merged| ==> merged[i].path != merged[j].path
    ensures forall i :: 0 <= i < |merged| ==> Agreed(failures, merged[i])
  {
    hide FailurePaths, Agreed, LastError, Plain, Differing;
    NothingMerged();
    var byPath: map<Path, Failure> := map[];
    for index := 0 to |failures|
      invariant Merges(failures[..index], byPath)
    {
      var failure := failures[index];
      MergeNext(failures, index, byPath);
      if failure.path in byPath && byPath[failure.path].category != failure.category {
        failure := failure.(category := "");
      }
      byPath := byPath[failure.path := failure];
    }
    assert failures[..|failures|] == failures;
    var ordered := OrderedPaths(byPath.Keys);
    merged := [];
    for index := 0 to |ordered|
      invariant |merged| == index
      invariant forall i :: 0 <= i < index ==> ordered[i] in byPath && merged[i] == byPath[ordered[i]]
    {
      assert ordered[index] in ordered;
      merged := merged + [byPath[ordered[index]]];
    }
    MergedPaths(merged, ordered, byPath.Keys);
    var key := (path: Path) => path;
    assert forall i, j :: 0 <= i < j < |ordered| ==> key(ordered[i]) != key(ordered[j]);
  }

  lemma MergedPaths(merged: seq<Failure>, ordered: seq<Path>, paths: set<Path>)
    requires |merged| == |ordered| && forall i :: 0 <= i < |merged| ==> merged[i].path == ordered[i]
    requires forall path :: path in ordered <==> path in paths
    ensures FailurePaths(merged) == paths
  {
  }
}
