/**
 Sealing a session: scanning the watched roots and the wider tree again and listing
 what changed. A scan that did not finish says nothing about what is gone.
 */
module Sealing {
  import opened Wrappers
  import opened FileTrees
  import opened Restoring
  import opened Diffing

  /** What was recorded of a watched root when the session began. */
  datatype RootManifest = RootManifest(
    root: Root, source: Path, before: map<Path, Entry>, uncapturedBefore: map<Path, Entry>)

  /** The second scan of a root: it may have moved, or the scan may not have finished. */
  datatype RootScan =
    | Moved
    | Broken(cancelled: bool)
    | Completed(entries: map<Path, Entry>, failures: set<Path>, gaps: set<Path>)

  datatype WideScan = WideBroken | WideCompleted(entries: map<Path, Entry>, failures: set<Path>)

  datatype Origin = Watched | Observed(root: int) | Wide

  /** A change as listed; a wide change may be listed under a watched root's name. */
  datatype Reported = Reported(change: Change, origin: Origin, original: Path)

  predicate Scanned(manifests: seq<RootManifest>, scans: seq<RootScan>, index: int) {
    0 <= index < |manifests| && index < |scans| && manifests[index].root.existed && scans[index].Completed?
  }

  /** No watched root lies inside another. */
  ghost predicate NonNested(manifests: seq<RootManifest>) {
    forall i, j :: 0 <= i < |manifests| && 0 <= j < |manifests| && i != j ==>
      !Within(manifests[i].root.path, manifests[j].root.path)
  }

  ghost predicate BelowRoots(manifests: seq<RootManifest>) {
    forall i, path :: 0 <= i < |manifests| && path in manifests[i].before ==> Within(path, manifests[i].root.path)
  }

  /** A listed deletion is one that was seen: its baseline was scanned again to the
      end, the path is not there, and no failure of that scan hides it. */
  ghost predicate Genuine(
    manifests: seq<RootManifest>, scans: seq<RootScan>,
    scanBefore: map<Path, Entry>, scanFailures: set<Path>, wide: Option<WideScan>, reported: Reported)
  {
    var path := reported.change.path;
    match reported.origin
    case Watched =>
      && (exists i :: Scanned(manifests, scans, i) && path in manifests[i].before &&
            !CoveredBy(path, manifests[i].root.uncaptured + scans[i].failures))
      && forall i :: Scanned(manifests, scans, i) ==> path !in scans[i].entries
    case Observed(i) =>
      && Scanned(manifests, scans, i) && path in manifests[i].uncapturedBefore
      && path !in scans[i].entries && !CoveredBy(path, scans[i].failures)
    case Wide =>
      && wide.Some? && wide.value.WideCompleted?
      && reported.original in scanBefore && reported.original !in wide.value.entries
      && !CoveredBy(reported.original, scanFailures + wide.value.failures)
  }

  /** What was scanned under a root lies there. */
  ghost predicate ScansBelow(manifests: seq<RootManifest>, scans: seq<RootScan>) {
    forall i, path ::
      Scanned(manifests, scans, i) && (path in scans[i].entries || path in manifests[i].uncapturedBefore) ==>
        Within(path, manifests[i].root.path)
  }

  /** No other finished scan contradicts a deletion: it finds the path only if the root
      that holds a wide path could not capture it there. */
  ghost predicate Uncontradicted(manifests: seq<RootManifest>, scans: seq<RootScan>, reported: Reported)
    requires |scans| == |manifests|
  {
    forall i :: Scanned(manifests, scans, i) ==>
      match reported.origin
      case Wide =>
        reported.original in scans[i].entries && manifests[i].root.path != [] ==>
          Barred(manifests, RootsNow(manifests, scans), reported.original)
      case _ => reported.change.path !in scans[i].entries
  }

  /* What the scans add up to. */

  /** The watched part of sealing, after the first `count` roots. */
  datatype Watch = Watch(
    before: map<Path, Entry>, after: map<Path, Entry>, excluded: set<Path>, failures: set<Path>,
    uncaptured: seq<set<Path>>)

  function InitiallyExcluded(manifests: seq<RootManifest>): set<Path> {
    set i, path | 0 <= i < |manifests| && path in manifests[i].root.uncaptured :: path
  }

  /** The roots, of the first `count`, whose second scan did not finish. */
  function NotScanned(manifests: seq<RootManifest>, scans: seq<RootScan>, count: nat): set<Path>
    requires count <= |manifests| && count <= |scans|
  {
    set i | 0 <= i < count && manifests[i].root.existed && !scans[i].Completed? :: manifests[i].root.path
  }

  /** Everything that hides a path from the comparison of the watched roots. */
  function Hiding(manifests: seq<RootManifest>, scans: seq<RootScan>, count: nat): set<Path>
    requires count <= |manifests| && count <= |scans|
  {
    InitiallyExcluded(manifests) + NotScanned(manifests, scans, count)
    + (set i, path | 0 <= i < count && Scanned(manifests, scans, i) && path in scans[i].failures :: path)
  }

  /** The roots scanned to the end, as they were and as they are; of roots in each other
      the later one counts. */
  function MergedBefore(manifests: seq<RootManifest>, scans: seq<RootScan>, count: nat): map<Path, Entry>
    requires count <= |manifests| && count <= |scans|
  {
    if count == 0 then map[]
    else
      var earlier := MergedBefore(manifests, scans, count - 1);
      if Scanned(manifests, scans, count - 1) then earlier + manifests[count - 1].before else earlier
  }

  function MergedAfter(manifests: seq<RootManifest>, scans: seq<RootScan>, count: nat): map<Path, Entry>
    requires count <= |manifests| && count <= |scans|
  {
    if count == 0 then map[]
    else
      var earlier := MergedAfter(manifests, scans, count - 1);
      if Scanned(manifests, scans, count - 1) then earlier + scans[count - 1].entries else earlier
  }

  /** Every root that was there was scanned again to the end, and all of it. */
  predicate Clean(manifests: seq<RootManifest>, scans: seq<RootScan>, count: nat)
    requires count <= |manifests| && count <= |scans|
  {
    forall i :: 0 <= i < count && manifests[i].root.existed ==>
      scans[i].Completed? && scans[i].failures == {} && scans[i].gaps == {}
  }

  /** A path of a finished baseline or scan that the other side does not have. */
  ghost predicate CameOrWent(manifests: seq<RootManifest>, scans: seq<RootScan>, path: Path)
    requires |scans| == |manifests|
  {
    var was := exists i :: Scanned(manifests, scans, i) && path in manifests[i].before;
    var remains := exists i :: Scanned(manifests, scans, i) && path in scans[i].entries;
    was != remains && !CoveredBy(path, Hiding(manifests, scans, |scans|))
  }

  /** What of a root is not captured once it was, or could not be, scanned again. */
  function UncapturedNow(manifest: RootManifest, scan: RootScan): set<Path> {
    if !manifest.root.existed then manifest.root.uncaptured
    else if scan.Completed? then manifest.root.uncaptured + scan.failures + scan.gaps
    else manifest.root.uncaptured + if scan.Moved? || !scan.cancelled then {manifest.root.path} else {}
  }

  /** The roots with everything that could not be captured or scanned. */
  function RootsNow(manifests: seq<RootManifest>, scans: seq<RootScan>): (roots: seq<Root>)
    requires |scans| == |manifests|
    ensures SameRoots(manifests, roots)
  {
    seq(|manifests|, i requires 0 <= i < |manifests| =>
      manifests[i].root.(uncaptured := UncapturedNow(manifests[i], scans[i])))
  }

  ghost predicate Watches(manifests: seq<RootManifest>, scans: seq<RootScan>, count: nat, w: Watch)
    requires count <= |manifests| == |scans|
  {
    && |w.uncaptured| == count && InitiallyExcluded(manifests) <= w.excluded
    && (forall path :: path in w.before <==>
          exists i :: 0 <= i < count && Scanned(manifests, scans, i) && path in manifests[i].before)
    && (forall path :: path in w.after <==>
          exists i :: 0 <= i < count && Scanned(manifests, scans, i) && path in scans[i].entries)
    && (forall i :: 0 <= i < count && Scanned(manifests, scans, i) ==> scans[i].failures <= w.excluded)
    && forall i :: 0 <= i < count ==> w.uncaptured[i] == UncapturedNow(manifests[i], scans[i])
  }

  ghost predicate Sums(manifests: seq<RootManifest>, scans: seq<RootScan>, count: nat, w: Watch)
    requires count <= |manifests| == |scans|
  {
    && w.excluded == Hiding(manifests, scans, count)
    && w.before == MergedBefore(manifests, scans, count) && w.after == MergedAfter(manifests, scans, count)
    && (w.failures == {} <==> Clean(manifests, scans, count))
  }

  class CaptureSession {
    const scanRoot: Option<Path>
    const scanBefore: map<Path, Entry>
    var manifests: seq<RootManifest>
    var scanFailures: set<Path>
    var unscanned: set<Path>
    var changes: seq<Reported>
    var complete: bool

    constructor (manifests: seq<RootManifest>, scanRoot: Option<Path>, scanBefore: map<Path, Entry>, scanFailures: set<Path>)
      ensures this.manifests == manifests && this.scanRoot == scanRoot && this.scanBefore == scanBefore
      ensures this.scanFailures == scanFailures && changes == []
    {
      this.manifests, this.scanRoot, this.scanBefore, this.scanFailures := manifests, scanRoot, scanBefore, scanFailures;
      unscanned, changes, complete := {}, [], false;
    }

    /** Scans the roots again; a root that could not be scanned is a failure as a whole. */
    method ScanRoots(scans: seq<RootScan>) returns (w: Watch)
      requires |scans| == |manifests|
      modifies this`unscanned
      ensures Watches(manifests, scans, |scans|, w) && Sums(manifests, scans, |scans|, w)
      ensures unscanned == NotScanned(manifests, scans, |scans|)
    {
      hide Watches, Sums, NotScanned;
      NothingWatched(manifests, scans);
      w := Watch(map[], map[], InitiallyExcluded(manifests), {}, []);
      unscanned := {};
      for index := 0 to |manifests|
        invariant Watches(manifests, scans, index, w) && Sums(manifests, scans, index, w)
        invariant unscanned == NotScanned(manifests, scans, index)
      {
        var manifest, scan := manifests[index], scans[index];
        ghost var earlier := w;
        WatchesCount(manifests, scans, index, w);
        NotScannedNext(manifests, scans, index);
        if !manifest.root.existed {
          w := w.(uncaptured := w.uncaptured + [manifest.root.uncaptured]);
        } else if scan.Completed? {
          w := Watch(
            w.before + manifest.before, w.after + scan.entries, w.excluded + scan.failures,
            w.failures + scan.failures + scan.gaps,
            w.uncaptured + [manifest.root.uncaptured + scan.failures + scan.gaps]);
        } else {
          var path := manifest.root.path;
          var gone := scan.Moved? || !scan.cancelled;
          w := w.(
            excluded := w.excluded + {path}, failures := w.failures + {path},
            uncaptured := w.uncaptured + [manifest.root.uncaptured + if gone then {path} else {}]);
          unscanned := unscanned + {path};
        }
        WatchesNext(manifests, scans, index, earlier, w);
        SumsNext(manifests, scans, index, earlier, w);
      }
    }

    /** The wider tree; what an unfinished scan would show as gone is hidden, but for the
        whole file system, whose root hides nothing but itself. */
    method WideChanges(wide: Option<WideScan>) returns (found: seq<Change>, failures: set<Path>)
      requires wide.Some? <==> scanRoot.Some?
      ensures
        var scans := WideScans(scanRoot, scanBefore, scanFailures, wide);
        failures == scans.uncaptured && Lists(scans, found, scans.before.Keys + scans.after.Keys)
    {
      var after: map<Path, Entry> := map[];
      failures := scanFailures;
      if wide.Some? {
        if wide.value.WideCompleted? {
          after, failures := wide.value.entries, failures + wide.value.failures;
        } else {
          failures := failures + {scanRoot.value};
        }
      }
      found := Diff(Scans(scanBefore, after, failures, [], None, map[]));
    }

    /** Lists a change unless its path is listed already. */
    method Report(reported: Reported)
      requires Distinct(changes)
      modifies this`changes
      ensures Distinct(changes) && Listed(changes, reported.change.path)
      ensures changes == old(changes) + if old(Listed(changes, reported.change.path)) then [] else [reported]
    {
      if exists i :: 0 <= i < |changes| && changes[i].change.path == reported.change.path {
        return;
      }
      changes := changes + [reported];
      assert changes[|changes| - 1] == reported;
    }

    method AddWatched(diffed: seq<Change>, ghost told: iset<Reported>)
      requires changes == [] && DistinctPaths(diffed)
      requires forall i :: 0 <= i < |diffed| ==> Reported(diffed[i], Watched, diffed[i].path) in told
      modifies this`changes
      ensures Distinct(changes) && Told(changes, told) && |changes| == |diffed|
      ensures forall i :: 0 <= i < |diffed| ==> changes[i] == Reported(diffed[i], Watched, diffed[i].path)
    {
      for index := 0 to |diffed|
        invariant Distinct(changes) && Told(changes, told) && |changes| == index
        invariant forall i :: 0 <= i < index ==> changes[i] == Reported(diffed[i], Watched, diffed[i].path)
      {
        Report(Reported(diffed[index], Watched, diffed[index].path));
      }
    }

    /** What was seen but not captured inside a watched root is compared as well. */
    method AddObserved(scans: seq<RootScan>, ghost told: iset<Reported>)
      requires |scans| == |manifests| && Distinct(changes) && Told(changes, told)
      requires forall i, change :: ObservedEntry(manifests, scans, i, change) ==>
        Reported(change, Observed(i), change.path) in told
      modifies this`changes
      ensures Distinct(changes) && Told(changes, told)
      ensures old(changes) <= changes
      ensures forall i, change :: ObservedEntry(manifests, scans, i, change) ==> Listed(changes, change.path)
    {
      for index := 0 to |manifests|
        invariant Distinct(changes) && Told(changes, told) && old(changes) <= changes
        invariant forall i, change :: i < index && ObservedEntry(manifests, scans, i, change) ==>
          Listed(changes, change.path)
      {
        ghost var earlier := changes;
        var manifest, scan := manifests[index], scans[index];
        var diffed: seq<Change> := [];
        if manifest.root.existed && scan.Completed? && manifest.root.uncaptured != {} {
          diffed := Diff(ObservedScans(manifest, scan));
          AddDiffed(diffed, index, told);
        }
        AllObserved(manifests, scans, index, diffed);
        forall i, change | i <= index && ObservedEntry(manifests, scans, i, change)
          ensures Listed(changes, change.path)
        {
          if i < index {
            StillListed(earlier, changes, change.path);
          }
        }
      }
    }

    method AddDiffed(diffed: seq<Change>, root: int, ghost told: iset<Reported>)
      requires Distinct(changes) && Told(changes, told)
      requires forall i :: 0 <= i < |diffed| ==> Reported(diffed[i], Observed(root), diffed[i].path) in told
      modifies this`changes
      ensures Distinct(changes) && Told(changes, told) && old(changes) <= changes
      ensures forall i :: 0 <= i < |diffed| ==> Listed(changes, diffed[i].path)
    {
      for index := 0 to |diffed|
        invariant Distinct(changes) && Told(changes, told) && old(changes) <= changes
        invariant forall i :: 0 <= i < index ==> Listed(changes, diffed[i].path)
      {
        ghost var earlier := changes;
        Report(Reported(diffed[index], Observed(root), diffed[index].path));
        forall i | 0 <= i < index
          ensures Listed(changes, diffed[i].path)
        {
          StillListed(earlier, changes, diffed[i].path);
        }
      }
    }

    /** Wide changes inside a captured root are left to that root's own scan; any other is
        listed under its watched root's name for it, if there is one. */
    method AddWide(found: seq<Change>, roots: seq<Root>, ghost told: iset<Reported>)
      requires SameRoots(manifests, roots) && Distinct(changes) && Told(changes, told)
      requires forall i :: 0 <= i < |found| && !CapturedIn(manifests, roots, found[i].path) ==>
        Reported(found[i].(path := CloneName(manifests, found[i].path)), Wide, found[i].path) in told
      modifies this`changes
      ensures Distinct(changes) && Told(changes, told) && old(changes) <= changes
      ensures forall i :: 0 <= i < |found| && !CapturedIn(manifests, roots, found[i].path) ==>
        Listed(changes, CloneName(manifests, found[i].path))
    {
      hide CapturedIn, CloneName;
      for index := 0 to |found|
        invariant Distinct(changes) && Told(changes, told) && old(changes) <= changes
        invariant forall i :: 0 <= i < index && !CapturedIn(manifests, roots, found[i].path) ==>
          Listed(changes, CloneName(manifests, found[i].path))
      {
        ghost var earlier := changes;
        var path, captured := ClonePath(found[index].path, roots);
        if !captured {
          Report(Reported(found[index].(path := path), Wide, found[index].path));
        }
        forall i | 0 <= i < index && !CapturedIn(manifests, roots, found[i].path)
          ensures Listed(changes, CloneName(manifests, found[i].path))
        {
          StillListed(earlier, changes, CloneName(manifests, found[i].path));
        }
      }
    }

    /** The name of a wide path below the innermost watched root that holds it, under its
        own name or its target's, and whether that root captured it. */
    method ClonePath(path: Path, roots: seq<Root>) returns (mapped: Path, captured: bool)
      requires SameRoots(manifests, roots)
      ensures mapped == CloneName(manifests, path)
      ensures captured <==> CapturedIn(manifests, roots, path)
      ensures Outside(manifests, path) ==> mapped == path && !captured
      ensures !Outside(manifests, path) ==>
        exists best, prefix :: Innermost(manifests, path, best, prefix) &&
          mapped == manifests[best].root.path + path[|prefix|..] &&
          (captured <==> roots[best].existed && !CoveredBy(mapped, roots[best].uncaptured))
    {
      var chosen, longest: Path := -1, [];
      for index := 0 to |roots|
        invariant Holder(manifests[..index], path) == Spot(chosen, longest)
      {
        assert manifests[..index + 1][..index] == manifests[..index];
        if Covers(roots[index].path, path) && |roots[index].path| > |longest| {
          chosen, longest := index, roots[index].path;
        }
        var source := manifests[index].source;
        if Covers(source, path) && |source| > |longest| {
          chosen, longest := index, source;
        }
      }
      assert manifests[..|roots|] == manifests;
      HolderInnermost(manifests, path);
      if chosen < 0 {
        return path, false;
      }
      mapped := roots[chosen].path + path[|longest|..];
      captured := roots[chosen].existed && !CoveredBy(mapped, roots[chosen].uncaptured);
    }

    method SealContext(
      scans: seq<RootScan>, wide: Option<WideScan>, cancelled: bool,
      saved: Option<map<Path, string>>, live: map<Path, string>)
      requires |scans| == |manifests| && (wide.Some? <==> scanRoot.Some?)
      requires BelowRoots(manifests)
      requires forall path :: path in scanBefore ==> scanRoot.Some? && Within(path, scanRoot.value)
      modifies this
      ensures manifests == old(manifests)
      ensures forall i ::
        0 <= i < |changes| && changes[i].change.kind.Deleted? && Telling(manifests, scanRoot, wide, changes[i].origin) ==>
          Genuine(manifests, scans, scanBefore, old(scanFailures), wide, changes[i])
      ensures NonNested(manifests) && ScansBelow(manifests, scans) ==>
        forall i :: 0 <= i < |changes| && changes[i].change.kind.Deleted? ==> Uncontradicted(manifests, scans, changes[i])
      ensures WideExactly(manifests, scans, WideScans(scanRoot, scanBefore, old(scanFailures), wide), changes)
      ensures Distinct(changes)
      ensures forall path :: CameOrWent(manifests, scans, path) ==> Listed(changes, path)
      ensures WatchedExactly(WatchedScans(manifests, scans, saved, live), changes)
      ensures ObservedExactly(manifests, scans, changes)
      ensures unscanned == NotScanned(manifests, scans, |scans|)
      ensures scanFailures == WideScans(scanRoot, scanBefore, old(scanFailures), wide).uncaptured
      ensures complete <==>
        !cancelled && Clean(manifests, scans, |scans|) && old(scanFailures) == {} &&
        (wide.Some? ==> wide.value.WideCompleted? && wide.value.failures == {})
    {
      hide Genuine, NonNested, BelowRoots, Watches, Lists, CameOrWent, Listed, Telling, WideEntry, RootsNow, WideScans,
        Hiding, Expected, WideExactly, Distinct, Told, ScansBelow, Uncontradicted, WatchedScans, WatchedExactly, Sums,
        ObservedExactly, ObservedEntry, Clean, NotScanned;
      ghost var seen := WideScans(scanRoot, scanBefore, scanFailures, wide);
      var w := ScanRoots(scans);
      WatchesCount(manifests, scans, |scans|, w);
      var roots := UpdatedRoots(manifests, w);
      UpdatedNow(manifests, scans, w);
      var both := Scans(w.before, w.after, w.excluded, roots, saved, live);
      BothWatched(manifests, scans, w, saved, live);
      ghost var told := Expected(manifests, scans, both, scanRoot, scanBefore, scanFailures, wide);
      var diffed := Diff(both);
      changes := [];
      NothingTold(told);
      WatchedGenuine(manifests, scans, w, both, diffed, scanRoot, scanBefore, scanFailures, wide);
      AddWatched(diffed, told);
      ghost var watched := changes;
      ObservedGenuine(manifests, scans, both, scanRoot, scanBefore, scanFailures, wide);
      AddObserved(scans, told);
      ghost var observed := changes;
      var found, failures := WideChanges(wide);
      WideGenuine(manifests, scans, both, scanRoot, scanBefore, scanFailures, wide, found);
      AddWide(found, roots, told);
      forall path | CameOrWent(manifests, scans, path)
        ensures Listed(changes, path)
      {
        CameOrWentDiffed(manifests, scans, w, both, diffed, path);
        WatchedListed(watched, diffed, changes, path);
      }
      AllExpected(manifests, scans, both, scanRoot, scanBefore, scanFailures, wide, changes);
      WatchedAll(both, diffed, changes);
      ObservedAll(manifests, scans, observed, changes);
      if NonNested(manifests) && ScansBelow(manifests, scans) {
        AllUncontradicted(manifests, scans, both, scanRoot, scanBefore, scanFailures, wide, changes);
      }
      WideListed(manifests, scans, seen, found, changes);
      WatchesClean(manifests, scans, w);
      WideClean(scanRoot, scanBefore, scanFailures, wide);
      scanFailures := failures;
      complete := !cancelled && w.failures == {} && failures == {};
    }
  }

  predicate SameRoots(manifests: seq<RootManifest>, roots: seq<Root>) {
    |roots| == |manifests| &&
    forall i :: 0 <= i < |roots| ==>
      roots[i].path == manifests[i].root.path && roots[i].existed == manifests[i].root.existed
  }

  /** The root's path or its target, when it holds this path. */
  predicate Holding(manifest: RootManifest, prefix: Path, path: Path) {
    prefix != [] && (prefix == manifest.root.path || prefix == manifest.source) && Covers(prefix, path)
  }

  /** The innermost of the roots that hold a path, the first of them if there are several. */
  datatype Spot = Spot(best: int, prefix: Path)

  function Holder(manifests: seq<RootManifest>, path: Path): (spot: Spot)
    ensures -1 <= spot.best < |manifests|
    ensures spot.best >= 0 ==> |spot.prefix| <= |path|
  {
    if manifests == [] then Spot(-1, [])
    else
      var last := |manifests| - 1;
      var earlier, root, source := Holder(manifests[..last], path), manifests[last].root.path, manifests[last].source;
      var own := if Covers(root, path) && |root| > |earlier.prefix| then Spot(last, root) else earlier;
      if Covers(source, path) && |source| > |own.prefix| then Spot(last, source) else own
  }

  ghost predicate Innermost(manifests: seq<RootManifest>, path: Path, best: int, prefix: Path) {
    && 0 <= best < |manifests| && Holding(manifests[best], prefix, path)
    && forall i, other :: 0 <= i < |manifests| && Holding(manifests[i], other, path) ==> |other| <= |prefix|
  }

  /** One more root: it takes over if one of its names is longer than the best so far. */
  lemma HolderNext(manifests: seq<RootManifest>, path: Path)
    requires manifests != []
    requires var earlier := Holder(manifests[..|manifests| - 1], path); earlier.best < 0 ==> earlier.prefix == []
    ensures
      var last := |manifests| - 1;
      var earlier, spot := Holder(manifests[..last], path), Holder(manifests, path);
      && (spot == earlier ||
          (spot.best == last && Holding(manifests[last], spot.prefix, path) && |spot.prefix| > |earlier.prefix|))
      && forall other :: Holding(manifests[last], other, path) ==> spot.best >= 0 && |other| <= |spot.prefix|
  {
    hide Covers;
  }

  lemma {:induction false} HolderInnermost(manifests: seq<RootManifest>, path: Path)
    ensures
      var spot := Holder(manifests, path);
      if spot.best < 0 then Outside(manifests, path) && spot.prefix == []
      else Innermost(manifests, path, spot.best, spot.prefix)
  {
    if manifests != [] {
      var earlier := Holder(manifests[..|manifests| - 1], path);
      HolderInnermost(manifests[..|manifests| - 1], path);
      HolderNext(manifests, path);
      hide Holder, Holding;
      StillInnermost(manifests, path, earlier, Holder(manifests, path));
    }
  }

  lemma StillInnermost(manifests: seq<RootManifest>, path: Path, earlier: Spot, spot: Spot)
    requires manifests != [] && (spot == earlier || spot.best == |manifests| - 1) && |earlier.prefix| <= |spot.prefix|
    requires
      var before := manifests[..|manifests| - 1];
      if earlier.best < 0 then Outside(before, path) && earlier.prefix == []
      else Innermost(before, path, earlier.best, earlier.prefix)
    requires
      var last := manifests[|manifests| - 1];
      && (spot.best == |manifests| - 1 ==> Holding(last, spot.prefix, path))
      && (forall other :: Holding(last, other, path) ==> spot.best >= 0 && |other| <= |spot.prefix|)
    ensures
      if spot.best < 0 then Outside(manifests, path) && spot.prefix == []
      else Innermost(manifests, path, spot.best, spot.prefix)
  {
    hide Holding;
    var before := manifests[..|manifests| - 1];
    assert forall i :: 0 <= i < |before| ==> before[i] == manifests[i];
  }

  /** The name a watched root has for a wide path. */
  function CloneName(manifests: seq<RootManifest>, path: Path): Path {
    var spot := Holder(manifests, path);
    if spot.best < 0 then path else manifests[spot.best].root.path + path[|spot.prefix|..]
  }

  /** The root that holds a wide path captured it. */
  predicate CapturedIn(manifests: seq<RootManifest>, roots: seq<Root>, path: Path)
    requires |roots| == |manifests|
  {
    var best := Holder(manifests, path).best;
    best >= 0 && roots[best].existed && !CoveredBy(CloneName(manifests, path), roots[best].uncaptured)
  }

  /** What a root captured: nothing that was a failure or a gap at the start or in the second
      scan, and nothing at all if that found the root moved or broke off uncancelled. */
  predicate Captures(manifest: RootManifest, scan: RootScan, path: Path) {
    && manifest.root.existed && !CoveredBy(path, manifest.root.uncaptured)
    && match scan
       case Completed(_, failures, gaps) => !CoveredBy(path, failures) && !CoveredBy(path, gaps)
       case Moved => !Covers(manifest.root.path, path)
       case Broken(cancelled) => cancelled || !Covers(manifest.root.path, path)
  }

  /** A wide path counts as captured if and only if the innermost root that holds it
      captured it. */
  lemma CapturedExactly(manifests: seq<RootManifest>, scans: seq<RootScan>, path: Path)
    requires |scans| == |manifests|
    ensures
      var captured := CapturedIn(manifests, RootsNow(manifests, scans), path);
      if Outside(manifests, path) then !captured
      else
        exists best, prefix :: Innermost(manifests, path, best, prefix) &&
          (captured <==> Captures(manifests[best], scans[best], manifests[best].root.path + path[|prefix|..]))
  {
    HolderInnermost(manifests, path);
    var spot := Holder(manifests, path);
    hide Holder, Covers, Outside, Innermost;
    if spot.best >= 0 {
      assert Innermost(manifests, path, spot.best, spot.prefix);
    }
    if Outside(manifests, path) {
      OutsideNone(manifests, path);
    }
  }

  lemma OutsideNone(manifests: seq<RootManifest>, path: Path)
    requires Outside(manifests, path)
    ensures Holder(manifests, path).best < 0
  {
    HolderInnermost(manifests, path);
    hide Holder, Covers;
  }

  /** A root holds the path and did not capture it. */
  predicate Barred(manifests: seq<RootManifest>, roots: seq<Root>, path: Path)
    requires |roots| == |manifests|
  {
    Holder(manifests, path).best >= 0 && !CapturedIn(manifests, roots, path)
  }

  ghost predicate Outside(manifests: seq<RootManifest>, path: Path) {
    forall i, prefix :: 0 <= i < |manifests| ==> !Holding(manifests[i], prefix, path)
  }

  function UpdatedRoots(manifests: seq<RootManifest>, w: Watch): seq<Root>
    requires |w.uncaptured| == |manifests|
  {
    seq(|manifests|, i requires 0 <= i < |manifests| => manifests[i].root.(uncaptured := w.uncaptured[i]))
  }

  lemma UpdatedNow(manifests: seq<RootManifest>, scans: seq<RootScan>, w: Watch)
    requires |scans| == |manifests| && Watches(manifests, scans, |scans|, w)
    ensures UpdatedRoots(manifests, w) == RootsNow(manifests, scans)
  {
  }

  ghost predicate Distinct(changes: seq<Reported>) {
    forall i, j :: 0 <= i < j < |changes| ==> changes[i].change.path != changes[j].change.path
  }

  ghost predicate Listed(changes: seq<Reported>, path: Path) {
    exists i :: 0 <= i < |changes| && changes[i].change.path == path
  }

  lemma StillListed(earlier: seq<Reported>, changes: seq<Reported>, path: Path)
    requires earlier <= changes && Listed(earlier, path)
    ensures Listed(changes, path)
  {
    var i :| 0 <= i < |earlier| && earlier[i].change.path == path;
    assert changes[i] == earlier[i];
  }

  /** What came or went in a finished scan, and is hidden by no failure, is found. */
  lemma CameOrWentDiffed(
    manifests: seq<RootManifest>, scans: seq<RootScan>, w: Watch, both: Scans, diffed: seq<Change>, path: Path)
    requires |scans| == |manifests| && Watches(manifests, scans, |scans|, w) && Sums(manifests, scans, |scans|, w)
    requires both.before == w.before && both.after == w.after && both.uncaptured == w.excluded
    requires Lists(both, diffed, both.before.Keys + both.after.Keys)
    requires CameOrWent(manifests, scans, path)
    ensures exists i :: 0 <= i < |diffed| && diffed[i].path == path
  {
    OnOneSide(manifests, scans, w, path);
    hide Watches, Sums, CameOrWent;
    assert ChangeAt(both, path).Some?;
  }

  lemma OnOneSide(manifests: seq<RootManifest>, scans: seq<RootScan>, w: Watch, path: Path)
    requires |scans| == |manifests| && Watches(manifests, scans, |scans|, w) && Sums(manifests, scans, |scans|, w)
    requires CameOrWent(manifests, scans, path)
    ensures (path in w.before) != (path in w.after) && !CoveredBy(path, w.excluded)
  {
    hide Hiding, Covers;
  }

  lemma NothingTold(told: iset<Reported>)
    ensures Distinct([]) && Told([], told)
  {
  }

  ghost predicate Told(changes: seq<Reported>, told: iset<Reported>) {
    forall i :: 0 <= i < |changes| ==> changes[i] in told
  }

  lemma WatchesNext(manifests: seq<RootManifest>, scans: seq<RootScan>, index: nat, earlier: Watch, w: Watch)
    requires index < |manifests| == |scans| && Watches(manifests, scans, index, earlier)
    requires |w.uncaptured| == index + 1 && w.uncaptured[..index] == earlier.uncaptured
    requires w.uncaptured[index] == UncapturedNow(manifests[index], scans[index])
    requires
      if Scanned(manifests, scans, index) then
        && w.before == earlier.before + manifests[index].before && w.after == earlier.after + scans[index].entries
        && scans[index].failures <= w.excluded
      else w.before == earlier.before && w.after == earlier.after
    requires earlier.excluded <= w.excluded
    ensures Watches(manifests, scans, index + 1, w)
  {
  }

  lemma NothingWatched(manifests: seq<RootManifest>, scans: seq<RootScan>)
    requires |scans| == |manifests|
    ensures
      var w := Watch(map[], map[], InitiallyExcluded(manifests), {}, []);
      Watches(manifests, scans, 0, w) && Sums(manifests, scans, 0, w)
    ensures NotScanned(manifests, scans, 0) == {}
  {
  }

  lemma WatchesCount(manifests: seq<RootManifest>, scans: seq<RootScan>, count: nat, w: Watch)
    requires count <= |manifests| == |scans| && Watches(manifests, scans, count, w)
    ensures |w.uncaptured| == count
  {
  }

  lemma NotScannedNext(manifests: seq<RootManifest>, scans: seq<RootScan>, index: nat)
    requires index < |manifests| == |scans|
    ensures
      NotScanned(manifests, scans, index + 1) == NotScanned(manifests, scans, index) +
        if manifests[index].root.existed && !scans[index].Completed? then {manifests[index].root.path} else {}
  {
  }

  lemma SumsNext(manifests: seq<RootManifest>, scans: seq<RootScan>, index: nat, earlier: Watch, w: Watch)
    requires index < |manifests| == |scans| && Sums(manifests, scans, index, earlier)
    requires
      if Scanned(manifests, scans, index) then
        && w.before == earlier.before + manifests[index].before && w.after == earlier.after + scans[index].entries
        && w.excluded == earlier.excluded + scans[index].failures
        && w.failures == earlier.failures + scans[index].failures + scans[index].gaps
      else
        var hidden := if manifests[index].root.existed then {manifests[index].root.path} else {};
        && w.before == earlier.before && w.after == earlier.after
        && w.excluded == earlier.excluded + hidden && w.failures == earlier.failures + hidden
    ensures Sums(manifests, scans, index + 1, w)
  {
    HidingNext(manifests, scans, index);
    hide Hiding;
  }

  lemma HidingNext(manifests: seq<RootManifest>, scans: seq<RootScan>, index: nat)
    requires index < |manifests| == |scans|
    ensures
      Hiding(manifests, scans, index + 1) == Hiding(manifests, scans, index) +
        (if Scanned(manifests, scans, index) then scans[index].failures
         else if manifests[index].root.existed then {manifests[index].root.path} else {})
  {
    NotScannedNext(manifests, scans, index);
    hide NotScanned, InitiallyExcluded;
  }

  lemma WatchedGenuine(
    manifests: seq<RootManifest>, scans: seq<RootScan>, w: Watch, both: Scans, diffed: seq<Change>,
    scanRoot: Option<Path>, scanBefore: map<Path, Entry>, scanFailures: set<Path>, wide: Option<WideScan>)
    requires |scans| == |manifests| && Watches(manifests, scans, |scans|, w) && BelowRoots(manifests)
    requires wide.Some? <==> scanRoot.Some?
    requires both.before == w.before && both.after == w.after && both.uncaptured == w.excluded
    requires both.roots == UpdatedRoots(manifests, w)
    requires Lists(both, diffed, both.before.Keys + both.after.Keys)
    ensures DistinctPaths(diffed)
    ensures forall i :: 0 <= i < |diffed| ==>
      Reported(diffed[i], Watched, diffed[i].path) in
      Expected(manifests, scans, both, scanRoot, scanBefore, scanFailures, wide)
  {
    hide Genuine, Watches, ExcludedFromDiff, UpdatedRoots, NonNested, BelowRoots, WideEntry, ObservedEntry;
    forall k | 0 <= k < |diffed| && diffed[k].kind.Deleted? && Telling(manifests, scanRoot, wide, Watched)
      ensures Genuine(manifests, scans, scanBefore, scanFailures, wide, Reported(diffed[k], Watched, diffed[k].path))
    {
      assert ChangeAt(both, diffed[k].path) == Some(diffed[k]);
      GoneGenuine(manifests, scans, w, both, diffed[k], scanBefore, scanFailures, wide);
    }
  }

  lemma GoneGenuine(
    manifests: seq<RootManifest>, scans: seq<RootScan>, w: Watch, both: Scans, change: Change,
    scanBefore: map<Path, Entry>, scanFailures: set<Path>, wide: Option<WideScan>)
    requires |scans| == |manifests| && Watches(manifests, scans, |scans|, w)
    requires NonNested(manifests) && BelowRoots(manifests)
    requires both.before == w.before && both.after == w.after && both.uncaptured == w.excluded
    requires both.roots == UpdatedRoots(manifests, w)
    requires ChangeAt(both, change.path) == Some(change) && change.kind.Deleted?
    ensures Genuine(manifests, scans, scanBefore, scanFailures, wide, Reported(change, Watched, change.path))
  {
    hide ExcludedFromDiff, UpdatedRoots, NonNested, BelowRoots, CoveredBy;
    var path := change.path;
    assert path in w.before && path !in w.after;
    var i :| 0 <= i < |scans| && Scanned(manifests, scans, i) && path in manifests[i].before;
    NotHidden(manifests, scans, w, both.roots, path, i);
  }

  lemma NotHidden(
    manifests: seq<RootManifest>, scans: seq<RootScan>, w: Watch, roots: seq<Root>, path: Path, i: nat)
    requires |scans| == |manifests| && Watches(manifests, scans, |scans|, w)
    requires NonNested(manifests) && BelowRoots(manifests) && roots == UpdatedRoots(manifests, w)
    requires i < |scans| && Scanned(manifests, scans, i) && path in manifests[i].before
    requires !ExcludedFromDiff(path, w.excluded, roots)
    ensures !CoveredBy(path, manifests[i].root.uncaptured + scans[i].failures)
  {
    var failures := manifests[i].root.uncaptured + scans[i].failures;
    assert failures <= w.excluded && failures <= w.uncaptured[i];
    forall j | 0 <= j < |roots| && roots[j].existed && Covers(roots[j].path, path)
      ensures roots[j].uncaptured == w.uncaptured[i]
    {
      OnlyRoot(manifests, i, j, path);
    }
    hide Watches, NonNested, BelowRoots, UpdatedRoots, Covers;
  }

  lemma OnlyRoot(manifests: seq<RootManifest>, i: nat, j: nat, path: Path)
    requires NonNested(manifests) && BelowRoots(manifests) && i < |manifests| && j < |manifests|
    requires path in manifests[i].before && Covers(manifests[j].root.path, path)
    ensures i == j
  {
    OneBelow(manifests[i].root.path, manifests[j].root.path, path);
  }

  /** The part of a root that was seen but could not be captured. */
  function CoveredEntries(entries: map<Path, Entry>, prefixes: set<Path>): map<Path, Entry> {
    map path | path in entries && CoveredBy(path, prefixes) :: entries[path]
  }

  function ObservedScans(manifest: RootManifest, scan: RootScan): Scans
    requires scan.Completed?
  {
    Scans(CoveredEntries(manifest.uncapturedBefore, manifest.root.uncaptured),
          CoveredEntries(scan.entries, manifest.root.uncaptured), scan.failures, [], None, map[])
  }

  /** A change that the comparison of a root's uncaptured part shows. */
  predicate ObservedEntry(manifests: seq<RootManifest>, scans: seq<RootScan>, root: int, change: Change) {
    Scanned(manifests, scans, root) &&
    ChangeAt(ObservedScans(manifests[root], scans[root]), change.path) == Some(change)
  }

  lemma ObservedGone(manifests: seq<RootManifest>, scans: seq<RootScan>, root: int, change: Change)
    requires ObservedEntry(manifests, scans, root, change) && change.kind.Deleted?
    ensures
      && Scanned(manifests, scans, root)
      && change.path in manifests[root].uncapturedBefore && change.path !in scans[root].entries
      && !CoveredBy(change.path, scans[root].failures)
  {
  }

  /** Where everything was captured nothing is left to observe. */
  lemma AllObserved(manifests: seq<RootManifest>, scans: seq<RootScan>, root: nat, diffed: seq<Change>)
    requires root < |manifests| == |scans|
    requires
      if Scanned(manifests, scans, root) && manifests[root].root.uncaptured != {} then
        var both := ObservedScans(manifests[root], scans[root]);
        Lists(both, diffed, both.before.Keys + both.after.Keys)
      else true
    ensures forall change :: ObservedEntry(manifests, scans, root, change) ==>
      exists i :: 0 <= i < |diffed| && diffed[i].path == change.path
  {
  }

  lemma ObservedGenuine(
    manifests: seq<RootManifest>, scans: seq<RootScan>, both: Scans, scanRoot: Option<Path>,
    scanBefore: map<Path, Entry>, scanFailures: set<Path>, wide: Option<WideScan>)
    requires (wide.Some? <==> scanRoot.Some?) && |scans| == |manifests|
    ensures forall i, change :: ObservedEntry(manifests, scans, i, change) ==>
      Reported(change, Observed(i), change.path) in
      Expected(manifests, scans, both, scanRoot, scanBefore, scanFailures, wide)
  {
    hide CoveredBy, WideEntry, ObservedEntry;
    forall i, change | ObservedEntry(manifests, scans, i, change)
      ensures Reported(change, Observed(i), change.path) in
        Expected(manifests, scans, both, scanRoot, scanBefore, scanFailures, wide)
    {
      if change.kind.Deleted? {
        ObservedGone(manifests, scans, i, change);
        assert Genuine(manifests, scans, scanBefore, scanFailures, wide, Reported(change, Observed(i), change.path));
      }
    }
  }

  /** The changes of what was not captured are listed, each with the root it was seen in. */
  ghost predicate ObservedExactly(manifests: seq<RootManifest>, scans: seq<RootScan>, changes: seq<Reported>) {
    && (forall i :: 0 <= i < |changes| && changes[i].origin.Observed? ==>
          ObservedEntry(manifests, scans, changes[i].origin.root, changes[i].change))
    && forall root, change :: ObservedEntry(manifests, scans, root, change) ==> Listed(changes, change.path)
  }

  lemma ObservedAll(
    manifests: seq<RootManifest>, scans: seq<RootScan>, observed: seq<Reported>, changes: seq<Reported>)
    requires observed <= changes
    requires forall i :: 0 <= i < |changes| && changes[i].origin.Observed? ==>
      ObservedEntry(manifests, scans, changes[i].origin.root, changes[i].change)
    requires forall root, change :: ObservedEntry(manifests, scans, root, change) ==> Listed(observed, change.path)
    ensures ObservedExactly(manifests, scans, changes)
  {
    hide ObservedEntry, Listed;
    forall root, change | ObservedEntry(manifests, scans, root, change)
      ensures Listed(changes, change.path)
    {
      StillListed(observed, changes, change.path);
    }
  }

  /* The watched roots. */

  /** What the watched roots are compared by. */
  function WatchedScans(
    manifests: seq<RootManifest>, scans: seq<RootScan>, saved: Option<map<Path, string>>, live: map<Path, string>): Scans
    requires |scans| == |manifests|
  {
    Scans(MergedBefore(manifests, scans, |scans|), MergedAfter(manifests, scans, |scans|),
          Hiding(manifests, scans, |scans|), RootsNow(manifests, scans), saved, live)
  }

  /** From the watched roots exactly the changes that comparison shows are listed. */
  ghost predicate WatchedExactly(seen: Scans, changes: seq<Reported>) {
    && (forall i :: 0 <= i < |changes| && changes[i].origin.Watched? ==>
          ChangeAt(seen, changes[i].change.path) == Some(changes[i].change))
    && forall path :: ChangeAt(seen, path).Some? ==> Reported(ChangeAt(seen, path).value, Watched, path) in changes
  }

  lemma BothWatched(
    manifests: seq<RootManifest>, scans: seq<RootScan>, w: Watch,
    saved: Option<map<Path, string>>, live: map<Path, string>)
    requires |scans| == |manifests| && Watches(manifests, scans, |scans|, w) && Sums(manifests, scans, |scans|, w)
    ensures
      Scans(w.before, w.after, w.excluded, UpdatedRoots(manifests, w), saved, live)
      == WatchedScans(manifests, scans, saved, live)
  {
    UpdatedNow(manifests, scans, w);
    hide Hiding, MergedBefore, MergedAfter, UpdatedRoots, RootsNow;
  }

  lemma WatchedAll(seen: Scans, diffed: seq<Change>, changes: seq<Reported>)
    requires Lists(seen, diffed, seen.before.Keys + seen.after.Keys) && |diffed| <= |changes|
    requires forall i :: 0 <= i < |diffed| ==> changes[i] == Reported(diffed[i], Watched, diffed[i].path)
    requires forall i :: 0 <= i < |changes| && changes[i].origin.Watched? ==>
      ChangeAt(seen, changes[i].change.path) == Some(changes[i].change)
    ensures WatchedExactly(seen, changes)
  {
    hide ExcludedFromDiff, EntriesDiffer, CheaplyMatches;
    forall path | ChangeAt(seen, path).Some?
      ensures Reported(ChangeAt(seen, path).value, Watched, path) in changes
    {
      assert path in seen.before.Keys + seen.after.Keys;
      var i :| 0 <= i < |diffed| && diffed[i].path == path;
      assert changes[i] == Reported(diffed[i], Watched, path);
    }
  }

  lemma WatchedListed(watched: seq<Reported>, diffed: seq<Change>, changes: seq<Reported>, path: Path)
    requires watched <= changes && |watched| == |diffed|
    requires forall i :: 0 <= i < |diffed| ==> watched[i] == Reported(diffed[i], Watched, diffed[i].path)
    requires exists i :: 0 <= i < |diffed| && diffed[i].path == path
    ensures Listed(changes, path)
  {
    var i :| 0 <= i < |diffed| && diffed[i].path == path;
    assert changes[i] == watched[i];
  }

  lemma WatchesClean(manifests: seq<RootManifest>, scans: seq<RootScan>, w: Watch)
    requires |scans| == |manifests| && Sums(manifests, scans, |scans|, w)
    ensures w.failures == {} <==> Clean(manifests, scans, |scans|)
  {
  }

  /** Where no root lies in another, a path of a finished scan is compared as that scan and
      its baseline have it. */
  lemma {:induction false} MergedOwn(
    manifests: seq<RootManifest>, scans: seq<RootScan>, count: nat, root: nat, path: Path)
    requires root < count <= |manifests| == |scans| && Scanned(manifests, scans, root)
    requires NonNested(manifests) && BelowRoots(manifests) && ScansBelow(manifests, scans)
    requires Within(path, manifests[root].root.path)
    ensures
      var before, after := MergedBefore(manifests, scans, count), MergedAfter(manifests, scans, count);
      && (path in before <==> path in manifests[root].before)
      && (path in before ==> before[path] == manifests[root].before[path])
      && (path in after <==> path in scans[root].entries)
      && (path in after ==> after[path] == scans[root].entries[path])
  {
    if root < count - 1 {
      MergedOwn(manifests, scans, count - 1, root, path);
      NotElsewhere(manifests, scans, count - 1, root, path);
    } else {
      NoneBefore(manifests, scans, root, root, path);
    }
  }

  /** A root that was scanned again and captured a path is believed about it, whatever
      failures elsewhere cover the path: if its two scans differ there, that is listed. */
  lemma OwnDifference(
    manifests: seq<RootManifest>, scans: seq<RootScan>, saved: Option<map<Path, string>>, live: map<Path, string>,
    changes: seq<Reported>, root: nat, path: Path)
    requires |scans| == |manifests| && NonNested(manifests) && BelowRoots(manifests) && ScansBelow(manifests, scans)
    requires WatchedExactly(WatchedScans(manifests, scans, saved, live), changes)
    requires root < |manifests| && Scanned(manifests, scans, root) && Covers(manifests[root].root.path, path)
    requires Captures(manifests[root], scans[root], path)
    requires
      var before, after := manifests[root].before, scans[root].entries;
      || (path in before) != (path in after)
      || (path in before && path in after && EntriesDiffer(before[path], after[path])
          && !CheaplyMatches(WatchedScans(manifests, scans, saved, live), path, before[path], after[path]))
    ensures
      var before, after := manifests[root].before, scans[root].entries;
      exists i :: 0 <= i < |changes| && changes[i].origin.Watched? && changes[i].change.path == path
        && changes[i].change.before == (if path in before then Some(before[path]) else None)
        && changes[i].change.after == (if path in after then Some(after[path]) else None)
  {
    hide EntriesDiffer, CheaplyMatches, NonNested, BelowRoots, ScansBelow, MergedBefore, MergedAfter, Hiding;
    var seen := WatchedScans(manifests, scans, saved, live);
    MergedOwn(manifests, scans, |scans|, root, path);
    assert seen.roots[root].uncaptured == UncapturedNow(manifests[root], scans[root]);
    assert !CoveredBy(path, seen.roots[root].uncaptured);
    assert !ExcludedFromDiff(path, seen.uncaptured, seen.roots);
    assert Reported(ChangeAt(seen, path).value, Watched, path) in changes;
  }

  lemma NotElsewhere(manifests: seq<RootManifest>, scans: seq<RootScan>, other: nat, root: nat, path: Path)
    requires other < |manifests| == |scans| && root < |manifests| && other != root
    requires NonNested(manifests) && BelowRoots(manifests) && ScansBelow(manifests, scans)
    requires Within(path, manifests[root].root.path)
    ensures Scanned(manifests, scans, other) ==> path !in manifests[other].before && path !in scans[other].entries
  {
    if Within(path, manifests[other].root.path) {
      OneBelow(manifests[other].root.path, manifests[root].root.path, path);
    }
  }

  lemma {:induction false} NoneBefore(
    manifests: seq<RootManifest>, scans: seq<RootScan>, count: nat, root: nat, path: Path)
    requires count <= root < |manifests| == |scans|
    requires NonNested(manifests) && BelowRoots(manifests) && ScansBelow(manifests, scans)
    requires Within(path, manifests[root].root.path)
    ensures path !in MergedBefore(manifests, scans, count) && path !in MergedAfter(manifests, scans, count)
  {
    if count > 0 {
      NoneBefore(manifests, scans, count - 1, root, path);
      NotElsewhere(manifests, scans, count - 1, root, path);
    }
  }

  /* The wider tree. */

  /** What the wider tree is compared with: an unfinished scan found nothing, and its
      root is a failure that hides what lies below it. */
  function WideScans(
    scanRoot: Option<Path>, scanBefore: map<Path, Entry>, scanFailures: set<Path>, wide: Option<WideScan>): Scans
    requires wide.Some? <==> scanRoot.Some?
  {
    match wide
    case None => Scans(scanBefore, map[], scanFailures, [], None, map[])
    case Some(WideBroken) => Scans(scanBefore, map[], scanFailures + {scanRoot.value}, [], None, map[])
    case Some(WideCompleted(entries, failures)) => Scans(scanBefore, entries, scanFailures + failures, [], None, map[])
  }

  lemma WideClean(
    scanRoot: Option<Path>, scanBefore: map<Path, Entry>, scanFailures: set<Path>, wide: Option<WideScan>)
    requires wide.Some? <==> scanRoot.Some?
    ensures
      WideScans(scanRoot, scanBefore, scanFailures, wide).uncaptured == {} <==>
      scanFailures == {} && (wide.Some? ==> wide.value.WideCompleted? && wide.value.failures == {})
  {
  }

  /** An entry of the list that the wider tree is the reason for. */
  predicate WideEntry(manifests: seq<RootManifest>, roots: seq<Root>, seen: Scans, reported: Reported)
    requires |roots| == |manifests|
  {
    && ChangeAt(seen, reported.original) == Some(reported.change.(path := reported.original))
    && !CapturedIn(manifests, roots, reported.original)
    && reported.change.path == CloneName(manifests, reported.original)
  }

  /** From the wider tree exactly those changes are listed that no watched root captured. */
  ghost predicate WideExactly(manifests: seq<RootManifest>, scans: seq<RootScan>, seen: Scans, changes: seq<Reported>)
    requires |scans| == |manifests|
  {
    var roots := RootsNow(manifests, scans);
    && (forall i :: 0 <= i < |changes| && changes[i].origin.Wide? ==> WideEntry(manifests, roots, seen, changes[i]))
    && forall path :: ChangeAt(seen, path).Some? && !CapturedIn(manifests, roots, path) ==>
         Listed(changes, CloneName(manifests, path))
  }

  /** A deletion of this origin tells that something is gone: watched roots must not lie
      in each other, and an unfinished scan must not be of the whole file system. */
  ghost predicate Telling(
    manifests: seq<RootManifest>, scanRoot: Option<Path>, wide: Option<WideScan>, origin: Origin)
  {
    match origin
    case Watched => NonNested(manifests)
    case Observed(_) => true
    case Wide => scanRoot != Some([]) || (wide.Some? && wide.value.WideCompleted?)
  }

  lemma WideGenuine(
    manifests: seq<RootManifest>, scans: seq<RootScan>, both: Scans, scanRoot: Option<Path>,
    scanBefore: map<Path, Entry>, scanFailures: set<Path>, wide: Option<WideScan>, found: seq<Change>)
    requires (wide.Some? <==> scanRoot.Some?) && |scans| == |manifests|
    requires forall path :: path in scanBefore ==> scanRoot.Some? && Within(path, scanRoot.value)
    requires
      var seen := WideScans(scanRoot, scanBefore, scanFailures, wide);
      Lists(seen, found, seen.before.Keys + seen.after.Keys)
    ensures forall i :: 0 <= i < |found| && !CapturedIn(manifests, RootsNow(manifests, scans), found[i].path) ==>
      Reported(found[i].(path := CloneName(manifests, found[i].path)), Wide, found[i].path) in
      Expected(manifests, scans, both, scanRoot, scanBefore, scanFailures, wide)
  {
    hide CapturedIn, CloneName, NonNested, RootsNow;
  }

  /** What may be listed: a telling deletion is genuine, and every entry has its reason. */
  ghost function Expected(
    manifests: seq<RootManifest>, scans: seq<RootScan>, both: Scans, scanRoot: Option<Path>,
    scanBefore: map<Path, Entry>, scanFailures: set<Path>, wide: Option<WideScan>): iset<Reported>
    requires (wide.Some? <==> scanRoot.Some?) && |scans| == |manifests|
  {
    var roots, seen := RootsNow(manifests, scans), WideScans(scanRoot, scanBefore, scanFailures, wide);
    iset reported: Reported |
      && (reported.change.kind.Deleted? && Telling(manifests, scanRoot, wide, reported.origin) ==>
            Genuine(manifests, scans, scanBefore, scanFailures, wide, reported))
      && match reported.origin
         case Watched => ChangeAt(both, reported.change.path) == Some(reported.change)
         case Observed(root) => ObservedEntry(manifests, scans, root, reported.change)
         case Wide => WideEntry(manifests, roots, seen, reported)
  }

  lemma AllExpected(
    manifests: seq<RootManifest>, scans: seq<RootScan>, both: Scans, scanRoot: Option<Path>,
    scanBefore: map<Path, Entry>, scanFailures: set<Path>, wide: Option<WideScan>, changes: seq<Reported>)
    requires (wide.Some? <==> scanRoot.Some?) && |scans| == |manifests|
    requires Told(changes, Expected(manifests, scans, both, scanRoot, scanBefore, scanFailures, wide))
    ensures forall i ::
      0 <= i < |changes| && changes[i].change.kind.Deleted? && Telling(manifests, scanRoot, wide, changes[i].origin) ==>
        Genuine(manifests, scans, scanBefore, scanFailures, wide, changes[i])
    ensures forall i :: 0 <= i < |changes| && changes[i].origin.Wide? ==>
      WideEntry(
        manifests, RootsNow(manifests, scans), WideScans(scanRoot, scanBefore, scanFailures, wide), changes[i])
    ensures forall i :: 0 <= i < |changes| && changes[i].origin.Watched? ==>
      ChangeAt(both, changes[i].change.path) == Some(changes[i].change)
    ensures forall i :: 0 <= i < |changes| && changes[i].origin.Observed? ==>
      ObservedEntry(manifests, scans, changes[i].origin.root, changes[i].change)
  {
    hide Telling, Genuine, WideEntry, RootsNow, WideScans, ObservedEntry, ChangeAt;
  }

  lemma WideListed(
    manifests: seq<RootManifest>, scans: seq<RootScan>, seen: Scans, found: seq<Change>, changes: seq<Reported>)
    requires |scans| == |manifests| && Lists(seen, found, seen.before.Keys + seen.after.Keys)
    requires forall i :: 0 <= i < |changes| && changes[i].origin.Wide? ==>
      WideEntry(manifests, RootsNow(manifests, scans), seen, changes[i])
    requires forall i :: 0 <= i < |found| && !CapturedIn(manifests, RootsNow(manifests, scans), found[i].path) ==>
      Listed(changes, CloneName(manifests, found[i].path))
    ensures WideExactly(manifests, scans, seen, changes)
  {
    hide CapturedIn, CloneName, Listed, RootsNow, WideEntry, ExcludedFromDiff, EntriesDiffer, CheaplyMatches;
  }

  /** When the wide scan does not finish and is not of the whole file system, it adds
      nothing to the list. If it is, it adds as deleted exactly the baseline's paths but the
      root that no earlier failure covers and no watched root captured. */
  lemma UnfinishedWideScan(
    manifests: seq<RootManifest>, scans: seq<RootScan>, scanRoot: Path, scanBefore: map<Path, Entry>,
    scanFailures: set<Path>, changes: seq<Reported>)
    requires |scans| == |manifests| && forall path :: path in scanBefore ==> Within(path, scanRoot)
    requires
      WideExactly(manifests, scans, WideScans(Some(scanRoot), scanBefore, scanFailures, Some(WideBroken)), changes)
    ensures forall i :: 0 <= i < |changes| && changes[i].origin.Wide? ==>
      && scanRoot == [] && changes[i].change.kind.Deleted?
      && MissedByScan(manifests, scans, scanBefore, scanFailures, changes[i].original)
      && changes[i].change.path == CloneName(manifests, changes[i].original)
    ensures scanRoot == [] ==>
      forall path :: MissedByScan(manifests, scans, scanBefore, scanFailures, path) ==>
        Listed(changes, CloneName(manifests, path))
  {
    hide CapturedIn, CloneName, Listed, RootsNow;
    var seen := WideScans(Some(scanRoot), scanBefore, scanFailures, Some(WideBroken));
    forall path
      ensures ChangeAt(seen, path).Some? <==>
        scanRoot == [] && path in scanBefore && path != [] && !CoveredBy(path, scanFailures)
    {
    }
  }

  /** A baseline path that nothing speaks for when the whole file system was not scanned. */
  predicate MissedByScan(
    manifests: seq<RootManifest>, scans: seq<RootScan>, scanBefore: map<Path, Entry>, scanFailures: set<Path>, path: Path)
    requires |scans| == |manifests|
  {
    && path in scanBefore && path != [] && !CoveredBy(path, scanFailures)
    && !CapturedIn(manifests, RootsNow(manifests, scans), path)
  }

  /* Other scans. */

  lemma ObservedElsewhere(
    manifests: seq<RootManifest>, scans: seq<RootScan>,
    scanBefore: map<Path, Entry>, scanFailures: set<Path>, wide: Option<WideScan>, reported: Reported)
    requires |scans| == |manifests| && NonNested(manifests) && ScansBelow(manifests, scans)
    requires reported.origin.Observed? && Genuine(manifests, scans, scanBefore, scanFailures, wide, reported)
    ensures Uncontradicted(manifests, scans, reported)
  {
    hide CoveredBy;
    var path, own := reported.change.path, reported.origin.root;
    forall i | Scanned(manifests, scans, i)
      ensures path !in scans[i].entries
    {
      if path in scans[i].entries && i != own {
        assert Within(path, manifests[i].root.path) && Within(path, manifests[own].root.path);
        OneBelow(manifests[i].root.path, manifests[own].root.path, path);
      }
    }
  }

  /** Of two directories that hold a path one lies in the other. */
  lemma OneBelow(first: Path, second: Path, path: Path)
    requires Within(path, first) && Within(path, second)
    ensures Within(first, second) || Within(second, first)
  {
    assert path[..|first|] == first && path[..|second|] == second;
    if |first| < |second| {
      assert second[..|first|] == first;
    } else if |second| < |first| {
      assert first[..|second|] == second;
    }
  }

  lemma WideElsewhere(manifests: seq<RootManifest>, scans: seq<RootScan>, seen: Scans, reported: Reported)
    requires |scans| == |manifests| && ScansBelow(manifests, scans) && reported.origin.Wide?
    requires WideEntry(manifests, RootsNow(manifests, scans), seen, reported)
    ensures Uncontradicted(manifests, scans, reported)
  {
    hide CapturedIn, RootsNow, ChangeAt;
    var path := reported.original;
    HolderInnermost(manifests, path);
    hide Holder;
    forall i | Scanned(manifests, scans, i) && path in scans[i].entries && manifests[i].root.path != []
      ensures Barred(manifests, RootsNow(manifests, scans), path)
    {
      assert Holding(manifests[i], manifests[i].root.path, path);
    }
  }

  lemma AllUncontradicted(
    manifests: seq<RootManifest>, scans: seq<RootScan>, both: Scans, scanRoot: Option<Path>,
    scanBefore: map<Path, Entry>, scanFailures: set<Path>, wide: Option<WideScan>, changes: seq<Reported>)
    requires (wide.Some? <==> scanRoot.Some?) && |scans| == |manifests|
    requires NonNested(manifests) && ScansBelow(manifests, scans)
    requires Told(changes, Expected(manifests, scans, both, scanRoot, scanBefore, scanFailures, wide))
    ensures forall i :: 0 <= i < |changes| && changes[i].change.kind.Deleted? ==>
      Uncontradicted(manifests, scans, changes[i])
  {
    AllExpected(manifests, scans, both, scanRoot, scanBefore, scanFailures, wide, changes);
    hide Expected, Told, NonNested, ScansBelow, WideEntry, RootsNow, WideScans, Uncontradicted;
    forall i | 0 <= i < |changes| && changes[i].change.kind.Deleted?
      ensures Uncontradicted(manifests, scans, changes[i])
    {
      match changes[i].origin
      case Watched => WatchedElsewhere(manifests, scans, scanBefore, scanFailures, wide, changes[i]);
      case Observed(_) => ObservedElsewhere(manifests, scans, scanBefore, scanFailures, wide, changes[i]);
      case Wide =>
        WideElsewhere(manifests, scans, WideScans(scanRoot, scanBefore, scanFailures, wide), changes[i]);
    }
  }

  lemma WatchedElsewhere(
    manifests: seq<RootManifest>, scans: seq<RootScan>,
    scanBefore: map<Path, Entry>, scanFailures: set<Path>, wide: Option<WideScan>, reported: Reported)
    requires |scans| == |manifests| && reported.origin.Watched?
    requires Genuine(manifests, scans, scanBefore, scanFailures, wide, reported)
    ensures Uncontradicted(manifests, scans, reported)
  {
    hide CoveredBy;
  }
}
