/**
 Asking which changed paths Time Machine excludes, in as few queries as possible:
 shallow paths first, and nothing below a path already found excluded.
 */
module Exclusion {
  import opened Wrappers
  import opened FileTrees
  import opened Sorting
  import opened Capture

  const BATCH_SIZE := 256

  /** The answer for one path; `failed` when the question could not be answered. */
  datatype Check = Check(excluded: bool, failed: bool) {
    predicate Found() {
      excluded && !failed
    }
  }

  /** The path itself or the nearest one above it that was found excluded. */
  function Inherited(path: Path, checks: map<Path, Check>): (found: Option<Path>)
    ensures found.Some? ==> found.value in checks && checks[found.value].Found() && Within(path, found.value)
  {
    if path in checks && checks[path].Found() then Some(path)
    else if path == [] then None
    else
      var above := Inherited(Parent(path), checks);
      if above.Some? then (AboveChild(above.value, path); above) else None
  }

  lemma {:induction false} InheritedFinds(path: Path, checks: map<Path, Check>, above: Path)
    requires Within(path, above) && above in checks && checks[above].Found()
    ensures Inherited(path, checks).Some?
  {
    if path != above {
      AboveParent(above, path);
      InheritedFinds(Parent(path), checks, above);
    }
  }

  predicate Decided(path: Path, checks: map<Path, Check>) {
    path in checks || Inherited(path, checks).Some?
  }

  /** What is concluded for a path: its own answer, or exclusion inherited from above. */
  function Verdict(path: Path, checks: map<Path, Check>): Check
    requires Decided(path, checks)
  {
    if path in checks then checks[path] else Check(true, false)
  }

  /** Excluding a directory excludes everything below it. */
  ghost predicate Downward(truth: Path -> bool) {
    forall above, path :: truth(above) && IsAbove(above, path) ==> truth(path)
  }

  /** Unicode's white space. */
  predicate IsSpace(c: char) {
    var code := c as int;
    || 0x9 <= code <= 0xD || code == 0x20 || code == 0x85 || code == 0xA0 || code == 0x1680
    || 0x2000 <= code <= 0x200A || code == 0x2028 || code == 0x2029 || code == 0x202F || code == 0x205F
    || code == 0x3000
  }

  /** White space cannot be told apart in the output of one batch. */
  predicate SafeForBatch(path: Path) {
    forall i :: 0 <= i < |path| ==> forall c :: c in path[i] ==> !IsSpace(c)
  }

  /** The answers so far are true, and a question that failed was reported. */
  ghost predicate Sound(truth: Path -> bool, checks: map<Path, Check>, failed: set<Path>) {
    && (forall path :: path in checks && !checks[path].failed ==> checks[path].excluded == truth(path))
    && forall path :: path in checks && checks[path].failed ==> path in failed
  }

  /** Nothing was asked below a path found excluded. */
  ghost predicate Frugal(checks: map<Path, Check>) {
    forall path :: path in checks ==> Open(path, checks)
  }

  ghost predicate Open(path: Path, checks: map<Path, Check>) {
    forall above :: above in checks && IsAbove(above, path) ==> !checks[above].Found()
  }

  lemma UndecidedOpen(path: Path, checks: map<Path, Check>)
    requires Inherited(path, checks).None?
    ensures Open(path, checks)
  {
  }

  /** Another answer at the same depth or deeper closes no path at this depth. */
  lemma StaysFrugal(checks: map<Path, Check>, path: Path, check: Check)
    requires Frugal(checks) && Open(path, checks)
    requires forall other :: other in checks ==> |other| <= |path|
    ensures Frugal(checks[path := check])
    ensures forall other :: |other| <= |path| && Open(other, checks) ==> Open(other, checks[path := check])
  {
  }

  /** Where the answers agree with the platform, so do the verdicts. */
  lemma VerdictTrue(truth: Path -> bool, checks: map<Path, Check>, failed: set<Path>, path: Path)
    requires Downward(truth) && Sound(truth, checks, failed) && Decided(path, checks)
    ensures !Verdict(path, checks).failed ==> Verdict(path, checks).excluded == truth(path)
  {
  }

  class Classifier {
    const truth: Path -> bool
    var checks: map<Path, Check>
    var failures: seq<Failure>
    ghost var refusals: nat
    ghost var alone: set<Path>
    ghost var stopped: bool

    constructor (truth: Path -> bool)
      ensures this.truth == truth && checks == map[] && failures == []
    {
      this.truth := truth;
      checks, failures, refusals, alone, stopped := map[], [], 0, {}, false;
    }

    ghost predicate Valid()
      reads this`checks, this`failures
    {
      Sound(truth, checks, FailurePaths(failures)) && Frugal(checks)
    }

    /** An answer was only given up for a path that was asked about alone, or after the
        command was cancelled. */
    ghost predicate Pressed()
      reads this`checks, this`alone, this`stopped
    {
      forall path :: path in checks && checks[path].failed ==> path in alone || stopped
    }

    /** One query of the platform; it may fail or answer for the wrong number of paths.
        Nothing below a path found excluded is asked about, and of several paths none that
        the output could not show. */
    method IsExcludedBatch(paths: seq<Path>) returns (answers: Option<seq<bool>>)
      requires |paths| <= BATCH_SIZE && forall i :: 0 <= i < |paths| ==> Open(paths[i], checks)
      requires |paths| > 1 ==> forall i :: 0 <= i < |paths| ==> SafeForBatch(paths[i])
      modifies this`refusals, this`alone
      ensures
        alone == old(alone) +
          if (answers.None? || |answers.value| != |paths|) && |paths| == 1 then {paths[0]} else {}
      ensures answers.Some? && |answers.value| == |paths| ==>
        refusals == old(refusals) && forall i :: 0 <= i < |paths| ==> answers.value[i] == truth(paths[i])
      ensures answers.None? || |answers.value| != |paths| ==> refusals == old(refusals) + 1
    {
      ghost var given := alone + if |paths| == 1 then {paths[0]} else {};
      if * {
        refusals, alone := refusals + 1, given;
        return None;
      }
      if * {
        var wrong: seq<bool> := *;
        if |wrong| != |paths| {
          refusals, alone := refusals + 1, given;
          return Some(wrong);
        }
      }
      var platform := truth;
      answers := Some(seq(|paths|, i requires 0 <= i < |paths| => platform(paths[i])));
    }

    /** Every path of the layer may be asked about, and nothing deeper was. */
    ghost predicate Ready(layer: seq<Path>, from: nat, depth: nat)
      reads this`checks, this`failures
      requires from <= |layer|
    {
      && Valid()
      && (forall path :: path in checks ==> |path| <= depth)
      && (forall i :: from <= i < |layer| ==> |layer[i]| == depth && layer[i] !in checks && Open(layer[i], checks))
      && forall i, j :: from <= i < j < |layer| ==> layer[i] != layer[j]
    }

    method Answer(layer: seq<Path>, index: nat, check: Check, ghost depth: nat)
      requires index < |layer| && Ready(layer, index, depth) && Pressed()
      requires if check.failed then layer[index] in alone || stopped else check.excluded == truth(layer[index])
      modifies this`checks, this`failures
      ensures Ready(layer, index + 1, depth) && Pressed()
      ensures checks == old(checks)[layer[index] := check]
      ensures failures == if check.failed then old(failures) + [Failure(layer[index], "not verified", "")] else old(failures)
    {
      StaysFrugal(checks, layer[index], check);
      if check.failed {
        FailureAdded(failures, Failure(layer[index], "not verified", ""));
        failures := failures + [Failure(layer[index], "not verified", "")];
      }
      checks := checks[layer[index] := check];
    }

    /** Failures are only reported when the platform refused an answer. */
    twostate predicate Excused()
      reads this
    {
      refusals >= old(refusals) && (refusals == old(refusals) ==> failures == old(failures))
    }

    /** Whether the command was cancelled by now. */
    method Cancelled() returns (cancelled: bool)
      modifies this`stopped
      ensures stopped == (old(stopped) || cancelled)
    {
      cancelled := *;
      stopped := stopped || cancelled;
    }

    /** Asks about one path alone. */
    method CheckPath(layer: seq<Path>, index: nat, cancelled: bool, ghost depth: nat)
      requires index < |layer| && Ready(layer, index, depth) && Pressed() && (cancelled ==> stopped)
      modifies this
      ensures Ready(layer, index + 1, depth) && Pressed() && (old(stopped) ==> stopped)
      ensures checks.Keys == old(checks).Keys + {layer[index]} && Grown(old(checks), checks)
      ensures refusals >= old(refusals) && (cancelled || Excused())
    {
      var check := Check(false, true);
      if !cancelled {
        var answers := IsExcludedBatch([layer[index]]);
        if answers.Some? && |answers.value| == 1 {
          check := Check(answers.value[0], false);
        }
      }
      Answer(layer, index, check, depth);
    }

    /** Asks about a run of paths at once, or one by one when that fails. */
    method CheckBatch(layer: seq<Path>, start: nat, end: nat, ghost depth: nat)
      requires start <= end <= |layer| && end - start <= BATCH_SIZE && Ready(layer, start, depth) && Pressed()
      requires forall i :: start <= i < end ==> SafeForBatch(layer[i])
      modifies this
      ensures Ready(layer, end, depth) && Pressed()
      ensures checks.Keys == old(checks).Keys + Elements(layer[start..end]) && Grown(old(checks), checks)
      ensures Excused()
    {
      OpenFrom(layer, start, depth);
      hide Ready, Open, SafeForBatch;
      var answers := IsExcludedBatch(layer[start..end]);
      if answers.Some? && |answers.value| == end - start {
        forall i | start <= i < end
          ensures answers.value[i - start] == truth(layer[i])
        {
          assert layer[start..end][i - start] == layer[i];
        }
        TakeAnswers(layer, start, end, answers.value, depth);
      } else {
        AskEach(layer, start, end, depth);
      }
    }

    method TakeAnswers(layer: seq<Path>, start: nat, end: nat, answers: seq<bool>, ghost depth: nat)
      requires start <= end <= |layer| && Ready(layer, start, depth) && Pressed()
      requires |answers| == end - start && forall i :: start <= i < end ==> answers[i - start] == truth(layer[i])
      modifies this`checks, this`failures
      ensures Ready(layer, end, depth) && Pressed() && failures == old(failures)
      ensures checks.Keys == old(checks).Keys + Elements(layer[start..end]) && Grown(old(checks), checks)
    {
      hide Ready;
      for index := start to end
        invariant Ready(layer, index, depth) && Pressed() && failures == old(failures)
        invariant checks.Keys == old(checks).Keys + Elements(layer[start..index]) && Grown(old(checks), checks)
      {
        assert layer[start..index + 1] == layer[start..index] + [layer[index]];
        NotYet(layer, index, depth);
        Answer(layer, index, Check(answers[index - start], false), depth);
      }
    }

    /** Cancellation is looked for before each path. */
    method AskEach(layer: seq<Path>, start: nat, end: nat, ghost depth: nat)
      requires start <= end <= |layer| && Ready(layer, start, depth) && Pressed()
      modifies this
      ensures Ready(layer, end, depth) && Pressed() && refusals >= old(refusals)
      ensures checks.Keys == old(checks).Keys + Elements(layer[start..end]) && Grown(old(checks), checks)
    {
      hide Ready;
      var cancelled := false;
      for index := start to end
        invariant Ready(layer, index, depth) && Pressed() && (cancelled ==> stopped) && refusals >= old(refusals)
        invariant checks.Keys == old(checks).Keys + Elements(layer[start..index]) && Grown(old(checks), checks)
      {
        assert layer[start..index + 1] == layer[start..index] + [layer[index]];
        if !cancelled {
          cancelled := Cancelled();
        }
        CheckPath(layer, index, cancelled, depth);
      }
    }

    lemma NotYet(layer: seq<Path>, index: nat, depth: nat)
      requires index < |layer| && Ready(layer, index, depth)
      ensures layer[index] !in checks
    {
    }

    lemma OpenFrom(layer: seq<Path>, from: nat, depth: nat)
      requires from <= |layer| && Ready(layer, from, depth)
      ensures forall i :: from <= i < |layer| ==> Open(layer[i], checks)
    {
    }

    /** Paths the batch output can show, 256 at a time. */
    method CheckBatches(layer: seq<Path>, first: nat, ghost depth: nat)
      requires first <= |layer| && Ready(layer, first, depth) && Pressed()
      requires forall i :: first <= i < |layer| ==> SafeForBatch(layer[i])
      modifies this
      ensures Ready(layer, |layer|, depth) && Pressed()
      ensures checks.Keys == old(checks).Keys + Elements(layer[first..]) && Grown(old(checks), checks)
      ensures Excused()
    {
      hide Ready, SafeForBatch;
      var start := first;
      while start < |layer|
        invariant first <= start <= |layer| && Ready(layer, start, depth) && Pressed()
        invariant checks.Keys == old(checks).Keys + Elements(layer[first..start]) && Grown(old(checks), checks)
        invariant Excused()
      {
        var end := if start + BATCH_SIZE > |layer| then |layer| else start + BATCH_SIZE;
        assert layer[first..end] == layer[first..start] + layer[start..end];
        CheckBatch(layer, start, end, depth);
        start := end;
      }
      assert layer[first..|layer|] == layer[first..];
    }

    method CheckSingly(layer: seq<Path>, last: nat, ghost depth: nat)
      requires last <= |layer| && Ready(layer, 0, depth) && Pressed()
      modifies this
      ensures Ready(layer, last, depth) && Pressed()
      ensures checks.Keys == old(checks).Keys + Elements(layer[..last]) && Grown(old(checks), checks)
      ensures Excused()
    {
      hide Ready;
      for index := 0 to last
        invariant Ready(layer, index, depth) && Pressed()
        invariant checks.Keys == old(checks).Keys + Elements(layer[..index]) && Grown(old(checks), checks)
        invariant Excused()
      {
        assert layer[..index + 1] == layer[..index] + [layer[index]];
        CheckPath(layer, index, false, depth);
      }
    }

    /** Drops what is decided by exclusion from above and finds the shallowest of the rest. */
    method NextLayer(pending: set<Path>) returns (left: set<Path>, layer: set<Path>, depth: nat)
      requires pending != {}
      ensures layer <= left <= pending && (left == {} <==> layer == {})
      ensures forall path :: path in pending && path !in left ==> Inherited(path, checks).Some?
      ensures forall path :: path in left ==> Inherited(path, checks).None? && |path| >= depth
      ensures forall path :: path in left ==> (path in layer <==> |path| == depth)
    {
      left, layer, depth := pending, {}, 0;
      var unseen := pending;
      while unseen != {}
        invariant unseen <= left <= pending && layer <= left - unseen
        invariant layer == {} <==> left == unseen
        invariant forall path :: path in pending && path !in left ==> Inherited(path, checks).Some?
        invariant forall path :: path in left && path !in unseen ==> Inherited(path, checks).None? && |path| >= depth
        invariant forall path :: path in left && path !in unseen ==> (path in layer <==> |path| == depth)
        decreases unseen
      {
        var path :| path in unseen;
        unseen := unseen - {path};
        if Inherited(path, checks).Some? {
          left := left - {path};
        } else if layer == {} || |path| < depth {
          depth, layer := |path|, {path};
        } else if |path| == depth {
          layer := layer + {path};
        }
      }
    }

    /** Decides every path: with its own answer or by exclusion inherited from above. */
    method Classify(paths: set<Path>)
      requires checks == map[] && failures == []
      modifies this
      ensures Valid() && Pressed() && checks.Keys <= paths && Excused()
      ensures forall path :: path in paths ==> Decided(path, checks)
    {
      var pending := paths;
      while pending != {}
        invariant Valid() && Pressed() && pending <= paths && checks.Keys <= paths && Excused()
        invariant forall path :: path in paths && path !in pending ==> Decided(path, checks)
        invariant forall asked, path :: asked in checks && path in pending ==> |asked| < |path|
        decreases pending
      {
        var left, layer, depth := NextLayer(pending);
        if left != {} {
          ghost var before := checks;
          CheckLayer(layer, depth);
          ghost var after := checks;
          forall path | path in paths && path !in left - layer
            ensures Decided(path, checks)
          {
            GrownDecided(path, before, after);
          }
        }
        pending := left - layer;
      }
    }

    /** The answer a change gets; only a path nothing is known about is asked for now. */
    method Conclude(path: Path) returns (check: Check, asked: bool)
      requires Valid()
      modifies this`checks, this`refusals, this`alone
      ensures asked <==> !old(Decided(path, checks))
      ensures !asked ==> check == old(Verdict(path, checks)) && checks == old(checks) && refusals == old(refusals)
      ensures !asked ==> alone == old(alone)
      ensures asked ==> checks == old(checks)[path := check] && (!check.failed ==> check.excluded == truth(path))
    {
      asked := false;
      if path in checks {
        return checks[path], false;
      }
      var inherited := Inherited(path, checks);
      if inherited.Some? {
        return checks[inherited.value], false;
      }
      UndecidedOpen(path, checks);
      var answers := IsExcludedBatch([path]);
      check := if answers.Some? && |answers.value| == 1 then Check(answers.value[0], false) else Check(false, true);
      checks := checks[path := check];
      asked := true;
    }

    /** Batching by layers concludes for every path what asking about it alone would,
        asks nothing below an excluded path, and asks nothing at the end. */
    method ClassifyWideChanges(paths: seq<Path>) returns (verdicts: seq<Check>, ghost askedLate: bool)
      requires checks == map[] && failures == [] && Downward(truth)
      modifies this
      ensures |verdicts| == |paths| && !askedLate
      ensures Frugal(checks) && checks.Keys <= Elements(paths)
      ensures forall i :: 0 <= i < |paths| && !verdicts[i].failed ==> verdicts[i].excluded == truth(paths[i])
      ensures refusals == old(refusals) ==> forall i :: 0 <= i < |paths| ==> !verdicts[i].failed
      ensures forall i :: 0 <= i < |paths| && verdicts[i].failed ==> paths[i] in alone || stopped
    {
      Classify(set path | path in paths);
      ghost var answered := checks;
      verdicts, askedLate := [], false;
      for index := 0 to |paths|
        invariant |verdicts| == index && !askedLate && checks == answered && Valid() && Pressed() && Excused()
        invariant forall i :: 0 <= i < index ==> verdicts[i] == Verdict(paths[i], checks)
      {
        var check, asked := Conclude(paths[index]);
        verdicts, askedLate := verdicts + [check], askedLate || asked;
      }
      forall i | 0 <= i < |paths|
        ensures !verdicts[i].failed ==> verdicts[i].excluded == truth(paths[i])
        ensures refusals == old(refusals) ==> !verdicts[i].failed
        ensures verdicts[i].failed ==> paths[i] in alone || stopped
      {
        VerdictTrue(truth, checks, FailurePaths(failures), paths[i]);
      }
    }

    /** The paths of one depth, those a batch cannot show first. */
    method CheckLayer(paths: set<Path>, depth: nat)
      requires Valid() && Pressed() && forall asked :: asked in checks ==> |asked| < depth
      requires forall path :: path in paths ==> |path| == depth && Inherited(path, checks).None?
      modifies this
      ensures Valid() && Pressed() && checks.Keys == old(checks).Keys + paths && Grown(old(checks), checks)
      ensures Excused()
    {
      hide Sorted, DistinctBy, Sound, Frugal, Inherited;
      var ordered := OrderedPaths(paths);
      var layer, first := UnsafeFirst(ordered);
      SameElements(ordered, paths);
      LayerReady(layer, paths, depth);
      hide Ready, SafeForBatch, Grown;
      CheckSingly(layer, first, depth);
      ghost var middle := checks;
      CheckBatches(layer, first, depth);
      GrownTrans(old(checks), middle, checks);
      assert layer == layer[..first] + layer[first..];
      ReadyValid(layer, depth);
    }

    lemma ReadyValid(layer: seq<Path>, depth: nat)
      requires Ready(layer, |layer|, depth)
      ensures Valid()
    {
    }

    lemma LayerReady(layer: seq<Path>, paths: set<Path>, depth: nat)
      requires Valid() && (forall asked :: asked in checks ==> |asked| < depth)
      requires forall path :: path in paths ==> |path| == depth && Inherited(path, checks).None?
      requires Elements(layer) == paths && forall i, j :: 0 <= i < j < |layer| ==> layer[i] != layer[j]
      ensures Ready(layer, 0, depth)
    {
      hide Inherited, Open, Frugal, Sound;
      forall i | 0 <= i < |layer|
        ensures |layer[i]| == depth && layer[i] !in checks && Open(layer[i], checks)
      {
        assert layer[i] in Elements(layer);
        UndecidedOpen(layer[i], checks);
      }
    }
  }

  method UnsafeFirst(ordered: seq<Path>) returns (layer: seq<Path>, first: nat)
    requires DistinctBy(ordered, (path: Path) => path)
    ensures first <= |layer| && Elements(layer) == Elements(ordered)
    ensures forall i, j :: 0 <= i < j < |layer| ==> layer[i] != layer[j]
    ensures forall i :: 0 <= i < |layer| ==> (SafeForBatch(layer[i]) <==> i >= first)
  {
    var single, batch: seq<Path> := [], [];
    var key := (path: Path) => path;
    for index := 0 to |ordered|
      invariant Elements(single) + Elements(batch) == Elements(ordered[..index])
      invariant forall i :: 0 <= i < |single| ==> !SafeForBatch(single[i])
      invariant forall i :: 0 <= i < |batch| ==> SafeForBatch(batch[i])
      invariant forall i, j :: 0 <= i < j < |single| ==> single[i] != single[j]
      invariant forall i, j :: 0 <= i < j < |batch| ==> batch[i] != batch[j]
    {
      var path := ordered[index];
      assert ordered[..index + 1] == ordered[..index] + [path];
      assert path !in ordered[..index] by {
        assert forall i :: 0 <= i < index ==> key(ordered[i]) != key(path);
      }
      assert path !in Elements(single) && path !in Elements(batch);
      if SafeForBatch(path) {
        batch := batch + [path];
      } else {
        single := single + [path];
      }
    }
    assert ordered[..|ordered|] == ordered;
    layer, first := single + batch, |single|;
  }

  lemma GrownTrans(first: map<Path, Check>, second: map<Path, Check>, third: map<Path, Check>)
    requires Grown(first, second) && Grown(second, third)
    ensures Grown(first, third)
  {
  }

  lemma SameElements(ordered: seq<Path>, paths: set<Path>)
    requires forall path :: path in ordered <==> path in paths
    ensures Elements(ordered) == paths
  {
  }

  lemma GrownDecided(path: Path, before: map<Path, Check>, after: map<Path, Check>)
    requires Grown(before, after)
    ensures Decided(path, before) ==> Decided(path, after)
  {
    var found := Inherited(path, before);
    if found.Some? {
      InheritedFinds(path, after, found.value);
    }
  }

  function Elements(layer: seq<Path>): set<Path> {
    set path | path in layer
  }

  /** Answers are never taken back. */
  ghost predicate Grown(before: map<Path, Check>, after: map<Path, Check>) {
    forall path :: path in before ==> path in after && after[path] == before[path]
  }
}
