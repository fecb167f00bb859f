/**
 Names for the copies written beside a conflicting path. The search for one takes the
 first name that a look finds absent, and goes on after any other answer: if the names
 are too long to be looked up it never ends.
 */
module Sidecars {
  import opened Wrappers
  import opened FileTrees

  function Digits(n: nat): string {
    if n < 10 then [DIGITS[n]] else Digits(n / 10) + [DIGITS[n % 10]]
  }

  const DIGITS := "0123456789"

  function Value(digits: string): int {
    if digits == [] then 0
    else Value(digits[..|digits| - 1]) * 10 + (digits[|digits| - 1] as int - '0' as int)
  }

  lemma {:induction false} DigitsValue(n: nat)
    ensures Value(Digits(n)) == n && Digits(n) != []
    ensures forall i :: 0 <= i < |Digits(n)| ==> '0' <= Digits(n)[i] <= '9'
  {
    if n < 10 {
      assert Digits(n)[..0] == [];
    } else {
      DigitsValue(n / 10);
      assert Digits(n)[..|Digits(n)| - 1] == Digits(n / 10);
    }
  }

  const MARKER := ".unring-"
  const SNAPSHOT := ".snapshot"

  /** Long session ids are cut to 20 characters. */
  function ShortID(id: string): string {
    if |id| > 20 then id[..20] else id
  }

  function Suffix(index: nat): string {
    if index == 0 then "" else "." + Digits(index)
  }

  function SidecarName(name: string, id: string, index: nat): string {
    name + MARKER + ShortID(id) + SNAPSHOT + Suffix(index)
  }

  function Candidate(path: Path, id: string, index: nat): Path
    requires path != []
  {
    Parent(path) + [SidecarName(path[|path| - 1], id, index)]
  }

  lemma CandidateDiffers(path: Path, id: string, i: nat, j: nat)
    requires path != [] && i != j
    ensures Candidate(path, id, i) != Candidate(path, id, j)
  {
    var stem := path[|path| - 1] + MARKER + ShortID(id) + SNAPSHOT;
    assert SidecarName(path[|path| - 1], id, i) == stem + Suffix(i);
    assert SidecarName(path[|path| - 1], id, j) == stem + Suffix(j);
    assert (stem + Suffix(i))[|stem|..] == Suffix(i);
    assert (stem + Suffix(j))[|stem|..] == Suffix(j);
    DigitsValue(i);
    DigitsValue(j);
    assert Suffix(i) != Suffix(j) by {
      assert i > 0 ==> Suffix(i)[1..] == Digits(i);
      assert j > 0 ==> Suffix(j)[1..] == Digits(j);
    }
    assert Candidate(path, id, i)[|path| - 1] == stem + Suffix(i);
    assert Candidate(path, id, j)[|path| - 1] == stem + Suffix(j);
  }

  /** Longer numbers have no fewer digits. */
  lemma {:induction false} DigitsGrow(i: nat, j: nat)
    requires i <= j
    ensures |Digits(i)| <= |Digits(j)|
  {
    if j >= 10 {
      if i >= 10 {
        DigitsGrow(i / 10, j / 10);
      }
      DigitsValue(j / 10);
    }
  }

  /** No later name is shorter. */
  lemma NamesGrow(name: string, id: string, i: nat, j: nat)
    requires i <= j
    ensures |SidecarName(name, id, i)| <= |SidecarName(name, id, j)|
  {
    DigitsGrow(i, j);
  }

  lemma CandidateBeside(path: Path, id: string, index: nat)
    requires path != []
    ensures Candidate(path, id, index) != path && Parent(Candidate(path, id, index)) == Parent(path)
  {
    assert |Candidate(path, id, index)[|path| - 1]| > |path[|path| - 1]|;
  }

  /* The search for a free name. */

  /** The longest name the file system takes, in bytes. */
  const NAME_MAX := 255

  /** A look at a name beside the path; one that is too long is an error like any other. */
  function LookBeside(nodes: Tree, path: Path, id: string, index: nat): Look
    requires path != []
  {
    var candidate := Candidate(path, id, index);
    if |SidecarName(path[|path| - 1], id, index)| > NAME_MAX || Lookup(nodes, candidate).Denied? then Denied
    else if candidate in nodes then Present(nodes[candidate])
    else Absent
  }

  predicate Free(nodes: Tree, path: Path, id: string, index: nat)
    requires path != []
  {
    LookBeside(nodes, path, id, index).Absent?
  }

  /** The first free number among the first `rounds`, if there is one. */
  function Search(nodes: Tree, path: Path, id: string, rounds: nat): Option<nat>
    requires path != []
  {
    if rounds == 0 then None
    else
      var earlier := Search(nodes, path, id, rounds - 1);
      if earlier.Some? then earlier
      else if Free(nodes, path, id, rounds - 1) then Some(rounds - 1)
      else None
  }

  lemma {:induction false} Finds(nodes: Tree, path: Path, id: string, rounds: nat)
    requires path != []
    ensures
      var found := Search(nodes, path, id, rounds);
      && (found.Some? ==> found.value < rounds && Free(nodes, path, id, found.value))
      && forall i :: 0 <= i < (if found.Some? then found.value else rounds) ==> !Free(nodes, path, id, i)
  {
    hide Free;
    if rounds > 0 {
      Finds(nodes, path, id, rounds - 1);
    }
  }

  /** Counts upward until a look finds nothing there, for at most so many rounds. */
  method AvailableSidecar(nodes: Tree, path: Path, id: string, rounds: nat) returns (sidecar: Option<Path>)
    requires path != []
    ensures
      var found := Search(nodes, path, id, rounds);
      sidecar == if found.Some? then Some(Candidate(path, id, found.value)) else None
    ensures sidecar.Some? ==>
      sidecar.value !in nodes && sidecar.value != path && Parent(sidecar.value) == Parent(path)
  {
    hide Lookup, Candidate, Search, SidecarName;
    Finds(nodes, path, id, rounds);
    var index: nat := 0;
    while index < rounds
      invariant index <= rounds
      invariant forall i :: 0 <= i < index ==> !Free(nodes, path, id, i)
    {
      if LookBeside(nodes, path, id, index).Absent? {
        CandidateBeside(path, id, index);
        assert Free(nodes, path, id, index);
        return Some(Candidate(path, id, index));
      }
      index := index + 1;
    }
    sidecar := None;
  }

  /** What a name beside the path needs: a directory that can be looked into, and room. */
  predicate Nameable(nodes: Tree, path: Path, id: string, index: nat)
    requires path != []
  {
    !Lookup(nodes, Candidate(path, id, index)).Denied? && |SidecarName(path[|path| - 1], id, index)| <= NAME_MAX
  }

  lemma SameDirectory(nodes: Tree, path: Path, id: string, i: nat, j: nat)
    requires path != []
    ensures Lookup(nodes, Candidate(path, id, i)).Denied? == Lookup(nodes, Candidate(path, id, j)).Denied?
  {
    LookUpThrough(nodes, Candidate(path, id, i));
    LookUpThrough(nodes, Candidate(path, id, j));
    hide Lookup;
    assert Parent(Candidate(path, id, i)) == Parent(Candidate(path, id, j));
  }

  /** Whether a look is denied depends on what is above. */
  lemma LookUpThrough(nodes: Tree, path: Path)
    requires path != []
    ensures Lookup(nodes, path).Denied? <==> BarredBy(Lookup(nodes, Parent(path)))
  {
  }

  predicate BarredBy(above: Look) {
    above.Denied? || (above.Present? && !(above.node.kind.Directory? && above.node.mode.searchable))
  }

  /** The first of two numbers can be looked up if the second can. */
  lemma NameableDown(nodes: Tree, path: Path, id: string, i: nat, j: nat)
    requires path != [] && i <= j && Nameable(nodes, path, id, j)
    ensures Nameable(nodes, path, id, i)
  {
    SameDirectory(nodes, path, id, i, j);
    NamesGrow(path[|path| - 1], id, i, j);
    hide Lookup;
  }

  /** Everything before the number found is taken. */
  lemma FreeFirst(nodes: Tree, path: Path, id: string, rounds: nat)
    requires path != []
    ensures
      var found := Search(nodes, path, id, rounds);
      found.Some? ==> forall i :: 0 <= i < found.value ==> Candidate(path, id, i) in nodes
  {
    hide Search;
    Finds(nodes, path, id, rounds);
    var found := Search(nodes, path, id, rounds);
    if found.Some? {
      forall i | 0 <= i < found.value
        ensures Candidate(path, id, i) in nodes
      {
        NameableDown(nodes, path, id, i, found.value);
        assert !Free(nodes, path, id, i);
      }
    }
    hide Lookup, Candidate;
  }

  ghost function Tried(path: Path, id: string, count: nat): set<Path>
    requires path != []
  {
    set i | 0 <= i < count :: Candidate(path, id, i)
  }

  lemma {:induction false} TriedCount(path: Path, id: string, count: nat)
    requires path != []
    ensures |Tried(path, id, count)| == count
  {
    if count == 0 {
      assert Tried(path, id, 0) == {};
    } else {
      hide Candidate, Tried;
      TriedCount(path, id, count - 1);
      OneMoreTried(path, id, count - 1);
    }
  }

  lemma OneMoreTried(path: Path, id: string, index: nat)
    requires path != []
    ensures Candidate(path, id, index) !in Tried(path, id, index)
    ensures Tried(path, id, index + 1) == Tried(path, id, index) + {Candidate(path, id, index)}
  {
    hide Candidate;
    forall i | 0 <= i < index
      ensures Candidate(path, id, i) != Candidate(path, id, index)
    {
      CandidateDiffers(path, id, i, index);
    }
  }

  /** Files cannot take more names than there are files. */
  lemma NotAllTaken(nodes: Tree, path: Path, id: string) returns (index: nat)
    requires path != []
    ensures index <= |nodes| && Candidate(path, id, index) !in nodes
  {
    hide Candidate;
    var count := |nodes| + 1;
    TriedCount(path, id, count);
    assert |nodes| == |nodes.Keys|;
    if Tried(path, id, count) <= nodes.Keys {
      Fewer(Tried(path, id, count), nodes.Keys);
      assert false;
    }
    var candidate :| candidate in Tried(path, id, count) && candidate !in nodes;
    index :| 0 <= index < count && Candidate(path, id, index) == candidate;
  }

  lemma {:induction false} Fewer(part: set<Path>, whole: set<Path>)
    requires part <= whole
    ensures |part| <= |whole|
  {
    if part != {} {
      var path :| path in part;
      Fewer(part - {path}, whole - {path});
    }
  }

  /** The search ends if and only if one of its first names, one more than there are
      files, can be looked up and is not taken; looking longer never helps. */
  lemma SearchEndsExactly(nodes: Tree, path: Path, id: string)
    requires path != []
    ensures
      (exists rounds :: Search(nodes, path, id, rounds).Some?) <==>
      exists i :: 0 <= i <= |nodes| && Nameable(nodes, path, id, i) && Candidate(path, id, i) !in nodes
    ensures
      (exists rounds :: Search(nodes, path, id, rounds).Some?) <==> Search(nodes, path, id, |nodes| + 1).Some?
  {
    hide Lookup, Candidate, Search;
    Finds(nodes, path, id, |nodes| + 1);
    if rounds: nat :| Search(nodes, path, id, rounds).Some? {
      Finds(nodes, path, id, rounds);
      var found := Search(nodes, path, id, rounds).value;
      var i := NotAllTaken(nodes, path, id);
      if found <= |nodes| {
        i := found;
      } else {
        NameableDown(nodes, path, id, i, found);
      }
      assert Nameable(nodes, path, id, i) && Candidate(path, id, i) !in nodes;
      assert Free(nodes, path, id, i);
    }
    if i :| 0 <= i <= |nodes| && Nameable(nodes, path, id, i) && Candidate(path, id, i) !in nodes {
      assert Free(nodes, path, id, i);
      assert Search(nodes, path, id, |nodes| + 1).Some?;
    }
  }

  /** It never ends if the first name is too long, and not either if the first is taken
      and the next is too long; it ends if there is room for one name more than files. */
  lemma LongNamesHang(nodes: Tree, path: Path, id: string, rounds: nat)
    requires path != []
    ensures
      var name := path[|path| - 1];
      && (|SidecarName(name, id, 0)| > NAME_MAX ==> Search(nodes, path, id, rounds).None?)
      && (Candidate(path, id, 0) in nodes && |SidecarName(name, id, 1)| > NAME_MAX ==>
            Search(nodes, path, id, rounds).None?)
      && (Nameable(nodes, path, id, |nodes|) ==> Search(nodes, path, id, |nodes| + 1).Some?)
  {
    hide Lookup, Candidate, Search;
    var name := path[|path| - 1];
    Finds(nodes, path, id, rounds);
    Finds(nodes, path, id, |nodes| + 1);
    var found := Search(nodes, path, id, rounds);
    if found.Some? {
      NamesGrow(name, id, 0, found.value);
      if found.value >= 1 {
        NamesGrow(name, id, 1, found.value);
      }
    }
    if Nameable(nodes, path, id, |nodes|) {
      var i := NotAllTaken(nodes, path, id);
      NameableDown(nodes, path, id, i, |nodes|);
      assert Free(nodes, path, id, i);
    }
  }

  /** The name of a path's copy; None if the search for one never ends. The root has none. */
  function Sidecar(nodes: Tree, path: Path, id: string): Option<Path> {
    if path == [] then None
    else
      var found := Search(nodes, path, id, |nodes| + 1);
      if found.Some? then Some(Candidate(path, id, found.value)) else None
  }

  lemma SidecarFree(nodes: Tree, path: Path, id: string)
    ensures Sidecar(nodes, path, id).Some? ==> Sidecar(nodes, path, id).value !in nodes
  {
    if path != [] {
      Finds(nodes, path, id, |nodes| + 1);
      hide Search, Lookup, Candidate;
    }
  }

  /* Recognising such names later. */

  predicate Occurs(text: string, part: string, index: int) {
    0 <= index <= |text| - |part| && text[index..index + |part|] == part
  }

  /** The first occurrence from `index` on, or -1. */
  function FirstFrom(text: string, part: string, index: nat): (found: int)
    ensures found == -1 || (found >= index && Occurs(text, part, found))
    decreases |text| - index
  {
    if index > |text| - |part| then -1
    else if Occurs(text, part, index) then index
    else FirstFrom(text, part, index + 1)
  }

  /** The last occurrence before or at `index`, or -1. */
  function LastTo(text: string, part: string, index: int): (found: int)
    ensures found == -1 || (0 <= found <= index && Occurs(text, part, found))
    decreases index + 1
  {
    if index < 0 then -1
    else if Occurs(text, part, index) then index
    else LastTo(text, part, index - 1)
  }

  lemma {:induction false} FirstIs(text: string, part: string, index: nat, found: nat)
    requires index <= found && Occurs(text, part, found)
    requires forall i :: index <= i < found ==> !Occurs(text, part, i)
    ensures FirstFrom(text, part, index) == found
    decreases found - index
  {
    if index < found {
      FirstIs(text, part, index + 1, found);
    }
  }

  lemma {:induction false} LastIs(text: string, part: string, index: nat, found: nat)
    requires found <= index && Occurs(text, part, found)
    requires forall i :: found < i <= index ==> !Occurs(text, part, i)
    ensures LastTo(text, part, index) == found
    decreases index
  {
    if found < index {
      LastIs(text, part, index - 1, found);
    }
  }

  predicate IsRestoreSidecar(name: string) {
    var index := LastTo(name, MARKER, |name|);
    index >= 1 && SnapshotNumber(name[index + |MARKER|..])
  }

  predicate SnapshotNumber(remainder: string) {
    var snapshot := FirstFrom(remainder, SNAPSHOT, 0);
    snapshot >= 1 && NumberSuffix(remainder[snapshot + |SNAPSHOT|..])
  }

  predicate NumberSuffix(suffix: string) {
    suffix == "" ||
    (|suffix| > 1 && suffix[0] == '.' && forall i :: 1 <= i < |suffix| ==> '0' <= suffix[i] <= '9')
  }

  lemma SuffixNumber(index: nat)
    ensures NumberSuffix(Suffix(index))
  {
    DigitsValue(index);
    if index > 0 {
      assert Suffix(index)[1..] == Digits(index);
      assert forall i :: 1 <= i < |Suffix(index)| ==> Suffix(index)[i] == Digits(index)[i - 1];
    }
  }

  /** A part that starts with a dot can only occur where a dot is. */
  lemma NeedsDot(text: string, part: string, i: int)
    requires |part| > 1 && part[0] == '.' && Occurs(text, part, i)
    ensures text[i] == '.' && text[i + 1] == part[1]
  {
  }

  /** A marker cannot reach from one part of a name into the next. */
  lemma MarkerLast(front: string, tail: string, suffix: string)
    requires LastTo(tail, MARKER, |tail|) < 0 && NumberSuffix(suffix)
    ensures
      var text := front + MARKER + tail + SNAPSHOT + suffix;
      LastTo(text, MARKER, |text|) == |front|
  {
    var text := front + MARKER + tail + SNAPSHOT + suffix;
    var start := |front| + |MARKER|;
    assert text[|front|..start] == MARKER;
    assert text[start..start + |tail|] == tail;
    assert text[start + |tail| + |SNAPSHOT|..] == suffix;
    forall i | |front| < i <= |text|
      ensures !Occurs(text, MARKER, i)
    {
      if Occurs(text, MARKER, i) {
        NeedsDot(text, MARKER, i);
        DotsOf(front, tail, suffix, i);
        assert text[i..i + |MARKER|] == MARKER;
        Inside(text, MARKER, start, tail, i);
        NoneAfter(tail, MARKER, |tail|, i - start);
      }
    }
    LastIs(text, MARKER, |text|, |front|);
  }

  /** Behind the first marker only a dot of the tail can be followed by a 'u'. */
  lemma DotsOf(front: string, tail: string, suffix: string, i: int)
    requires NumberSuffix(suffix)
    requires
      var text := front + MARKER + tail + SNAPSHOT + suffix;
      |front| < i < |text| - 1 && text[i] == '.' && text[i + 1] == 'u'
    ensures |front| + |MARKER| <= i < |front| + |MARKER| + |tail|
  {
  }

  lemma OccursAt(text: string, part: string, i: int, k: int)
    requires Occurs(text, part, i) && 0 <= k < |part|
    ensures text[i + k] == part[k]
  {
    assert text[i..i + |part|][k] == part[k];
  }

  /** What begins with a dot and lies in part in a stretch of the text without reaching a
      later dot lies in it entirely. */
  lemma Inside(text: string, part: string, start: int, stretch: string, i: int)
    requires |part| > 1 && part[0] == '.' && forall k :: 0 < k < |part| ==> part[k] != '.'
    requires 0 <= start <= i < start + |stretch| < |text|
    requires text[start..start + |stretch|] == stretch && text[start + |stretch|] == '.'
    requires Occurs(text, part, i)
    ensures Occurs(stretch, part, i - start)
  {
    var end := start + |stretch|;
    if end < i + |part| {
      OccursAt(text, part, i, end - i);
      assert false;
    }
    assert text[start..end][i - start..i - start + |part|] == text[i..i + |part|];
  }

  lemma {:induction false} NoneAfter(text: string, part: string, index: int, i: int)
    requires LastTo(text, part, index) < 0 && 0 <= i <= index
    ensures !Occurs(text, part, i)
    decreases index
  {
    if i < index {
      NoneAfter(text, part, index - 1, i);
    }
  }

  lemma {:induction false} NoneBefore(text: string, part: string, index: nat, i: int)
    requires FirstFrom(text, part, index) < 0 && index <= i
    ensures !Occurs(text, part, i)
    decreases |text| - index
  {
    if index < i && index <= |text| - |part| {
      NoneBefore(text, part, index + 1, i);
    }
  }

  lemma SnapshotFirst(tail: string, suffix: string)
    requires FirstFrom(tail, SNAPSHOT, 0) < 0
    ensures FirstFrom(tail + SNAPSHOT + suffix, SNAPSHOT, 0) == |tail|
  {
    var text := tail + SNAPSHOT + suffix;
    assert text[|tail|..|tail| + |SNAPSHOT|] == SNAPSHOT;
    forall i | 0 <= i < |tail|
      ensures !Occurs(text, SNAPSHOT, i)
    {
      if Occurs(text, SNAPSHOT, i) {
        assert text[0..|tail|] == tail;
        NeedsDot(text, SNAPSHOT, i);
        Inside(text, SNAPSHOT, 0, tail, i);
        NoneBefore(tail, SNAPSHOT, 0, i);
      }
    }
    FirstIs(text, SNAPSHOT, 0, |tail|);
  }

  /** The part of a short id behind the last marker in it. */
  function Tail(short: string): string {
    var index := LastTo(short, MARKER, |short|);
    if index < 0 then short else short[index + |MARKER|..]
  }

  /** What comes before the last marker. */
  function Front(name: string, short: string): string {
    var index := LastTo(short, MARKER, |short|);
    if index < 0 then name else name + MARKER + short[..index]
  }

  lemma Joined(name: string, part: string, text: string, index: nat)
    requires index + |part| <= |text| && text[index..index + |part|] == part
    ensures name + part + text == name + part + text[..index] + part + text[index + |part|..]
  {
    assert text == text[..index] + part + text[index + |part|..];
  }

  lemma LastSplit(name: string, short: string)
    ensures name + MARKER + short == Front(name, short) + MARKER + Tail(short)
    ensures Front(name, short) != "" <==> name != "" || LastTo(short, MARKER, |short|) >= 0
  {
    hide LastTo;
    var index := LastTo(short, MARKER, |short|);
    if index >= 0 {
      assert short[index..index + |MARKER|] == MARKER;
      Joined(name, MARKER, short, index);
    }
  }

  /** A name with a short id whose tail has neither marker nor snapshot word splits there. */
  predicate Telling(name: string, short: string) {
    && (name != "" || LastTo(short, MARKER, |short|) >= 0)
    && Tail(short) != "" && FirstFrom(Tail(short), SNAPSHOT, 0) < 0
  }

  lemma {:induction false} LastLast(text: string, part: string, index: int, i: int)
    requires LastTo(text, part, index) < i <= index
    ensures !Occurs(text, part, i)
    decreases index
  {
    if i < index {
      LastLast(text, part, index - 1, i);
    }
  }

  lemma TailUnmarked(short: string)
    ensures LastTo(Tail(short), MARKER, |Tail(short)|) < 0
  {
    var index, tail := LastTo(short, MARKER, |short|), Tail(short);
    if index >= 0 {
      var found := LastTo(tail, MARKER, |tail|);
      if found >= 0 {
        var there := index + |MARKER| + found;
        assert short[there..there + |MARKER|] == tail[found..found + |MARKER|];
        LastLast(short, MARKER, |short|, there);
      }
    }
  }

  /** A copy written beside a conflict is recognised as one later if and only if what
      follows the last marker in its short id is neither empty nor holds the snapshot word. */
  lemma RecognisedExactly(name: string, id: string, index: nat)
    ensures IsRestoreSidecar(SidecarName(name, id, index)) <==> Telling(name, ShortID(id))
  {
    var short := ShortID(id);
    LastSplit(name, short);
    SuffixNumber(index);
    TailUnmarked(short);
    hide FirstFrom, LastTo, Suffix, NumberSuffix, ShortID, Tail, Front;
    assert SidecarName(name, id, index)
        == Front(name, short) + MARKER + Tail(short) + SNAPSHOT + Suffix(index);
    PartsRecognised(Front(name, short), Tail(short), Suffix(index));
  }

  lemma PartsRecognised(front: string, tail: string, suffix: string)
    requires LastTo(tail, MARKER, |tail|) < 0 && NumberSuffix(suffix)
    ensures
      IsRestoreSidecar(front + MARKER + tail + SNAPSHOT + suffix) <==>
      front != "" && tail != "" && FirstFrom(tail, SNAPSHOT, 0) < 0
  {
    hide LastTo, NumberSuffix, SnapshotNumber, FirstFrom, Occurs;
    MarkerLast(front, tail, suffix);
    TailNumber(tail, suffix);
    Behind(front, MARKER, tail, SNAPSHOT, suffix);
  }

  lemma Behind(front: string, marker: string, tail: string, word: string, suffix: string)
    ensures (front + marker + tail + word + suffix)[|front| + |marker|..] == tail + word + suffix
    ensures (tail + word + suffix)[|tail| + |word|..] == suffix
  {
    assert front + marker + tail + word + suffix == (front + marker) + (tail + word + suffix);
  }

  lemma TailNumber(tail: string, suffix: string)
    requires NumberSuffix(suffix)
    ensures SnapshotNumber(tail + SNAPSHOT + suffix) <==> tail != "" && FirstFrom(tail, SNAPSHOT, 0) < 0
  {
    if FirstFrom(tail, SNAPSHOT, 0) < 0 {
      SnapshotFirst(tail, suffix);
      Behind("", "", tail, SNAPSHOT, suffix);
    } else {
      EarlySnapshot(tail, suffix);
    }
    hide FirstFrom, NumberSuffix;
  }

  /** If the tail holds the snapshot word, what follows it is not a number. */
  lemma EarlySnapshot(tail: string, suffix: string)
    requires FirstFrom(tail, SNAPSHOT, 0) >= 0
    ensures
      var remainder := tail + SNAPSHOT + suffix;
      var found := FirstFrom(remainder, SNAPSHOT, 0);
      found >= 0 && !NumberSuffix(remainder[found + |SNAPSHOT|..])
  {
    var remainder, inside := tail + SNAPSHOT + suffix, FirstFrom(tail, SNAPSHOT, 0);
    assert remainder[inside..inside + |SNAPSHOT|] == tail[inside..inside + |SNAPSHOT|];
    FoundBy(remainder, SNAPSHOT, 0, inside);
    var found := FirstFrom(remainder, SNAPSHOT, 0);
    var rest := remainder[found + |SNAPSHOT|..];
    var k := |tail| - found - |SNAPSHOT|;
    assert rest[k + 1] == SNAPSHOT[1];
  }

  lemma {:induction false} FoundBy(text: string, part: string, index: nat, there: nat)
    requires index <= there && Occurs(text, part, there)
    ensures 0 <= FirstFrom(text, part, index) <= there
    decreases there - index
  {
    if index < there {
      FoundBy(text, part, index + 1, there);
    }
  }

  /** The ids sessions are given: the time in UTC to the nanosecond and a random number. */
  predicate SessionID(id: string) {
    && |id| == 39 && id[8] == 'T' && id[15] == '.' && id[25] == 'Z' && id[26] == '-'
    && forall i :: 0 <= i < 25 && i != 8 && i != 15 ==> '0' <= id[i] <= '9'
  }

  /** Every copy of every session is recognised as one. */
  lemma SidecarsRecognised(name: string, id: string, index: nat)
    requires name != "" && SessionID(id)
    ensures IsRestoreSidecar(SidecarName(name, id, index))
  {
    var short := ShortID(id);
    forall i
      ensures !Occurs(short, MARKER, i) && !Occurs(short, SNAPSHOT, i)
    {
      if Occurs(short, MARKER, i) {
        NeedsDot(short, MARKER, i);
      } else if Occurs(short, SNAPSHOT, i) {
        NeedsDot(short, SNAPSHOT, i);
      }
    }
    RecognisedExactly(name, id, index);
  }

  /** With such an id, the search beside a name of 219 bytes or more never ends. */
  lemma SessionNames(nodes: Tree, path: Path, id: string, rounds: nat)
    requires path != [] && SessionID(id)
    ensures |path[|path| - 1]| >= 219 <==> |SidecarName(path[|path| - 1], id, 0)| > NAME_MAX
    ensures |path[|path| - 1]| >= 219 ==> Search(nodes, path, id, rounds).None?
  {
    LongNamesHang(nodes, path, id, rounds);
    hide Lookup, Candidate;
  }
}
