/**
 Resolving a path inside a mounted volume snapshot without ever leaving it: links
 are followed by hand, absolute ones start again at the snapshot's root, and at
 most 255 of them are followed.
 */
module Resolver {
  import opened FileTrees

  const MAXIMUM_LINKS := 255

  /* Path texts. */

  /** The parts between slashes; there is always at least one. */
  function Split(text: string): (parts: seq<string>)
    ensures |parts| > 0 && forall i :: 0 <= i < |parts| ==> '/' !in parts[i]
  {
    if text == "" then [""]
    else
      var rest := Split(text[1..]);
      if text[0] == '/' then [""] + rest else [[text[0]] + rest[0]] + rest[1..]
  }

  function PathComponents(text: string): (parts: seq<string>)
    ensures forall i :: 0 <= i < |parts| ==> '/' !in parts[i]
  {
    if text == "." || text == "" then [] else Split(text)
  }

  predicate IsAbsolute(text: string) {
    text != "" && text[0] == '/'
  }

  /** An absolute path without "", "." and ".."; above the root is the root. */
  function Clean(parts: seq<string>): (path: Path)
    ensures forall i :: 0 <= i < |path| ==> path[i] in parts
  {
    if parts == [] then []
    else
      var earlier, last := Clean(parts[..|parts| - 1]), parts[|parts| - 1];
      if last == "" || last == "." then earlier
      else if last == ".." then (if earlier == [] then [] else earlier[..|earlier| - 1])
      else earlier + [last]
  }

  /** Where an absolute target lies below the snapshot's root: the volume's own mount
      point is dropped, any other path is taken from the root. */
  function Reroot(mount: Path, text: string): (path: Path)
    ensures forall i :: 0 <= i < |path| ==> '/' !in path[i]
  {
    var original := Clean(Split(text));
    if Within(original, mount) then original[|mount|..] else original
  }

  /* What a path means. */

  datatype Resolution = Found(path: Path, links: nat) | Escaped | Missing(path: Path) | TooManyLinks

  /** Walks `parts` from the directory `base`. A link is walked to its end before the
      walk goes on behind it; `links` says how many may still be followed. With
      `keepLast` a link in the very last place is not followed. */
  function Walk(tree: Tree, mount: Path, base: Path, parts: seq<string>, links: nat, keepLast: bool): (r: Resolution)
    ensures r.Found? ==> r.links <= links
    decreases links, |parts|
  {
    if parts == [] then Found(base, links)
    else
      var name, rest := parts[0], parts[1..];
      if name == "" || name == "." then Walk(tree, mount, base, rest, links, keepLast)
      else if name == ".." then
        if base == [] then Escaped else Walk(tree, mount, Parent(base), rest, links, keepLast)
      else
        var candidate := base + [name];
        if candidate !in tree then Missing(candidate)
        else if !tree[candidate].kind.Symlink? || (rest == [] && keepLast) then
          Walk(tree, mount, candidate, rest, links, keepLast)
        else if links == 0 then TooManyLinks
        else
          var target := tree[candidate].content;
          var end := Walk(tree, mount, Start(base, target), Target(mount, target), links - 1, false);
          if end.Found? then Walk(tree, mount, end.path, rest, end.links, keepLast) else end
  }

  function Start(base: Path, target: string): Path {
    if IsAbsolute(target) then [] else base
  }

  function Target(mount: Path, target: string): (parts: seq<string>)
    ensures forall i :: 0 <= i < |parts| ==> '/' !in parts[i]
  {
    if IsAbsolute(target) then Reroot(mount, target) else PathComponents(target)
  }

  /** Walking two lists one after the other is walking their concatenation. */
  lemma {:induction false} WalkOn(
    tree: Tree, mount: Path, base: Path, first: seq<string>, second: seq<string>, links: nat, keepLast: bool)
    requires second == [] ==> !keepLast
    ensures
      var end := Walk(tree, mount, base, first, links, false);
      Walk(tree, mount, base, first + second, links, keepLast)
      == if end.Found? then Walk(tree, mount, end.path, second, end.links, keepLast) else end
    decreases links, |first|
  {
    if first == [] {
      assert first + second == second;
    } else {
      var name, rest := first[0], first[1..];
      assert (first + second)[0] == name && (first + second)[1..] == rest + second;
      if name == "" || name == "." {
        WalkOn(tree, mount, base, rest, second, links, keepLast);
      } else if name == ".." {
        if base != [] {
          WalkOn(tree, mount, Parent(base), rest, second, links, keepLast);
        }
      } else {
        var candidate := base + [name];
        if candidate in tree && !tree[candidate].kind.Symlink? {
          WalkOn(tree, mount, candidate, rest, second, links, keepLast);
        } else if candidate in tree && links > 0 {
          var target := tree[candidate].content;
          var end := Walk(tree, mount, Start(base, target), Target(mount, target), links - 1, false);
          if end.Found? {
            WalkOn(tree, mount, end.path, rest, second, end.links, keepLast);
          }
        }
      }
    }
  }

  /** A link can be replaced, where it stands, by the parts of its target. */
  lemma FollowInPlace(
    tree: Tree, mount: Path, base: Path, parts: seq<string>, links: nat, keepLast: bool)
    requires parts != [] && parts[0] != "" && parts[0] != "." && parts[0] != ".." && links > 0
    requires base + [parts[0]] in tree && tree[base + [parts[0]]].kind.Symlink?
    requires !(parts[1..] == [] && keepLast)
    ensures
      var target := tree[base + [parts[0]]].content;
      Walk(tree, mount, base, parts, links, keepLast)
      == Walk(tree, mount, Start(base, target), Target(mount, target) + parts[1..], links - 1, keepLast)
  {
    var target := tree[base + [parts[0]]].content;
    WalkOn(tree, mount, Start(base, target), Target(mount, target), parts[1..], links - 1, keepLast);
  }

  /* Where a walk can end. */

  predicate ProperName(name: string) {
    name != "" && name != "." && name != ".." && '/' !in name
  }

  /** Below the root, through real directories only. */
  ghost predicate Solid(tree: Tree, path: Path) {
    && (forall i :: 0 <= i < |path| ==> ProperName(path[i]))
    && forall length :: 0 < length <= |path| ==> path[..length] in tree && !tree[path[..length]].kind.Symlink?
  }

  lemma SolidParent(tree: Tree, path: Path)
    requires Solid(tree, path) && path != []
    ensures Solid(tree, Parent(path))
  {
    assert forall length :: 0 < length <= |path| - 1 ==> Parent(path)[..length] == path[..length];
  }

  lemma SolidChild(tree: Tree, path: Path, name: string)
    requires Solid(tree, path) && ProperName(name)
    requires path + [name] in tree && !tree[path + [name]].kind.Symlink?
    ensures Solid(tree, path + [name])
  {
    var child := path + [name];
    assert forall length :: 0 < length <= |path| ==> child[..length] == path[..length];
    assert child[..|child|] == child;
  }

  /** The answer lies under the root, exists, and everything above it is no link; with
      links followed to the end it is no link itself. */
  lemma {:induction false} WalkSolid(
    tree: Tree, mount: Path, base: Path, parts: seq<string>, links: nat, keepLast: bool)
    requires Solid(tree, base)
    requires forall i :: 0 <= i < |parts| ==> '/' !in parts[i]
    ensures
      var r := Walk(tree, mount, base, parts, links, keepLast);
      r.Found? && !Solid(tree, r.path) ==>
        keepLast && r.path != [] && Solid(tree, Parent(r.path)) && ProperName(r.path[|r.path| - 1]) &&
        r.path in tree && tree[r.path].kind.Symlink?
    decreases links, |parts|
  {
    if parts != [] {
      var name, rest := parts[0], parts[1..];
      if name == "" || name == "." {
        WalkSolid(tree, mount, base, rest, links, keepLast);
      } else if name == ".." {
        if base != [] {
          SolidParent(tree, base);
          WalkSolid(tree, mount, Parent(base), rest, links, keepLast);
        }
      } else {
        var candidate := base + [name];
        if candidate in tree && !tree[candidate].kind.Symlink? {
          SolidChild(tree, base, name);
          WalkSolid(tree, mount, candidate, rest, links, keepLast);
        } else if candidate in tree && rest == [] && keepLast {
          assert Parent(candidate) == base;
        } else if candidate in tree && links > 0 {
          FollowSolid(tree, mount, base, tree[candidate].content, rest, links, keepLast);
        }
      }
    }
  }

  lemma FollowSolid(
    tree: Tree, mount: Path, base: Path, target: string, rest: seq<string>, links: nat, keepLast: bool)
    requires Solid(tree, base) && links > 0
    requires forall i :: 0 <= i < |rest| ==> '/' !in rest[i]
    ensures
      var end := Walk(tree, mount, Start(base, target), Target(mount, target), links - 1, false);
      end.Found? ==>
        var r := Walk(tree, mount, end.path, rest, end.links, keepLast);
        r.Found? && !Solid(tree, r.path) ==>
          keepLast && r.path != [] && Solid(tree, Parent(r.path)) && ProperName(r.path[|r.path| - 1]) &&
          r.path in tree && tree[r.path].kind.Symlink?
    decreases links, 0
  {
    WalkSolid(tree, mount, Start(base, target), Target(mount, target), links - 1, false);
    var end := Walk(tree, mount, Start(base, target), Target(mount, target), links - 1, false);
    if end.Found? {
      WalkSolid(tree, mount, end.path, rest, end.links, keepLast);
    }
  }

  /* The same as rewriting whole paths. */

  predicate IsName(name: string) {
    name != "" && name != "." && name != ".."
  }

  /** The path exists, and neither it nor anything above it is a link. */
  ghost predicate Standing(tree: Tree, path: seq<string>) {
    && (forall i :: 0 <= i < |path| ==> IsName(path[i]))
    && forall length :: 0 < length <= |path| ==> path[..length] in tree && !tree[path[..length]].kind.Symlink?
  }

  function Joined(parts: seq<string>): string {
    if parts == [] then "" else if |parts| == 1 then parts[0] else parts[0] + "/" + Joined(parts[1..])
  }

  /** The components of which a text consists. */
  ghost predicate Spells(parts: seq<string>, text: string) {
    parts != [] && (forall i :: 0 <= i < |parts| ==> '/' !in parts[i]) && Joined(parts) == text
  }

  /** What a link in directory `base`, with `rest` behind it, is replaced by: its text
      relative to the directory, or, if that is absolute, the cleaned path, taken from the
      mount point if it lies inside and else from the root. */
  ghost predicate Means(mount: Path, base: Path, text: string, rest: seq<string>, next: seq<string>) {
    exists parts :: Spells(parts, text) &&
      if !IsAbsolute(text) then next == base + parts + rest
      else if mount <= Clean(parts) then mount + next == Clean(parts) + rest
      else next == Clean(parts) + rest
  }

  ghost predicate NameAt(tree: Tree, path: seq<string>, at: nat) {
    at < |path| && Standing(tree, path[..at]) && IsName(path[at])
  }

  /** A link stands here that has to be followed. */
  ghost predicate LinkAt(tree: Tree, path: seq<string>, at: nat, keepLast: bool) {
    && NameAt(tree, path, at) && path[..at + 1] in tree && tree[path[..at + 1]].kind.Symlink?
    && !(keepLast && at == |path| - 1)
  }

  /** One step, where the path stops standing: "" and "." go away, ".." takes the
      directory before it along, and a link is replaced by what it means. */
  ghost predicate Rewrites(
    tree: Tree, mount: Path, keepLast: bool, path: seq<string>, next: seq<string>, at: nat, follows: bool)
  {
    at < |path| && Standing(tree, path[..at]) &&
    if path[at] == "" || path[at] == "." then !follows && next == path[..at] + path[at + 1..]
    else if path[at] == ".." then !follows && at > 0 && next == path[..at - 1] + path[at + 1..]
    else
      && follows && LinkAt(tree, path, at, keepLast)
      && Means(mount, path[..at], tree[path[..at + 1]].content, path[at + 1..], next)
  }

  /** In so many steps, with `left` of the `links` that may be followed still to follow. */
  ghost predicate Reaches(
    tree: Tree, mount: Path, keepLast: bool, path: seq<string>, last: seq<string>, links: nat, left: nat, steps: nat)
    decreases steps
  {
    if steps == 0 then path == last && left == links
    else
      exists next, at, follows ::
        Rewrites(tree, mount, keepLast, path, next, at, follows) && (follows ==> links > 0) &&
        Reaches(tree, mount, keepLast, next, last, if follows then links - 1 else links, left, steps - 1)
  }

  /** No step is possible any more, and this is why. */
  ghost predicate Stops(tree: Tree, keepLast: bool, path: seq<string>, left: nat, r: Resolution) {
    match r
    case Found(found, links) =>
      && found == path && links == left
      && (Standing(tree, path) ||
          (keepLast && path != [] && NameAt(tree, path, |path| - 1) && path in tree && tree[path].kind.Symlink?))
    case Escaped => path != [] && path[0] == ".."
    case Missing(missing) => exists at :: NameAt(tree, path, at) && missing == path[..at + 1] && missing !in tree
    case TooManyLinks => left == 0 && exists at :: LinkAt(tree, path, at, keepLast)
  }

  ghost predicate Ends(tree: Tree, mount: Path, parts: seq<string>, keepLast: bool, r: Resolution) {
    exists last, left, steps ::
      Reaches(tree, mount, keepLast, parts, last, MAXIMUM_LINKS, left, steps) && Stops(tree, keepLast, last, left, r)
  }

  ghost predicate ResolvesTo(tree: Tree, mount: Path, parts: seq<string>, followFinal: bool, r: Resolution) {
    Ends(tree, mount, parts, !followFinal, r)
  }

  /* Texts. */

  lemma {:induction false} SplitSpells(text: string)
    ensures Spells(Split(text), text)
  {
    if text != "" {
      SplitSpells(text[1..]);
      var rest := Split(text[1..]);
      if text[0] == '/' {
        assert ([""] + rest)[1..] == rest;
      } else {
        assert ([[text[0]] + rest[0]] + rest[1..])[1..] == rest[1..];
      }
    }
  }

  lemma {:induction false} SpellsOnce(parts: seq<string>, text: string)
    requires Spells(parts, text)
    ensures parts == Split(text)
    decreases text
  {
    if text == "" {
      if |parts| > 1 {
        assert false;
      }
    } else if parts[0] == "" {
      assert |parts| > 1;
      SpellsOnce(parts[1..], text[1..]);
    } else {
      var shorter := [parts[0][1..]] + parts[1..];
      assert shorter[1..] == parts[1..];
      assert text[0] == parts[0][0] && parts[0][0] in parts[0];
      forall i | 0 <= i < |shorter|
        ensures '/' !in shorter[i]
      {
        assert i > 0 ==> shorter[i] == parts[i];
      }
      assert Joined(shorter) == text[1..];
      SpellsOnce(shorter, text[1..]);
      assert parts[0] == [text[0]] + parts[0][1..] && parts == [parts[0]] + parts[1..];
    }
  }

  /** The laws of cleaning, which determine it: names stay, "" and "." go away, ".." takes
      the name before it along, and at the root it does nothing. */
  lemma CleanLaws(first: seq<string>, name: string, second: seq<string>)
    ensures (forall i :: 0 <= i < |first| ==> IsName(first[i])) ==> Clean(first) == first
    ensures Clean(first + [""] + second) == Clean(first + second)
    ensures Clean(first + ["."] + second) == Clean(first + second)
    ensures IsName(name) ==> Clean(first + [name] + [".."] + second) == Clean(first + second)
    ensures Clean([".."] + second) == Clean(second)
    ensures forall i :: 0 <= i < |Clean(first)| ==> IsName(Clean(first)[i])
  {
    CleanNames(first);
    CleanMore(first, "");
    CleanMore(first, ".");
    CleanMore(first, name);
    CleanMore(first + [name], "..");
    CleanMore([], "..");
    hide Clean;
    CleanOn(first + [""], first, second);
    CleanOn(first + ["."], first, second);
    if IsName(name) {
      assert (Clean(first) + [name])[..|Clean(first)|] == Clean(first);
      CleanOn(first + [name] + [".."], first, second);
    }
    assert [] + [".."] == [".."] && [] + second == second;
    CleanOn([".."], [], second);
  }

  lemma CleanMore(parts: seq<string>, last: string)
    ensures
      Clean(parts + [last]) ==
      if last == "" || last == "." then Clean(parts)
      else if last == ".." then (if Clean(parts) == [] then [] else Clean(parts)[..|Clean(parts)| - 1])
      else Clean(parts) + [last]
    ensures Clean([]) == []
  {
    assert (parts + [last])[..|parts|] == parts;
  }

  lemma {:induction false} CleanNames(parts: seq<string>)
    ensures (forall i :: 0 <= i < |parts| ==> IsName(parts[i])) ==> Clean(parts) == parts
    ensures forall i :: 0 <= i < |Clean(parts)| ==> IsName(Clean(parts)[i])
  {
    if parts != [] {
      CleanNames(parts[..|parts| - 1]);
      assert parts == parts[..|parts| - 1] + [parts[|parts| - 1]];
    }
  }

  /** What is cleaned alike stays alike with more behind it. */
  lemma {:induction false} CleanOn(one: seq<string>, other: seq<string>, more: seq<string>)
    requires Clean(one) == Clean(other)
    ensures Clean(one + more) == Clean(other + more)
  {
    if more == [] {
      assert one + more == one && other + more == other;
    } else {
      var last := |more| - 1;
      CleanOn(one, other, more[..last]);
      assert (one + more)[..|one + more| - 1] == one + more[..last];
      assert (other + more)[..|other + more| - 1] == other + more[..last];
    }
  }

  /* Rewriting keeps where a walk ends. */

  lemma StandingUp(tree: Tree, path: seq<string>)
    requires Standing(tree, path) && path != []
    ensures Standing(tree, path[..|path| - 1])
  {
    var up := path[..|path| - 1];
    forall length | 0 < length <= |up|
      ensures up[..length] in tree && !tree[up[..length]].kind.Symlink?
    {
      assert up[..length] == path[..length];
    }
  }

  lemma StandingOn(tree: Tree, path: seq<string>, name: string)
    requires Standing(tree, path) && IsName(name)
    requires path + [name] in tree && !tree[path + [name]].kind.Symlink?
    ensures Standing(tree, path + [name])
  {
    var longer := path + [name];
    assert forall length :: 0 < length <= |path| ==> longer[..length] == path[..length];
    assert longer[..|longer|] == longer;
  }

  /** What stands is walked. */
  lemma {:induction false} WalkStanding(
    tree: Tree, mount: Path, path: seq<string>, rest: seq<string>, links: nat, keepLast: bool)
    requires Standing(tree, path)
    ensures Walk(tree, mount, [], path + rest, links, keepLast) == Walk(tree, mount, path, rest, links, keepLast)
  {
    if path == [] {
      assert path + rest == rest;
    } else {
      StandingUp(tree, path);
      var above, name := path[..|path| - 1], path[|path| - 1];
      WalkStanding(tree, mount, above, [name] + rest, links, keepLast);
      assert above + ([name] + rest) == path + rest && ([name] + rest)[1..] == rest && above + [name] == path;
      assert path[..|path|] == path;
    }
  }

  lemma WalkSpelled(
    tree: Tree, mount: Path, base: Path, text: string, rest: seq<string>, links: nat, keepLast: bool)
    ensures
      Walk(tree, mount, base, PathComponents(text) + rest, links, keepLast)
      == Walk(tree, mount, base, Split(text) + rest, links, keepLast)
  {
    if text == "" || text == "." {
      SplitSpells(text);
      assert Split(text) == [text] by {
        SpellsOnce([text], text);
      }
      assert ([text] + rest)[1..] == rest && [] + rest == rest;
    }
  }

  lemma RewriteKeeps(
    tree: Tree, mount: Path, keepLast: bool, path: seq<string>, next: seq<string>, at: nat, follows: bool, links: nat)
    requires Rewrites(tree, mount, keepLast, path, next, at, follows) && (follows ==> links > 0)
    ensures
      Walk(tree, mount, [], path, links, keepLast)
      == Walk(tree, mount, [], next, if follows then links - 1 else links, keepLast)
  {
    hide Means, Target, Start;
    var base, name, rest := path[..at], path[at], path[at + 1..];
    WalkStanding(tree, mount, base, [name] + rest, links, keepLast);
    assert base + ([name] + rest) == path && ([name] + rest)[1..] == rest;
    if name == "" || name == "." {
      WalkStanding(tree, mount, base, rest, links, keepLast);
    } else if name == ".." {
      StandingUp(tree, base);
      WalkStanding(tree, mount, Parent(base), rest, links, keepLast);
      assert Parent(base) == path[..at - 1];
    } else {
      assert path[..at + 1] == base + [name];
      FollowInPlace(tree, mount, base, [name] + rest, links, keepLast);
      MeansWalk(tree, mount, base, tree[base + [name]].content, rest, next, links - 1, keepLast);
    }
  }

  lemma MeansWalk(
    tree: Tree, mount: Path, base: Path, text: string, rest: seq<string>, next: seq<string>,
    links: nat, keepLast: bool)
    requires Standing(tree, base) && Means(mount, base, text, rest, next)
    ensures
      Walk(tree, mount, Start(base, text), Target(mount, text) + rest, links, keepLast)
      == Walk(tree, mount, [], next, links, keepLast)
  {
    var parts :| Spells(parts, text) &&
      if !IsAbsolute(text) then next == base + parts + rest
      else if mount <= Clean(parts) then mount + next == Clean(parts) + rest
      else next == Clean(parts) + rest;
    SpellsOnce(parts, text);
    if IsAbsolute(text) {
      RerootMeans(mount, text, rest, next);
    } else {
      WalkStanding(tree, mount, base, parts + rest, links, keepLast);
      assert base + (parts + rest) == next;
      WalkSpelled(tree, mount, base, text, rest, links, keepLast);
    }
  }

  lemma RerootMeans(mount: Path, text: string, rest: seq<string>, next: seq<string>)
    ensures
      var original := Clean(Split(text));
      (if mount <= original then mount + next == original + rest else next == original + rest)
      <==> next == Reroot(mount, text) + rest
  {
    var original := Clean(Split(text));
    hide Clean, Split;
    assert mount <= original <==> Within(original, mount);
    if mount <= original {
      assert original == mount + original[|mount|..];
      assert original + rest == mount + (original[|mount|..] + rest);
      if mount + next == original + rest {
        assert next == (mount + next)[|mount|..];
        assert (mount + (original[|mount|..] + rest))[|mount|..] == original[|mount|..] + rest;
      }
    }
  }

  lemma {:induction false} ReachesKeeps(
    tree: Tree, mount: Path, keepLast: bool, path: seq<string>, last: seq<string>, links: nat, left: nat, steps: nat)
    requires Reaches(tree, mount, keepLast, path, last, links, left, steps)
    ensures Walk(tree, mount, [], path, links, keepLast) == Walk(tree, mount, [], last, left, keepLast)
    decreases steps
  {
    hide Walk, Rewrites;
    if steps > 0 {
      var next, at, follows :|
        Rewrites(tree, mount, keepLast, path, next, at, follows) && (follows ==> links > 0) &&
        Reaches(tree, mount, keepLast, next, last, if follows then links - 1 else links, left, steps - 1);
      RewriteKeeps(tree, mount, keepLast, path, next, at, follows, links);
      ReachesKeeps(tree, mount, keepLast, next, last, if follows then links - 1 else links, left, steps - 1);
    }
  }

  lemma WalkAt(tree: Tree, mount: Path, path: seq<string>, at: nat, links: nat, keepLast: bool)
    requires at < |path| && Standing(tree, path[..at])
    ensures
      Walk(tree, mount, [], path, links, keepLast)
      == Walk(tree, mount, path[..at], [path[at]] + path[at + 1..], links, keepLast)
    ensures path[..at + 1] == path[..at] + [path[at]]
  {
    WalkStanding(tree, mount, path[..at], [path[at]] + path[at + 1..], links, keepLast);
    assert path[..at] + ([path[at]] + path[at + 1..]) == path;
  }

  lemma StopsThere(tree: Tree, mount: Path, keepLast: bool, path: seq<string>, left: nat, r: Resolution)
    requires Stops(tree, keepLast, path, left, r)
    ensures Walk(tree, mount, [], path, left, keepLast) == r
  {
    match r
    case Found(_, _) =>
      if Standing(tree, path) {
        WalkStanding(tree, mount, path, [], left, keepLast);
        assert path + [] == path;
      } else {
        WalkAt(tree, mount, path, |path| - 1, left, keepLast);
        assert path[..|path|] == path;
      }
    case Escaped =>
    case Missing(missing) =>
      var at :| NameAt(tree, path, at) && missing == path[..at + 1] && missing !in tree;
      WalkAt(tree, mount, path, at, left, keepLast);
    case TooManyLinks =>
      var at :| LinkAt(tree, path, at, keepLast);
      WalkAt(tree, mount, path, at, left, keepLast);
  }

  /* A walk is such a rewriting. */

  lemma MeansTarget(mount: Path, base: Path, text: string, rest: seq<string>)
    ensures Means(mount, base, text, rest, (if IsAbsolute(text) then Reroot(mount, text) else base + Split(text)) + rest)
  {
    SplitSpells(text);
    if IsAbsolute(text) {
      RerootMeans(mount, text, rest, Reroot(mount, text) + rest);
    }
  }

  lemma First(
    tree: Tree, mount: Path, keepLast: bool, path: seq<string>, next: seq<string>, at: nat, follows: bool,
    last: seq<string>, links: nat, left: nat, steps: nat)
    requires Rewrites(tree, mount, keepLast, path, next, at, follows) && (follows ==> links > 0)
    requires Reaches(tree, mount, keepLast, next, last, if follows then links - 1 else links, left, steps)
    ensures Reaches(tree, mount, keepLast, path, last, links, left, steps + 1)
  {
    hide Rewrites;
  }

  lemma Here(tree: Tree, mount: Path, keepLast: bool, path: seq<string>, links: nat)
    ensures Reaches(tree, mount, keepLast, path, path, links, links, 0)
  {
  }

  /** The steps, at the place where what stands ends. */
  lemma RewritesAt(
    tree: Tree, mount: Path, keepLast: bool, base: Path, name: string, rest: seq<string>, next: seq<string>)
    requires Standing(tree, base)
    ensures
      var path := base + ([name] + rest);
      && ((name == "" || name == ".") && next == base + rest ==>
            Rewrites(tree, mount, keepLast, path, next, |base|, false))
      && (name == ".." && base != [] && next == Parent(base) + rest ==>
            Rewrites(tree, mount, keepLast, path, next, |base|, false))
      && (name == ".." && base == [] ==> path[0] == "..")
      && (IsName(name) ==> NameAt(tree, path, |base|) && path[..|base| + 1] == base + [name])
      && (LinkAt(tree, path, |base|, keepLast) && Means(mount, base, tree[base + [name]].content, rest, next) ==>
            Rewrites(tree, mount, keepLast, path, next, |base|, true))
  {
    hide Means;
    var path, at := base + ([name] + rest), |base|;
    assert path[..at] == base && path[at] == name && path[at + 1..] == rest && path[..at + 1] == base + [name];
    if base != [] {
      assert path[..at - 1] == Parent(base);
    }
  }

  /** Walking on from what stands rewrites the whole path to the same end. */
  lemma {:induction false} WalkRewrites(
    tree: Tree, mount: Path, base: Path, parts: seq<string>, links: nat, keepLast: bool)
    returns (last: seq<string>, left: nat, steps: nat)
    requires Standing(tree, base)
    ensures Reaches(tree, mount, keepLast, base + parts, last, links, left, steps)
    ensures Stops(tree, keepLast, last, left, Walk(tree, mount, base, parts, links, keepLast))
    decreases links, |parts|, 1
  {
    hide Means, Reaches, Rewrites, Standing, NameAt, LinkAt;
    if parts == [] {
      assert base + parts == base;
      Here(tree, mount, keepLast, base, links);
      return base, links, 0;
    }
    var name, rest := parts[0], parts[1..];
    assert [name] + rest == parts;
    if IsName(name) {
      last, left, steps := NameRewrites(tree, mount, base, name, rest, links, keepLast);
    } else if name == ".." && base == [] {
      RewritesAt(tree, mount, keepLast, base, name, rest, []);
      Here(tree, mount, keepLast, base + parts, links);
      return base + parts, links, 0;
    } else {
      var next := if name == ".." then Parent(base) else base;
      if name == ".." {
        StandingUp(tree, base);
      }
      RewritesAt(tree, mount, keepLast, base, name, rest, next + rest);
      last, left, steps := WalkRewrites(tree, mount, next, rest, links, keepLast);
      First(tree, mount, keepLast, base + parts, next + rest, |base|, false, last, links, left, steps);
      steps := steps + 1;
    }
  }

  lemma NameRewrites(
    tree: Tree, mount: Path, base: Path, name: string, rest: seq<string>, links: nat, keepLast: bool)
    returns (last: seq<string>, left: nat, steps: nat)
    requires Standing(tree, base) && IsName(name)
    ensures Reaches(tree, mount, keepLast, base + ([name] + rest), last, links, left, steps)
    ensures Stops(tree, keepLast, last, left, Walk(tree, mount, base, [name] + rest, links, keepLast))
    decreases links, |rest| + 1, 0
  {
    hide Means, Reaches, Rewrites, Standing;
    var path, candidate := base + ([name] + rest), base + [name];
    RewritesAt(tree, mount, keepLast, base, name, rest, []);
    assert ([name] + rest)[0] == name && ([name] + rest)[1..] == rest;
    if candidate in tree && !tree[candidate].kind.Symlink? {
      StandingOn(tree, base, name);
      assert path == candidate + rest;
      last, left, steps := WalkRewrites(tree, mount, candidate, rest, links, keepLast);
    } else if LinkAt(tree, path, |base|, keepLast) && links > 0 {
      last, left, steps := LinkRewrites(tree, mount, base, name, rest, links, keepLast);
    } else {
      assert rest == [] ==> path == candidate;
      Here(tree, mount, keepLast, path, links);
      return path, links, 0;
    }
  }

  lemma LinkRewrites(
    tree: Tree, mount: Path, base: Path, name: string, rest: seq<string>, links: nat, keepLast: bool)
    returns (last: seq<string>, left: nat, steps: nat)
    requires Standing(tree, base) && IsName(name) && links > 0
    requires LinkAt(tree, base + ([name] + rest), |base|, keepLast)
    ensures Reaches(tree, mount, keepLast, base + ([name] + rest), last, links, left, steps)
    ensures Stops(tree, keepLast, last, left, Walk(tree, mount, base, [name] + rest, links, keepLast))
    decreases links, |rest|, 0
  {
    hide Means, Reaches, Rewrites, Standing, Walk, Stops, Split, Clean, PathComponents;
    var path := base + ([name] + rest);
    assert path[..|base| + 1] == base + [name] && ([name] + rest)[1..] == rest;
    var text := tree[base + [name]].content;
    FollowInPlace(tree, mount, base, [name] + rest, links, keepLast);
    MeansTarget(mount, base, text, rest);
    hide LinkAt;
    var next := (if IsAbsolute(text) then Reroot(mount, text) else base + Split(text)) + rest;
    RewritesAt(tree, mount, keepLast, base, name, rest, next);
    if IsAbsolute(text) {
      NothingStands(tree);
      last, left, steps := WalkRewrites(tree, mount, [], next, links - 1, keepLast);
      assert [] + next == next;
    } else {
      WalkSpelled(tree, mount, base, text, rest, links - 1, keepLast);
      last, left, steps := WalkRewrites(tree, mount, base, Split(text) + rest, links - 1, keepLast);
      assert base + (Split(text) + rest) == next;
    }
    First(tree, mount, keepLast, path, next, |base|, true, last, links, left, steps);
    steps := steps + 1;
  }

  lemma NothingStands(tree: Tree)
    ensures Standing(tree, [])
  {
  }

  /** A path resolves to a result if and only if it can be rewritten, step by step, to one
      that stops there. */
  lemma ResolvesExactly(tree: Tree, mount: Path, parts: seq<string>, followFinal: bool, r: Resolution)
    ensures
      ResolvesTo(tree, mount, parts, followFinal, r) <==>
      r == Walk(tree, mount, [], parts, MAXIMUM_LINKS, !followFinal)
  {
    hide Walk, Reaches, Stops;
    var keepLast := !followFinal;
    if Ends(tree, mount, parts, keepLast, r) {
      var last, left, steps :|
        Reaches(tree, mount, keepLast, parts, last, MAXIMUM_LINKS, left, steps) && Stops(tree, keepLast, last, left, r);
      ReachesKeeps(tree, mount, keepLast, parts, last, MAXIMUM_LINKS, left, steps);
      StopsThere(tree, mount, keepLast, last, left, r);
    }
    NothingStands(tree);
    var last, left, steps := WalkRewrites(tree, mount, [], parts, MAXIMUM_LINKS, keepLast);
    assert [] + parts == parts;
    assert Ends(tree, mount, parts, keepLast, Walk(tree, mount, [], parts, MAXIMUM_LINKS, keepLast));
  }

  /* The loop. */

  /** Follows links one component at a time, putting each target in front of what is
      still to be walked. */
  method ResolveMountedSnapshotPath(tree: Tree, mount: Path, parts: seq<string>, followFinal: bool)
    returns (r: Resolution)
    ensures r == Walk(tree, mount, [], parts, MAXIMUM_LINKS, !followFinal)
    ensures forall other :: ResolvesTo(tree, mount, parts, followFinal, other) <==> other == r
  {
    forall other
      ensures ResolvesTo(tree, mount, parts, followFinal, other) <==>
              other == Walk(tree, mount, [], parts, MAXIMUM_LINKS, !followFinal)
    {
      ResolvesExactly(tree, mount, parts, followFinal, other);
    }
    hide ResolvesTo;
    var pending, resolved: Path, count := parts, [], 0;
    while pending != []
      invariant 0 <= count <= MAXIMUM_LINKS
      invariant Walk(tree, mount, [], parts, MAXIMUM_LINKS, !followFinal)
             == Walk(tree, mount, resolved, pending, MAXIMUM_LINKS - count, !followFinal)
      decreases MAXIMUM_LINKS - count, |pending|
    {
      ghost var before := pending;
      var name := pending[0];
      pending := pending[1..];
      if name == "" || name == "." {
        continue;
      }
      if name == ".." {
        if resolved == [] {
          return Escaped;
        }
        resolved := resolved[..|resolved| - 1];
        continue;
      }
      var candidate := resolved + [name];
      if candidate !in tree {
        return Missing(candidate);
      }
      var final := pending == [];
      if !tree[candidate].kind.Symlink? || (final && !followFinal) {
        resolved := candidate;
        continue;
      }
      if count + 1 > MAXIMUM_LINKS {
        return TooManyLinks;
      }
      FollowInPlace(tree, mount, resolved, before, MAXIMUM_LINKS - count, !followFinal);
      count := count + 1;
      var target := tree[candidate].content;
      if IsAbsolute(target) {
        resolved := [];
        pending := Reroot(mount, target) + pending;
      } else {
        pending := PathComponents(target) + pending;
      }
    }
    return Found(resolved, MAXIMUM_LINKS - count);
  }

  /** Every resolution ends inside the snapshot. */
  lemma ResolvedInside(tree: Tree, mount: Path, parts: seq<string>, followFinal: bool)
    requires forall i :: 0 <= i < |parts| ==> '/' !in parts[i]
    ensures
      var r := Walk(tree, mount, [], parts, MAXIMUM_LINKS, !followFinal);
      r.Found? ==>
        && (forall i :: 0 <= i < |r.path| ==> ProperName(r.path[i]))
        && (forall length :: 0 < length < |r.path| ==>
              r.path[..length] in tree && !tree[r.path[..length]].kind.Symlink?)
        && (r.path != [] ==> r.path in tree && (followFinal ==> !tree[r.path].kind.Symlink?))
  {
    WalkSolid(tree, mount, [], parts, MAXIMUM_LINKS, !followFinal);
    var r := Walk(tree, mount, [], parts, MAXIMUM_LINKS, !followFinal);
    if r.Found? && r.path != [] {
      assert r.path[..|r.path|] == r.path;
      assert forall length :: 0 < length < |r.path| ==> Parent(r.path)[..length] == r.path[..length];
    }
  }
}
