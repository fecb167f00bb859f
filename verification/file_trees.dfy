/**
 A file system under one watched root: a path is the sequence of its components
 below that root, and the root itself is the empty path.
 */
module FileTrees {
  import opened Wrappers

  type Path = seq<string>

  datatype Kind = File | Directory | Symlink | Other

  /** The owner's write and search bits, and every other bit. */
  datatype Mode = Mode(writable: bool, searchable: bool, rest: int) {
    predicate Usable() {
      writable && searchable
    }

    function Widened(): Mode {
      this.(writable := true, searchable := true)
    }
  }

  /** `content` is a file's bytes or a link's target; `stamp` is its times. */
  datatype Node = Node(kind: Kind, content: string, mode: Mode, stamp: int)

  type Tree = map<Path, Node>

  function Get(tree: Tree, path: Path): Option<Node> {
    if path in tree then Some(tree[path]) else None
  }

  function Parent(path: Path): Path
    requires path != []
  {
    path[..|path| - 1]
  }

  function PathText(path: Path): string {
    if path == [] then "" else PathText(Parent(path)) + "/" + path[|path| - 1]
  }

  /** `above` is a proper ancestor of `path`. */
  predicate IsAbove(above: Path, path: Path) {
    |above| < |path| && path[..|above|] == above
  }

  predicate Within(path: Path, root: Path) {
    path == root || IsAbove(root, path)
  }

  predicate Holds(tree: Tree, path: Path) {
    path in tree && tree[path].kind.Directory? && tree[path].mode.searchable
  }

  /** Every entry lies in a directory that can be searched. */
  ghost predicate Rooted(tree: Tree) {
    forall path :: path in tree && path != [] ==> Holds(tree, Parent(path))
  }

  datatype Look = Denied | Absent | Present(node: Node)

  /** What a look at a path finds: an entry, nothing, or an error on the way. */
  function Lookup(tree: Tree, path: Path): Look {
    if path == [] then
      if [] in tree then Present(tree[[]]) else Absent
    else
      match Lookup(tree, Parent(path))
      case Denied => Denied
      case Absent => Absent
      case Present(directory) =>
        if !directory.kind.Directory? || !directory.mode.searchable then Denied
        else if path in tree then Present(tree[path])
        else Absent
  }

  lemma {:induction false} LookupPresent(tree: Tree, path: Path)
    requires Rooted(tree) && path in tree
    ensures Lookup(tree, path) == Present(tree[path])
  {
    if path != [] {
      assert Holds(tree, Parent(path));
      LookupPresent(tree, Parent(path));
    }
  }

  /** Every existing directory above `path` can be searched. */
  ghost predicate Reachable(tree: Tree, path: Path) {
    forall above :: IsAbove(above, path) && above in tree ==> Holds(tree, above)
  }

  lemma AboveParent(above: Path, path: Path)
    requires IsAbove(above, path)
    ensures path != [] && Within(Parent(path), above)
  {
  }

  lemma AboveChild(above: Path, path: Path)
    requires path != [] && Within(Parent(path), above)
    ensures IsAbove(above, path)
  {
  }

  lemma AboveTrans(first: Path, second: Path, third: Path)
    requires IsAbove(first, second) && IsAbove(second, third)
    ensures IsAbove(first, third)
  {
  }

  lemma {:induction false} RootedAbove(tree: Tree, above: Path, path: Path)
    requires Rooted(tree) && path in tree && IsAbove(above, path)
    ensures Holds(tree, above)
  {
    AboveParent(above, path);
    assert Holds(tree, Parent(path));
    if Parent(path) != above {
      RootedAbove(tree, above, Parent(path));
    }
  }

  lemma {:induction false} LookupReachable(tree: Tree, path: Path)
    requires Rooted(tree) && Reachable(tree, path)
    ensures Lookup(tree, path) == if path in tree then Present(tree[path]) else Absent
  {
    if path != [] {
      assert IsAbove(Parent(path), path);
      forall above | IsAbove(above, Parent(path)) && above in tree
        ensures Holds(tree, above)
      {
        AboveTrans(above, Parent(path), path);
      }
      LookupReachable(tree, Parent(path));
    }
  }

  /** A file or a closed directory on the way makes everything below it an error. */
  lemma {:induction false} LookupDenied(tree: Tree, above: Path, path: Path)
    requires Rooted(tree) && IsAbove(above, path) && above in tree && !Holds(tree, above)
    ensures Lookup(tree, path).Denied?
  {
    AboveParent(above, path);
    if Parent(path) == above {
      LookupPresent(tree, above);
    } else {
      LookupDenied(tree, above, Parent(path));
    }
  }
}
