/**
 The order in which changes are restored: files before directories, deeper paths
 before shallower ones, and otherwise by path.
 */
module RestoreOrder {
  import opened FileTrees
  import opened Restoring
  import opened Sorting

  /** Directories come last. */
  function RestoreRank(change: Change): int {
    if (change.before.Some? && change.before.value.kind.Directory?) ||
       (change.after.Some? && change.after.value.kind.Directory?) then 1 else 0
  }

  predicate Leq(left: Change, right: Change) {
    var l, r := RestoreRank(left), RestoreRank(right);
    if l != r then l < r
    else if |left.path| != |right.path| then |left.path| > |right.path|
    else TextLeq(PathText(left.path), PathText(right.path))
  }

  lemma LeqTotal(left: Change, right: Change)
    ensures Leq(left, right) || Leq(right, left)
  {
    TextLeqTotal(PathText(left.path), PathText(right.path));
  }

  lemma LeqTrans(first: Change, second: Change, third: Change)
    requires Leq(first, second) && Leq(second, third)
    ensures Leq(first, third)
  {
    var f, s, t := PathText(first.path), PathText(second.path), PathText(third.path);
    if TextLeq(f, s) && TextLeq(s, t) {
      TextLeqTrans(f, s, t);
    }
  }

  lemma LeqOrder()
    ensures TotalOrder(Leq)
  {
    forall left, right
      ensures Leq(left, right) || Leq(right, left)
    {
      LeqTotal(left, right);
    }
    forall first, second, third | Leq(first, second) && Leq(second, third)
      ensures Leq(first, third)
    {
      LeqTrans(first, second, third);
    }
  }

  ghost predicate Ordered(changes: seq<Change>) {
    Sorted(changes, Leq)
  }

  /** What comes out is what went in. */
  method OrderRestoreChanges(changes: seq<Change>) returns (ordered: seq<Change>)
    ensures Ordered(ordered) && multiset(ordered) == multiset(changes)
  {
    LeqOrder();
    ordered := Sort(changes, Leq);
  }

  /** If what lies above another change is always a directory, the order never restores
      a path before what lies below it. */
  lemma OrderedChildrenFirst(changes: seq<Change>)
    requires Ordered(changes)
    requires forall i, j :: 0 <= i < |changes| && 0 <= j < |changes| && i != j ==> changes[i].path != changes[j].path
    requires forall i, j :: 0 <= i < |changes| && 0 <= j < |changes| && IsAbove(changes[i].path, changes[j].path) ==>
      RestoreRank(changes[i]) == 1
    ensures ChildrenFirst(changes)
  {
  }
}
