/** Stable sorting by any total order, and the order of texts. */
module Sorting {

  ghost predicate TotalOrder<T(!new)>(leq: (T, T) -> bool) {
    && (forall x, y :: leq(x, y) || leq(y, x))
    && forall x, y, z :: leq(x, y) && leq(y, z) ==> leq(x, z)
  }

  ghost predicate Sorted<T(!new)>(elements: seq<T>, leq: (T, T) -> bool) {
    forall i, j :: 0 <= i < j < |elements| ==> leq(elements[i], elements[j])
  }

  lemma Inserted<T(!new)>(elements: seq<T>, leq: (T, T) -> bool, element: T, index: nat)
    requires Sorted(elements, leq) && index <= |elements|
    requires forall i :: 0 <= i < index ==> leq(elements[i], element)
    requires forall i :: index <= i < |elements| ==> leq(element, elements[i])
    ensures
      var longer := elements[..index] + [element] + elements[index..];
      Sorted(longer, leq) && multiset(longer) == multiset(elements) + multiset{element}
  {
    assert elements == elements[..index] + elements[index..];
    var longer := elements[..index] + [element] + elements[index..];
    forall i, j | 0 <= i < j < |longer|
      ensures leq(longer[i], longer[j])
    {
      assert longer[i] == if i < index then elements[i] else if i == index then element else elements[i - 1];
      assert longer[j] == if j < index then elements[j] else if j == index then element else elements[j - 1];
    }
  }

  /** Inserts after everything that is not greater. */
  method Insert<T(!new)>(elements: seq<T>, leq: (T, T) -> bool, element: T) returns (longer: seq<T>)
    requires TotalOrder(leq) && Sorted(elements, leq)
    ensures Sorted(longer, leq) && multiset(longer) == multiset(elements) + multiset{element}
  {
    var index := |elements|;
    while index > 0 && !leq(elements[index - 1], element)
      invariant 0 <= index <= |elements|
      invariant forall i :: index <= i < |elements| ==> leq(element, elements[i])
    {
      index := index - 1;
    }
    forall i | 0 <= i < index
      ensures leq(elements[i], element)
    {
      if i < index - 1 {
        assert leq(elements[i], elements[index - 1]);
      }
    }
    Inserted(elements, leq, element, index);
    longer := elements[..index] + [element] + elements[index..];
  }

  method Sort<T(!new)>(elements: seq<T>, leq: (T, T) -> bool) returns (sorted: seq<T>)
    requires TotalOrder(leq)
    ensures Sorted(sorted, leq) && multiset(sorted) == multiset(elements)
  {
    sorted := [];
    for index := 0 to |elements|
      invariant Sorted(sorted, leq) && multiset(sorted) == multiset(elements[..index])
    {
      assert elements[..index + 1] == elements[..index] + [elements[index]];
      sorted := Insert(sorted, leq, elements[index]);
    }
    assert elements[..|elements|] == elements;
  }

  predicate TextLeq(left: string, right: string) {
    left == "" ||
    (right != "" && (left[0] < right[0] || (left[0] == right[0] && TextLeq(left[1..], right[1..]))))
  }

  lemma {:induction false} TextLeqTotal(left: string, right: string)
    ensures TextLeq(left, right) || TextLeq(right, left)
  {
    if left != "" && right != "" {
      TextLeqTotal(left[1..], right[1..]);
    }
  }

  lemma {:induction false} TextLeqTrans(first: string, second: string, third: string)
    requires TextLeq(first, second) && TextLeq(second, third)
    ensures TextLeq(first, third)
  {
    if first != "" && first[0] == second[0] == third[0] {
      TextLeqTrans(first[1..], second[1..], third[1..]);
    }
  }

  /** Texts that come before each other are the same. */
  lemma {:induction false} TextLeqAntisymmetric(left: string, right: string)
    requires TextLeq(left, right) && TextLeq(right, left)
    ensures left == right
  {
    if left != "" {
      TextLeqAntisymmetric(left[1..], right[1..]);
      assert left == [left[0]] + left[1..] && right == [right[0]] + right[1..];
    }
  }

  /* What reordering keeps. */

  ghost predicate DistinctBy<T(!new), K(!new)>(elements: seq<T>, key: T -> K) {
    forall i, j :: 0 <= i < j < |elements| ==> key(elements[i]) != key(elements[j])
  }

  lemma {:induction false} OnlyOnce<T(!new), K(!new)>(elements: seq<T>, key: T -> K, element: T)
    requires DistinctBy(elements, key)
    ensures multiset(elements)[element] <= 1
  {
    if elements != [] {
      var last := |elements| - 1;
      assert elements == elements[..last] + [elements[last]];
      OnlyOnce(elements[..last], key, element);
      if elements[last] == element {
        assert element !in elements[..last];
      }
    }
  }

  lemma StaysDistinct<T(!new), K(!new)>(elements: seq<T>, reordered: seq<T>, key: T -> K)
    requires DistinctBy(elements, key) && multiset(reordered) == multiset(elements)
    ensures DistinctBy(reordered, key)
  {
    forall i, j | 0 <= i < j < |reordered|
      ensures key(reordered[i]) != key(reordered[j])
    {
      assert reordered[i] in multiset(reordered) && reordered[j] in multiset(reordered);
      var a :| 0 <= a < |elements| && elements[a] == reordered[i];
      var b :| 0 <= b < |elements| && elements[b] == reordered[j];
      assert reordered == reordered[..j] + reordered[j..];
      assert reordered[..j][i] == reordered[i] && reordered[j..][0] == reordered[j];
      OnlyOnce(elements, key, reordered[i]);
      assert reordered[i] == reordered[j] ==> multiset(reordered)[reordered[i]] >= 2;
    }
  }
}
