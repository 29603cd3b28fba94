/** Counting without repeats: the pigeonhole shared by the component registry and
    the partition table. */
module Counting {

  function SetOf<T>(items: seq<T>): set<T> {
    set item | item in items
  }

  /** As many entries of `whole` as `whole` has, without repeats, are a permutation of it. */
  lemma {:induction false} FullSelectionIsPermutation<T>(chosen: seq<T>, whole: seq<T>)
    requires |chosen| == |whole| && |SetOf(chosen)| == |whole|
    requires forall item :: item in chosen ==> item in whole
    ensures multiset(chosen) == multiset(whole)
  {
    assert SetOf(chosen) <= SetOf(whole);
    SetOfBound(whole);
    SubsetOfSameSize(SetOf(chosen), SetOf(whole));
    NoRepeats(chosen);
    NoRepeats(whole);
    assert forall item :: item in SetOf(chosen) <==> item in chosen;
    assert forall item :: item in SetOf(whole) <==> item in whole;
    assert forall item :: multiset(chosen)[item] == multiset(whole)[item];
  }

  lemma {:induction false} SubsetOfSameSize<T>(a: set<T>, b: set<T>)
    requires a <= b && |a| >= |b|
    ensures a == b
  {
    assert |b - a| == |b| - |a|;
  }

  lemma {:induction false} SetOfBound<T>(items: seq<T>)
    ensures |SetOf(items)| <= |items|
  {
    if items != [] {
      var shorter := items[..|items| - 1];
      SetOfBound(shorter);
      assert items == shorter + [items[|items| - 1]];
      assert SetOf(items) == SetOf(shorter) + {items[|items| - 1]};
    } else {
      assert SetOf(items) == {};
    }
  }

  lemma {:induction false} NoRepeats<T>(items: seq<T>)
    requires |SetOf(items)| == |items|
    ensures forall item :: multiset(items)[item] == if item in items then 1 else 0
  {
    if items != [] {
      var shorter, last := items[..|items| - 1], items[|items| - 1];
      SetOfBound(shorter);
      assert items == shorter + [last];
      assert SetOf(items) == SetOf(shorter) + {last};
      NoRepeats(shorter);
    }
  }

  /** Without repeats, different positions hold different items. */
  lemma {:induction false} PositionsDiffer<T>(items: seq<T>)
    requires forall item :: multiset(items)[item] <= 1
    ensures forall i, j :: 0 <= i < j < |items| ==> items[i] != items[j]
  {
    if items != [] {
      var shorter, last := items[..|items| - 1], items[|items| - 1];
      assert items == shorter + [last];
      assert forall item :: multiset(items)[item] == multiset(shorter)[item] + multiset([last])[item];
      PositionsDiffer(shorter);
    }
  }

  lemma {:induction false} DistinctCount<T>(items: seq<T>)
    requires forall i, j :: 0 <= i < j < |items| ==> items[i] != items[j]
    ensures |SetOf(items)| == |items|
  {
    if items != [] {
      var shorter, last := items[..|items| - 1], items[|items| - 1];
      DistinctCount(shorter);
      assert items == shorter + [last];
      assert SetOf(items) == SetOf(shorter) + {last};
    } else {
      assert SetOf(items) == {};
    }
  }
}
