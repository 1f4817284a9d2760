/** `filter(|s| s.len() == 1).cloned().collect()` over an array of byte vectors. */
module Cloned {
  import opened RustStd
  import Iter

  predicate HasLengthOne(v: seq<u8>) {
    |v| == 1
  }

  /**
   * Clones of exactly the inner vectors of length 1, in their original
   * order. The input is only borrowed; cloning leaves it as it was.
   */
  function KeepSingletons(a: seq<seq<u8>>): (faster: seq<seq<u8>>)
    ensures forall j :: 0 <= j < |faster| ==> faster[j] in a && |faster[j]| == 1
    ensures forall j :: 0 <= j < |a| && |a[j]| == 1 ==> a[j] in faster
    ensures forall v :: multiset(faster)[v] == if |v| == 1 then multiset(a)[v] else 0
  {
    Iter.FilterMultiplicity(a, HasLengthOne);
    Iter.Filter(a, HasLengthOne)
  }

  /** The snippet's `assert_eq!`: of [0, 1, 2], [3, 4] and [23], only [23] is kept. */
  lemma KeepSingletonsExample()
    ensures KeepSingletons([[0, 1, 2], [3, 4], [23]]) == [[23]]
  {
    var a: seq<seq<u8>> := [[0, 1, 2], [3, 4], [23]];
    assert a[1..] == [[3, 4], [23]] && a[1..][1..] == [[23]];
    assert Iter.Filter([[23]], HasLengthOne) == [[23]];
    assert Iter.Filter([[3, 4], [23]], HasLengthOne) == [[23]];
  }
}
