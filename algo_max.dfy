/** `max` over a non-empty `&[i32]`: one pass keeping the running maximum. */
module AlgoMax {

  /** The largest element of a non-empty list, peeling off its last element. */
  function MaxOf(list: seq<int>): (m: int)
    requires |list| > 0
    ensures m in list
    ensures forall j :: 0 <= j < |list| ==> list[j] <= m
  {
    if |list| == 1 then list[0]
    else
      var rest := MaxOf(list[..|list| - 1]);
      if list[|list| - 1] > rest then list[|list| - 1] else rest
  }

  /**
   * Reading `list[0]` panics on an empty slice, hence the precondition. The
   * slice is borrowed immutably; here it is a value and cannot change.
   */
  method Max(list: seq<int>) returns (largest: int)
    requires |list| > 0
    ensures largest == MaxOf(list)
    ensures largest in list
    ensures forall j :: 0 <= j < |list| ==> list[j] <= largest
  {
    largest := list[0];
    for i := 0 to |list|
      invariant largest == MaxOf(list[..if i == 0 then 1 else i])
    {
      var v := list[i];
      if i > 0 {
        assert list[..i + 1][..i] == list[..i];
      }
      if v > largest {
        largest := v;
      }
    }
    assert list[..|list|] == list;
  }
}
