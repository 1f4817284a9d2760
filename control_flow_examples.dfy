/** Pushing onto a vector, classifying its length with `match`, and draining it with `while let`. */
module ControlFlowExamples {
  import opened RustStd
  import ControlFlow

  datatype LengthClass = Empty | OneValue | TwoToTen | Eleven | Many

  /** The `match values.len()` arms: every length falls in exactly one. */
  function ClassifyLength(len: nat): (c: LengthClass)
    ensures c == Empty <==> len == 0
    ensures c == OneValue <==> len == 1
    ensures c == TwoToTen <==> 2 <= len <= 10
    ensures c == Eleven <==> len == 11
    ensures c == Many <==> len > 11
  {
    match len
    case 0 => Empty
    case 1 => OneValue
    case 11 => Eleven
    case _ => if len <= 10 then TwoToTen else Many
  }

  /**
   * `main`: [1, 2, 3, 4] with 5 pushed; the `len() > 5` branch is not taken,
   * the length falls in `2..=10`, and popping yields 5, 4, 3, 2, 1 until empty.
   */
  method PushClassifyDrain()
    returns (values: seq<int>, longerThanFive: bool, lengthClass: LengthClass, popped: seq<int>, remaining: seq<int>)
    ensures values == [1, 2, 3, 4, 5]
    ensures !longerThanFive
    ensures lengthClass == TwoToTen
    ensures popped == [5, 4, 3, 2, 1]
    ensures remaining == []
  {
    values := [1, 2, 3, 4];
    values := values + [5];
    longerThanFive := |values| > 5;
    lengthClass := ClassifyLength(|values|);
    assert values == [1, 2, 3, 4, 5];
    ControlFlow.ReversedAt(values, 0);
    forall k | 0 <= k < 5
      ensures ControlFlow.Reversed(values)[k] == 5 - k
    {
      ControlFlow.ReversedAt(values, k);
    }
    popped, remaining := ControlFlow.DrainByPop(values);
  }
}
