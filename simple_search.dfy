/** `find_value`: a linear search returning the first index holding `target`. */
module SimpleSearch {
  import opened RustStd

  /**
   * The enumerate loop returns at the first match, so a found index is the
   * smallest one holding `target`; `None` means `target` occurs nowhere.
   */
  method FindValue(vec: seq<int>, target: int) returns (r: Option<nat>)
    ensures r.Some? ==> r.value < |vec| && vec[r.value] == target
    ensures r.Some? ==> forall j :: 0 <= j < r.value ==> vec[j] != target
    ensures r.None? <==> target !in vec
  {
    for index := 0 to |vec|
      invariant target !in vec[..index]
    {
      if vec[index] == target {
        return Some(index);
      }
      assert vec[..index + 1] == vec[..index] + [vec[index]];
    }
    assert vec[..|vec|] == vec;
    return None;
  }

  /** `main`: searching 3 in `[1, 2, 3, 4, 5]` finds index 2. */
  method SearchThree() returns (r: Option<nat>)
    ensures r == Some(2)
  {
    var numbers := [1, 2, 3, 4, 5];
    r := FindValue(numbers, 3);
    assert numbers[2] == 3;
    assert numbers[0] != 3 && numbers[1] != 3;
  }
}
