/** `longest`: the longer of two string slices, by byte length. */
module GenericLifetime {
  import opened Utf8

  /** `x` when it has more bytes than `y`, otherwise `y` (so ties go to `y`). */
  function Longest(x: string, y: string): (r: string)
    ensures r == x || r == y
    ensures Len(r) >= Len(x) && Len(r) >= Len(y)
    ensures Len(x) == Len(y) ==> r == y
  {
    if Len(x) > Len(y) then x else y
  }

  /** `main`: `longest("abcd", "hij")` is "abcd". */
  lemma LongestAbcdHij()
    ensures Longest("abcd", "hij") == "abcd"
  {
    var x, y := "abcd", "hij";
    assert forall j :: 0 <= j < |x| ==> x[j] as int < 0x80;
    assert forall j :: 0 <= j < |y| ==> y[j] as int < 0x80;
    LenCountsAscii(x);
    LenCountsAscii(y);
  }
}
