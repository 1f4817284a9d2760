/**
 * A Rust `str` is UTF-8. The model holds a string as its sequence of Unicode
 * scalar values (`seq<char>`) and derives its bytes by encoding; `Len` is
 * `str::len` (a byte count) and `SliceTo` is the byte-indexed slice `&s[..i]`,
 * which panics unless `i` falls on a character boundary.
 */
module Utf8 {
  import opened RustStd

  const SPACE: u8 := 0x20

  /** Number of bytes UTF-8 uses for `c`. */
  function CharLen(c: char): (n: nat)
    ensures 1 <= n <= 4
    ensures n == 1 <==> c as int < 0x80
  {
    var v := c as int;
    if v < 0x80 then 1 else if v < 0x800 then 2 else if v < 0x10000 then 3 else 4
  }

  /** The UTF-8 encoding of one character. */
  function EncodeChar(c: char): (bs: seq<u8>)
    ensures |bs| == CharLen(c)
    ensures c as int < 0x80 ==> bs == [c as int as u8]
    ensures c as int >= 0x80 ==> forall j :: 0 <= j < |bs| ==> bs[j] >= 0x80
  {
    var v := c as int;
    if v < 0x80 then [v as u8]
    else if v < 0x800 then [(0xC0 + v / 0x40) as u8, (0x80 + v % 0x40) as u8]
    else if v < 0x10000 then
      [(0xE0 + v / 0x1000) as u8, (0x80 + v / 0x40 % 0x40) as u8, (0x80 + v % 0x40) as u8]
    else
      [(0xF0 + v / 0x40000) as u8, (0x80 + v / 0x1000 % 0x40) as u8,
       (0x80 + v / 0x40 % 0x40) as u8, (0x80 + v % 0x40) as u8]
  }

  /** `s.as_bytes()`. */
  function Encode(s: seq<char>): seq<u8> {
    if s == [] then [] else EncodeChar(s[0]) + Encode(s[1..])
  }

  /** `s.len()`: the length in bytes. */
  function Len(s: seq<char>): nat {
    |Encode(s)|
  }

  /** The encoding of a concatenation is the concatenation of the encodings. */
  lemma {:induction false} EncodeConcat(a: seq<char>, b: seq<char>)
    ensures Encode(a + b) == Encode(a) + Encode(b)
  {
    if a == [] {
      assert a + b == b;
    } else {
      assert (a + b)[0] == a[0];
      assert (a + b)[1..] == a[1..] + b;
      EncodeConcat(a[1..], b);
    }
  }

  /** Byte lengths add up under concatenation. */
  lemma LenConcat(a: seq<char>, b: seq<char>)
    ensures Len(a + b) == Len(a) + Len(b)
  {
    EncodeConcat(a, b);
  }

  /** Byte offset `i` of `s` is where some character begins (or the end): `s.is_char_boundary(i)`. */
  ghost predicate IsCharBoundary(s: seq<char>, i: nat) {
    exists k :: 0 <= k <= |s| && Len(s[..k]) == i
  }

  /** `&s[..i]` on a `str`: the characters held by the first `i` bytes, or a panic when `i` is past the end or splits a character. */
  function SliceTo(s: seq<char>, i: nat): (r: Outcome<seq<char>>)
    ensures r.Returned? ==> r.value <= s && Len(r.value) == i
  {
    if i == 0 then Returned([])
    else if s == [] || i < CharLen(s[0]) then Panicked
    else match SliceTo(s[1..], i - CharLen(s[0]))
      case Returned(w) => Returned([s[0]] + w)
      case Panicked => Panicked
  }

  /** Slicing at the byte offset of a character boundary returns exactly the characters before it. */
  lemma {:induction false} SliceToBoundary(s: seq<char>, k: nat)
    requires k <= |s|
    ensures SliceTo(s, Len(s[..k])) == Returned(s[..k])
  {
    if k > 0 {
      assert s[..k] == [s[0]] + s[1..][..k - 1];
      LenConcat([s[0]], s[1..][..k - 1]);
      assert Encode([s[0]]) == EncodeChar(s[0]);
      SliceToBoundary(s[1..], k - 1);
    }
  }

  /** `&s[..i]` succeeds exactly when `i` is a character boundary. */
  lemma {:induction false} SliceToSucceedsIff(s: seq<char>, i: nat)
    ensures SliceTo(s, i).Returned? <==> IsCharBoundary(s, i)
  {
    if SliceTo(s, i).Returned? {
      var w := SliceTo(s, i).value;
      assert s[..|w|] == w;
    }
    if IsCharBoundary(s, i) {
      var k :| 0 <= k <= |s| && Len(s[..k]) == i;
      SliceToBoundary(s, k);
    }
  }

  /** Every character takes at least one byte, and exactly one only when it is ASCII. */
  lemma {:induction false} LenCountsAscii(s: seq<char>)
    ensures Len(s) >= |s|
    ensures Len(s) == |s| <==> forall j :: 0 <= j < |s| ==> s[j] as int < 0x80
  {
    if s != [] {
      LenCountsAscii(s[1..]);
      assert forall j :: 1 <= j < |s| ==> s[j] == s[1..][j - 1];
    }
  }
}
