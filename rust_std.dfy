/**
 * The pieces of Rust's core library that the modelled snippets lean on:
 * the `i32` range (arithmetic leaving it panics in a debug build), `u8`,
 * `Option`, the outcome of an operation that may panic, and the half-open
 * range `lo..hi`.
 */
module RustStd {

  const I32_MIN: int := -0x8000_0000
  const I32_MAX: int := 0x7fff_ffff

  /** `x` is a value of type `i32`. */
  predicate IsI32(x: int) {
    I32_MIN <= x <= I32_MAX
  }

  newtype u8 = b: int | 0 <= b < 0x100

  datatype Option<T> = None | Some(value: T)

  /** What a call that can panic does: return a value, or panic. */
  datatype Outcome<T> = Returned(value: T) | Panicked

  /** The half-open range `lo..hi`, as the sequence of values a `for` loop visits. */
  function Range(lo: int, hi: int): (r: seq<int>)
    ensures |r| == if lo < hi then hi - lo else 0
    ensures forall j :: 0 <= j < |r| ==> r[j] == lo + j
    decreases hi - lo
  {
    if lo < hi then [lo] + Range(lo + 1, hi) else []
  }

  /** Extending a range by its end value appends that value. */
  lemma RangeSnoc(lo: int, hi: int)
    requires lo <= hi
    ensures Range(lo, hi + 1) == Range(lo, hi) + [hi]
  {
    var a, b := Range(lo, hi + 1), Range(lo, hi) + [hi];
    assert |a| == |b|;
    forall j | 0 <= j < |a| ensures a[j] == b[j] {
    }
  }

  /** `Vec::pop`: the last element and the vector without it, or `None` on an empty vector. */
  function VecPop<T>(v: seq<T>): (r: (Option<T>, seq<T>))
    ensures v == [] ==> r == (None, [])
    ensures v != [] ==> r.0 == Some(v[|v| - 1]) && r.1 + [v[|v| - 1]] == v
  {
    if v == [] then (None, []) else (Some(v[|v| - 1]), v[..|v| - 1])
  }
}
