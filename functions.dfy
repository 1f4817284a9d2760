/**
 * Functions, function pointers, higher-order functions, a closure with
 * captured mutable state, and generic functions.
 */
module Functions {
  import opened RustStd
  import Iter

  /** A mutable `i32` place, the target of a `&mut i32`. */
  class I32Place {
    var value: int

    constructor (value: int)
      ensures this.value == value
    {
      this.value := value;
    }
  }

  /** `add_one`: add one through the reference; `i32::MAX` would overflow. */
  method AddOne(x: I32Place)
    requires x.value < I32_MAX
    modifies x
    ensures x.value == old(x.value) + 1
  {
    x.value := x.value + 1;
  }

  /** `main`: `num` starts at 5 and is 6 after `add_one(&mut num)`. */
  method AddOneToFive() returns (num: int)
    ensures num == 6
  {
    var place := new I32Place(5);
    AddOne(place);
    num := place.value;
  }

  /** `square`, defined where `x * x` fits in an `i32`. */
  function Square(x: int): (r: int)
    requires IsI32(x * x)
    ensures r >= 0 && IsI32(r)
    ensures r == 0 <==> x == 0
  {
    x * x
  }

  /** `main`: the square of 4 is 16. */
  method SquareOfFour() returns (result: int)
    ensures result == 16
  {
    result := Square(4);
  }

  /** `add`, the function passed as a function pointer. */
  function Add(a: int, b: int): (r: int)
    requires IsI32(a + b)
    ensures IsI32(r)
    ensures r == a + b
  {
    a + b
  }

  /** `apply_operation`: call `op` on `x` and `y`. */
  function ApplyOperation(op: (int, int) --> int, x: int, y: int): int
    requires op.requires(x, y)
  {
    op(x, y)
  }

  /** Passing `add` as the operation gives the `i32` sum. */
  lemma ApplyAdd(x: int, y: int)
    requires IsI32(x + y)
    ensures ApplyOperation(Add, x, y) == x + y
  {
  }

  /** `main`: `apply_operation(add, 2, 3)` is 5. */
  method ApplyAddToTwoAndThree() returns (result: int)
    ensures result == 5
  {
    assert IsI32(2 + 3);
    result := ApplyOperation(Add, 2, 3);
  }

  /** The two's-complement bit pattern of an `i32`, read as an unsigned 32-bit word. */
  function Bits(n: int): bv32 {
    (n % 0x1_0000_0000) as bv32
  }

  /** `is_even`: `n & 1 == 0` (both the `&i32` and the `i32` variant). */
  predicate IsEven(n: int) {
    Bits(n) & 1 == 0
  }

  /** The low bit of an unsigned word is its remainder modulo 2. */
  lemma LowBit(u: int)
    requires 0 <= u < 0x1_0000_0000
    ensures (u as bv32) & 1 == 0 <==> u % 2 == 0
  {
    var b := u as bv32;
    assert b & 1 == b % 2;
    assert (b % 2) as int == u % 2;
  }

  /** Reducing modulo 2^32 keeps the parity. */
  lemma ModTwo(n: int, q: int, u: int)
    requires n == 0x1_0000_0000 * q + u
    ensures n % 2 == u % 2
  {
    assert n == 2 * (0x8000_0000 * q) + u;
  }

  /** Testing the low bit decides evenness, negative numbers included. */
  lemma IsEvenIff(n: int)
    ensures IsEven(n) <==> n % 2 == 0
  {
    var q, u := n / 0x1_0000_0000, n % 0x1_0000_0000;
    ModTwo(n, q, u);
    LowBit(u);
  }

  /** `filter` (function.rs lines 59-64): keep exactly the elements satisfying `keep`, in order. */
  function Filter(arr: seq<int>, keep: int -> bool): (r: seq<int>)
    ensures forall j :: 0 <= j < |r| ==> r[j] in arr && keep(r[j])
    ensures forall j :: 0 <= j < |arr| && keep(arr[j]) ==> arr[j] in r
    ensures forall x :: multiset(r)[x] == if keep(x) then multiset(arr)[x] else 0
  {
    Iter.FilterMultiplicity(arr, keep);
    Iter.Filter(arr, keep)
  }

  /**
   * `filter` (function.rs lines 77-79) takes a plain function pointer and
   * wraps it in a closure that dereferences its argument; that changes nothing.
   */
  function FilterWrapped(arr: seq<int>, keep: int -> bool): (r: seq<int>)
    ensures r == Filter(arr, keep)
  {
    Iter.FilterSamePredicate(arr, (arg0: int) => keep(arg0), keep);
    Iter.Filter(arr, (arg0: int) => keep(arg0))
  }

  /** Evenness by the remainder: the reference `IsEven` is checked against. */
  predicate DividesByTwo(n: int) {
    n % 2 == 0
  }

  /** The evens among 1 to 6, by the remainder. */
  lemma EvensUpToSix(arr: seq<int>)
    requires arr == [1, 2, 3, 4, 5, 6]
    ensures Iter.Filter(arr, DividesByTwo) == [2, 4, 6]
  {
    assert arr[6..] == [];
    assert Iter.Filter(arr[5..], DividesByTwo) == [6] + [];
    assert Iter.Filter(arr[4..], DividesByTwo) == [6];
    assert Iter.Filter(arr[3..], DividesByTwo) == [4] + [6];
    assert Iter.Filter(arr[2..], DividesByTwo) == [4, 6];
    assert Iter.Filter(arr[1..], DividesByTwo) == [2] + [4, 6];
    assert arr == [1] + arr[1..];
    Iter.FilterConcat([1], arr[1..], DividesByTwo);
    assert Iter.Filter([1], DividesByTwo) == [];
  }

  /** `main`: filtering [1, 2, 3, 4, 5, 6] with `is_even` gives [2, 4, 6]. */
  lemma FilterEvens(arr: seq<int>)
    requires arr == [1, 2, 3, 4, 5, 6]
    ensures Filter(arr, IsEven) == [2, 4, 6]
  {
    forall n: int ensures IsEven(n) == DividesByTwo(n) {
      IsEvenIff(n);
    }
    Iter.FilterSamePredicate(arr, IsEven, DividesByTwo);
    EvensUpToSix(arr);
  }
  /** The second `main`: the dereferencing wrapper filters [1, 2, 3, 4, 5, 6] to [2, 4, 6] too. */
  lemma FilterWrappedEvens(arr: seq<int>)
    requires arr == [1, 2, 3, 4, 5, 6]
    ensures FilterWrapped(arr, IsEven) == [2, 4, 6]
  {
    FilterEvens(arr);
  }


  /**
   * The closure `|n: i32| n * n + x` (function.rs lines 96-97), which
   * borrows the `x` it captures; the arithmetic must stay within `i32`.
   */
  function SquarePlusCaptured(x: int, n: int): (r: int)
    requires IsI32(n * n) && IsI32(n * n + x)
    ensures IsI32(r)
    ensures r >= x
    ensures r == x <==> n == 0
  {
    n * n + x
  }

  /** That snippet's `main`: with `x` captured as 4, `square(2)` is 8. */
  lemma CapturedSquareOfTwo()
    ensures SquarePlusCaptured(4, 2) == 8
  {
  }

  /**
   * The closure `make` returns: it owns a copy of `x`, starting at 9, and
   * each call decrements it before computing `n * n + x`.
   */
  class MadeClosure {
    var x: int

    /** `make()`. */
    constructor Make()
      ensures x == 9
    {
      x := 9;
    }

    /** One call of the closure; the subtraction and the arithmetic must stay within `i32`. */
    method Call(n: int) returns (r: int)
      requires x > I32_MIN && IsI32(n * n) && IsI32(n * n + x - 1)
      modifies this
      ensures x == old(x) - 1
      ensures r == n * n + x
    {
      x := x - 1;
      r := n * n + x;
    }
  }

  /** `main`: three calls with 1 return 9, 8 and 7. */
  method CallMadeThrice() returns (first: int, second: int, third: int)
    ensures first == 9 && second == 8 && third == 7
  {
    var square := new MadeClosure.Make();
    first := square.Call(1);
    second := square.Call(1);
    third := square.Call(1);
  }

  /** `generic_function`: three clones of `x`. */
  function GenericFunction<T>(x: T): (r: (T, T, T))
    ensures r.0 == x && r.1 == x && r.2 == x
  {
    (x, x, x)
  }

  /** `generic_where` at `i32`: `x + x + x`, which is three times `x`; each addition must not overflow. */
  function GenericWhere(x: int): (r: int)
    requires IsI32(x + x) && IsI32(x + x + x)
    ensures r == 3 * x
    ensures r % 3 == 0
  {
    x + x + x
  }

  /** `main`: `generic_where(5)` is 15. */
  method GenericWhereOfFive() returns (result: int)
    ensures result == 15
  {
    result := GenericWhere(5);
  }
}
