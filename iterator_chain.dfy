/**
 * Summing the doubled values that exceed 5: once as an iterator chain
 * (`iter().map().filter().sum()`) and once as an accumulating `for` loop.
 */
module IteratorChain {
  import opened RustStd
  import opened Iter

  /** The closure `|x| x * 2`. */
  function Double(x: int): int {
    x * 2
  }

  /** The closure `|x| x > &5`. */
  predicate ExceedsFive(x: int) {
    x > 5
  }

  /** The chain: the sum of `2 * x` over the elements whose double exceeds 5. */
  function ChainSum(numbers: seq<int>): int {
    Sum(Filter(Map(numbers, Double), ExceedsFive))
  }

  /** The chain over a concatenation is the sum of the chains. */
  lemma ChainSumConcat(a: seq<int>, b: seq<int>)
    ensures ChainSum(a + b) == ChainSum(a) + ChainSum(b)
  {
    MapConcat(a, b, Double);
    FilterConcat(Map(a, Double), Map(b, Double), ExceedsFive);
    SumConcat(Filter(Map(a, Double), ExceedsFive), Filter(Map(b, Double), ExceedsFive));
  }

  /** One more element adds its double exactly when that double exceeds 5. */
  lemma ChainSumSnoc(s: seq<int>, x: int)
    ensures ChainSum(s + [x]) == ChainSum(s) + (if x * 2 > 5 then x * 2 else 0)
  {
    ChainSumConcat(s, [x]);
    assert Map([x], Double) == [x * 2];
    if x * 2 > 5 {
      assert Filter([x * 2], ExceedsFive) == [x * 2];
      assert Sum([x * 2]) == x * 2 + Sum([]);
    } else {
      assert Filter([x * 2], ExceedsFive) == [];
    }
  }

  /** Only terms above 5 are added, so the chain is never negative and grows along the input. */
  lemma ChainSumPrefix(s: seq<int>, i: nat)
    requires i <= |s|
    ensures 0 <= ChainSum(s[..i]) <= ChainSum(s)
  {
    ChainSumNonNegative(s[..i]);
    ChainSumNonNegative(s[i..]);
    assert s == s[..i] + s[i..];
    ChainSumConcat(s[..i], s[i..]);
  }

  /** Every `x * 2` of the `map` stays within `i32`. */
  predicate DoublesFit(numbers: seq<int>) {
    forall j :: 0 <= j < |numbers| ==> IsI32(numbers[j] * 2)
  }

  /** The doubling and every partial sum stay within `i32` (otherwise the program panics). */
  predicate NoOverflow(numbers: seq<int>) {
    DoublesFit(numbers) && IsI32(ChainSum(numbers))
  }

  /** The doublings fit exactly when the first one does and those after it do. */
  lemma DoublesFitCons(s: seq<int>)
    requires s != []
    ensures DoublesFit(s) <==> IsI32(s[0] * 2) && DoublesFit(s[1..])
  {
    if IsI32(s[0] * 2) && DoublesFit(s[1..]) {
      forall j | 1 <= j < |s| ensures IsI32(s[j] * 2) {
        assert s[j] == s[1..][j - 1];
      }
    }
  }

  /** The chain over the elements after the first is the first's term plus the rest. */
  lemma ChainSumCons(s: seq<int>)
    requires s != []
    ensures ChainSum(s) == (if s[0] * 2 > 5 then s[0] * 2 else 0) + ChainSum(s[1..])
  {
    assert s == [s[0]] + s[1..];
    ChainSumConcat([s[0]], s[1..]);
    ChainSumSnoc([], s[0]);
    assert [] + [s[0]] == [s[0]];
  }

  /** The chain is never negative: only terms above 5 are added. */
  lemma ChainSumNonNegative(s: seq<int>)
    ensures ChainSum(s) >= 0
  {
    SumPositive(Filter(Map(s, Double), ExceedsFive));
  }

  /**
   * The chain as a debug build runs it: each `x * 2` and each step of the
   * `sum()` fold is checked, and leaving `i32` panics. `acc` is the fold so far.
   */
  function CheckedChain(s: seq<int>, acc: int): Outcome<int> {
    if s == [] then Returned(acc)
    else
      var x := s[0] * 2;
      if !IsI32(x) then Panicked
      else if x > 5 then
        if IsI32(acc + x) then CheckedChain(s[1..], acc + x) else Panicked
      else CheckedChain(s[1..], acc)
  }

  /** What one element contributes to the chain: its double when that exceeds 5. */
  function Term(x: int): int {
    if x * 2 > 5 then x * 2 else 0
  }

  /** The chain's value as a fold, element by element: the loop's view of the sum. */
  function FoldSum(s: seq<int>): int {
    if s == [] then 0 else Term(s[0]) + FoldSum(s[1..])
  }

  /** The element-by-element fold computes the iterator chain. */
  lemma {:induction false} FoldSumIsChainSum(s: seq<int>)
    ensures FoldSum(s) == ChainSum(s)
  {
    if s == [] {
      assert ChainSum(s) == 0;
    } else {
      ChainSumCons(s);
      FoldSumIsChainSum(s[1..]);
    }
  }

  /** The checked fold panics exactly when some doubling or the total leaves `i32`. */
  lemma {:induction false} CheckedChainIff(s: seq<int>, acc: int)
    requires IsI32(acc) && acc >= 0
    ensures CheckedChain(s, acc) ==
      if DoublesFit(s) && IsI32(acc + FoldSum(s)) then Returned(acc + FoldSum(s)) else Panicked
  {
    if s != [] {
      var x := s[0] * 2;
      DoublesFitCons(s);
      FoldSumIsChainSum(s[1..]);
      ChainSumNonNegative(s[1..]);
      if IsI32(x) {
        if x > 5 {
          if IsI32(acc + x) {
            CheckedChainIff(s[1..], acc + x);
          }
        } else {
          CheckedChainIff(s[1..], acc);
        }
      }
    }
  }

  /** `numbers.iter().map(|x| x * 2).filter(|x| x > &5).sum()` in a debug build. */
  function Chain(numbers: seq<int>): (r: Outcome<int>)
    ensures r.Returned? <==> NoOverflow(numbers)
    ensures r.Returned? ==> r.value == ChainSum(numbers) && IsI32(r.value)
  {
    CheckedChainIff(numbers, 0);
    FoldSumIsChainSum(numbers);
    CheckedChain(numbers, 0)
  }

  /** One loop step: the double fits in `i32`, and so does the running sum after it. */
  lemma LoopStep(numbers: seq<int>, i: nat)
    requires NoOverflow(numbers) && i < |numbers|
    ensures IsI32(numbers[i] * 2)
    ensures var x := numbers[i] * 2;
      ChainSum(numbers[..i + 1]) == ChainSum(numbers[..i]) + (if x > 5 then x else 0)
    ensures IsI32(ChainSum(numbers[..i + 1]))
  {
    assert numbers[..i + 1] == numbers[..i] + [numbers[i]];
    ChainSumSnoc(numbers[..i], numbers[i]);
    ChainSumPrefix(numbers, i + 1);
  }

  /** The loop version accumulates exactly what the chain sums, and never overflows. */
  method LoopSum(numbers: seq<int>) returns (sum: int)
    requires NoOverflow(numbers)
    ensures sum == ChainSum(numbers)
  {
    sum := 0;
    for i := 0 to |numbers|
      invariant sum == ChainSum(numbers[..i])
    {
      LoopStep(numbers, i);
      var x := numbers[i] * 2;
      assert IsI32(x);
      if x > 5 {
        assert IsI32(sum + x);
        sum := sum + x;
      }
    }
    assert numbers[..|numbers|] == numbers;
  }

  /** The chain over [1, 2, 3] is 6: only the double of 3 exceeds 5. */
  lemma ChainOneToThree()
    ensures ChainSum([1, 2, 3]) == 6
  {
    assert ChainSum([]) == 0;
    ChainSumSnoc([], 1);
    assert [] + [1] == [1];
    assert ChainSum([1]) == 0;
    ChainSumSnoc([1], 2);
    assert [1] + [2] == [1, 2];
    assert ChainSum([1, 2]) == 0;
    ChainSumSnoc([1, 2], 3);
    assert [1, 2] + [3] == [1, 2, 3];
  }

  /** The first `main`: the chain over [1, 2, 3, 4, 5] is 24. */
  lemma ChainOneToFive()
    ensures ChainSum([1, 2, 3, 4, 5]) == 24
  {
    ChainOneToThree();
    ChainSumSnoc([1, 2, 3], 4);
    assert [1, 2, 3] + [4] == [1, 2, 3, 4];
    assert ChainSum([1, 2, 3, 4]) == 14;
    ChainSumSnoc([1, 2, 3, 4], 5);
    assert [1, 2, 3, 4] + [5] == [1, 2, 3, 4, 5];
  }

  /** The first `main` in a debug build: no step overflows, so the chain returns 24. */
  lemma ChainMainReturns(numbers: seq<int>)
    requires numbers == [1, 2, 3, 4, 5]
    ensures Chain(numbers) == Returned(24)
  {
    ChainOneToFive();
    assert DoublesFit(numbers);
  }

  /** Doubling 2^30 leaves `i32`, so the chain panics instead of summing 2^31. */
  lemma ChainPanicsOnOverflow(numbers: seq<int>)
    requires numbers == [0x4000_0000]
    ensures Chain(numbers) == Panicked
  {
    assert !IsI32(numbers[0] * 2);
  }

  /** The second `main`: the loop over [1, 2, 3] sums to 6. */
  method LoopOneToThree() returns (sum: int)
    ensures sum == 6
  {
    ChainOneToThree();
    sum := LoopSum([1, 2, 3]);
  }
}
