/** `if`, `match` and loop forms, and editing and draining a `Vec`. */
module ControlFlow {
  import opened RustStd

  datatype Magnitude = LessThanTen | ExactlyTen | GreaterThanTen

  /** The `if` / `else if` / `else` chain comparing `number` with 10: exactly one branch runs. */
  function CompareWithTen(number: int): (m: Magnitude)
    ensures m == LessThanTen <==> number < 10
    ensures m == ExactlyTen <==> number == 10
    ensures m == GreaterThanTen <==> number > 10
  {
    if number < 10 then LessThanTen
    else if number == 10 then ExactlyTen
    else GreaterThanTen
  }

  /** `if condition { 5 } else { 10 }`. */
  function NumberFor(condition: bool): (number: int)
    ensures number == 5 <==> condition
    ensures number == 10 <==> !condition
  {
    if condition then 5 else 10
  }

  datatype Sign = Positive | Negative | Zero | NoValue

  /** The guarded `match` on an `Option<i32>`: by sign for `Some`, "no value" for `None`. */
  function ClassifySign(someValue: Option<int>): (s: Sign)
    ensures s == Positive <==> someValue.Some? && someValue.value > 0
    ensures s == Negative <==> someValue.Some? && someValue.value < 0
    ensures s == Zero <==> someValue == Some(0)
    ensures s == NoValue <==> someValue.None?
  {
    match someValue
    case Some(x) => if x > 0 then Positive else if x < 0 then Negative else Zero
    case None => NoValue
  }

  datatype NumberName = One | Two | Three | FourFiveOrSix | SevenToTen | SomeOther

  /** The `match` on an integer with single values, an alternative, a range and a default arm. */
  function NameNumber(number: int): (n: NumberName)
    ensures n == One <==> number == 1
    ensures n == Two <==> number == 2
    ensures n == Three <==> number == 3
    ensures n == FourFiveOrSix <==> 4 <= number <= 6
    ensures n == SevenToTen <==> 7 <= number <= 10
    ensures n == SomeOther <==> number < 1 || number > 10
  {
    match number
    case 1 => One
    case 2 => Two
    case 3 => Three
    case _ =>
      if number == 4 || number == 5 || number == 6 then FourFiveOrSix
      else if 7 <= number <= 10 then SevenToTen
      else SomeOther
  }

  /** `if let Some(x) = some_value && x > 5`: the body runs only for a `Some` above 5. */
  function IfLetAboveFive(someValue: Option<int>): (runs: bool)
    ensures runs <==> someValue.Some? && someValue.value > 5
  {
    match someValue
    case Some(x) => x > 5
    case None => false
  }

  /** The `main`s that fix their inputs: 5 is below ten, `Some(5)` is positive, 3 is "Three", `Some(7)` passes the guard. */
  lemma ClassifiedMains()
    ensures CompareWithTen(5) == LessThanTen
    ensures NumberFor(true) == 5
    ensures ClassifySign(Some(5)) == Positive
    ensures NameNumber(3) == Three
    ensures IfLetAboveFive(Some(7)) && !IfLetAboveFive(None)
  {
  }

  /** `loop` with `break` at 5: it prints 1, 2, 3, 4, 5 and stops with `counter == 5`. */
  method CountToFive() returns (printed: seq<int>, counter: int)
    ensures printed == Range(1, 6)
    ensures counter == 5
  {
    counter := 0;
    printed := [];
    while true
      invariant 0 <= counter < 5
      invariant printed == Range(1, counter + 1)
      decreases 5 - counter
    {
      counter := counter + 1;
      RangeSnoc(1, counter);
      printed := printed + [counter];
      if counter == 5 {
        break;
      }
    }
  }

  /** `while number != 0 { number -= 1 }`: visits `start` down to 1 and ends at 0 (a negative start would run until it overflowed). */
  method Countdown(start: int) returns (visited: seq<int>, number: int)
    requires start >= 0
    ensures number == 0
    ensures |visited| == start
    ensures forall j :: 0 <= j < start ==> visited[j] == start - j
  {
    number := start;
    visited := [];
    while number != 0
      invariant 0 <= number <= start
      invariant |visited| == start - number
      invariant forall j :: 0 <= j < |visited| ==> visited[j] == start - j
    {
      visited := visited + [number];
      number := number - 1;
    }
  }

  /** `main`: the countdown from 3 visits 3, 2, 1. */
  method CountdownFromThree() returns (visited: seq<int>)
    ensures visited == [3, 2, 1]
  {
    var number;
    visited, number := Countdown(3);
  }

  /** `for number in lo..hi`: the half-open range, empty when `hi <= lo`. */
  method ForRange(lo: int, hi: int) returns (visited: seq<int>)
    ensures visited == Range(lo, hi)
  {
    visited := [];
    var number := lo;
    while number < hi
      invariant lo <= number
      invariant number <= hi || number == lo
      invariant visited == Range(lo, number)
      decreases hi - number
    {
      RangeSnoc(lo, number);
      visited := visited + [number];
      number := number + 1;
    }
  }

  /** `main`: `1..4` visits 1, 2, 3 and not 4. */
  method OneToFour() returns (visited: seq<int>)
    ensures visited == [1, 2, 3]
  {
    visited := ForRange(1, 4);
  }

  /** `v[0] = 1`, `v.push(60)`, then `let Some(elem) = v.pop() else { todo!() }`. */
  method EditVector() returns (elem: int, v: seq<int>)
    ensures elem == 60
    ensures v == [1, 20, 30, 40, 50]
  {
    v := [10, 20, 30, 40, 50];
    v := v[0 := 1];
    v := v + [60];
    var (popped, rest) := VecPop(v);
    match popped
    case Some(e) =>
      elem, v := e, rest;
    case None =>
      assert false;
  }

  /** The order `pop` hands out a stack's elements: last first. */
  function Reversed(s: seq<int>): seq<int> {
    if s == [] then [] else [s[|s| - 1]] + Reversed(s[..|s| - 1])
  }

  /** Position `k` of the reversal holds the element `k` places from the end. */
  lemma {:induction false} ReversedAt(s: seq<int>, k: nat)
    requires k < |s|
    ensures |Reversed(s)| == |s|
    ensures Reversed(s)[k] == s[|s| - 1 - k]
  {
    if k > 0 {
      ReversedAt(s[..|s| - 1], k - 1);
    } else if |s| > 1 {
      ReversedAt(s[..|s| - 1], 0);
    }
  }

  /** `while let Some(top) = stack.pop()`: the elements come out last first, and the stack ends empty. */
  method DrainByPop(stack: seq<int>) returns (popped: seq<int>, remaining: seq<int>)
    ensures popped == Reversed(stack)
    ensures remaining == []
  {
    popped := [];
    remaining := stack;
    var next := VecPop(remaining);
    while next.0.Some?
      invariant next == VecPop(remaining)
      invariant popped + Reversed(remaining) == Reversed(stack)
      decreases |remaining|
    {
      var top := next.0.value;
      assert Reversed(remaining) == [top] + Reversed(next.1);
      popped := popped + [top];
      remaining := next.1;
      next := VecPop(remaining);
    }
  }

  /** `main`: pushing 1, 2, 3 and draining pops 3, 2, 1 and leaves the stack empty. */
  method PushThenDrain() returns (popped: seq<int>, stack: seq<int>)
    ensures popped == [3, 2, 1]
    ensures stack == []
  {
    stack := [];
    stack := stack + [1];
    stack := stack + [2];
    stack := stack + [3];
    assert stack == [1, 2, 3];
    ReversedAt(stack, 0);
    ReversedAt(stack, 1);
    ReversedAt(stack, 2);
    popped, stack := DrainByPop(stack);
  }
}
