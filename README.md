# Verified models of rust-by-example snippets

The repository is a teaching corpus of small Rust programs, each showing one
language feature. This project models the ones that compute something —
linear scans, small stateful objects, selection and classification rules,
higher-order helpers, a coroutine and a string builder — one Dafny module per
source file, and proves what each snippet promises: its results, its
`assert_eq!`s and its tests.

Shared modules model the parts of Rust's standard library the snippets lean on:

- `RustStd` (rust_std.dfy): the `i32` range, `u8`, `Option`, the outcome of a call
  that may panic, the half-open range `lo..hi` and `Vec::pop`.
- `Utf8` (utf8.dfy): a `str` is its sequence of Unicode scalar values. Its bytes
  come from UTF-8 encoding, `len()` counts bytes, and `&s[..i]` is a byte-offset
  slice that panics off a character boundary.
- `Iter` (iter.dfy): the `map`, `filter` and `sum` iterator adapters, on the
  sequences they collect into.

Conventions:

- Where the source mutates an object through `&mut self`, the model is a class
  whose methods state the new state in terms of the old one.
- Where the source loops, the model is a method with a loop. It is proved
  against a specification function or against an outright property.
- Each `main` that computes from fixed inputs becomes a method or lemma proving the value
  it computes or asserts.
- Arithmetic that would overflow `i32` panics in a debug build. The model turns
  this into a precondition.
- Each operation's partner sits beside it:
  - `Counter.Collect` against the range it yields.
  - The iterator chain against the accumulating loop.
  - The byte version of `first_word` against the encoding of the intended word.
  - The `create_window!` macro against the `Config` default.
  - `filter` against its multiplicity and order-preservation lemmas.
  - The checked iterator chain against the unbounded sum and the no-overflow condition.
  - The stack drain against `Reversed`.

## Model

| member | source | states |
|---|---|---|
| RustStd.IsI32 | function.rs:4 | a value fits `i32`, from -2^31 to 2^31 - 1; arithmetic leaving this range panics in a debug build, so the model requires it |
| RustStd.Range | 2-control_flow.rs:103 | `lo..hi` visits lo, lo+1, ..., hi-1: it has hi-lo elements (none when hi <= lo) and element j is lo+j |
| RustStd.RangeSnoc | 2-control_flow.rs:103 | extending `lo..hi` by its end value appends that value |
| RustStd.VecPop | 2-control_flow.rs:135 | `pop` on an empty vector gives `None` and leaves it empty; otherwise it gives the last element, and appending that element to what remains restores the vector |
| Utf8.CharLen | iterator.rs:16 | a character takes 1 to 4 bytes, and exactly 1 when it is ASCII |
| Utf8.EncodeChar | iterator.rs:16 | a character takes 1 to 4 bytes; an ASCII character is the single byte of its code; every byte of a non-ASCII character is at least 0x80 |
| Utf8.Encode | iterator.rs:16 | `s.as_bytes()`: the UTF-8 bytes of the characters in order; `EncodeConcat` states it distributes over concatenation and `EncodeChar` gives each character's bytes |
| Utf8.Len | fn-generic-lifetime.rs:12 | `str::len()` counts bytes; `LenConcat` and `LenCountsAscii` state how it adds up and when it equals the character count |
| Utf8.EncodeConcat | unit-test.rs:2 | the bytes of a concatenation are the bytes of the parts, in order |
| Utf8.LenConcat | unit-test.rs:2 | `len()` of a concatenation is the sum of the lengths |
| Utf8.LenCountsAscii | iterator.rs:2-4 | a string has at least as many bytes as characters, and exactly as many if and only if it is all ASCII |
| Utf8.IsCharBoundary | iterator.rs:4 | byte offset `i` is where some character begins, or the end; `SliceToSucceedsIff` proves it is exactly when `&s[..i]` does not panic |
| Utf8.SliceTo | iterator.rs:4 | when `&s[..i]` returns, it returns a prefix of `s` that is exactly `i` bytes long |
| Utf8.SliceToBoundary | iterator.rs:19 | slicing at the byte offset where character k begins returns the first k characters |
| Utf8.SliceToSucceedsIff | iterator.rs:4 | `&s[..i]` returns if and only if byte offset `i` is a character boundary; otherwise it panics |
| Iter.Map | iterator_chain_iter_map_filter_sum.rs:4 | `map` keeps the length and applies the closure at every position |
| Iter.Filter | function.rs:63 | `filter` keeps only elements satisfying the predicate, and keeps every element that does |
| Iter.Sum | iterator_chain_iter_map_filter_sum.rs:6 | `sum()` adds the elements; `SumConcat` states it distributes over concatenation and `SumPositive` that positive terms give a non-negative sum |
| Iter.SumConcat | iterator_chain_iter_map_filter_sum.rs:6 | the sum of a concatenation is the sum of the parts' sums |
| Iter.SumPositive | iterator_chain_iter_map_filter_sum.rs:5-6 | a sum of positive terms is not negative |
| Iter.MapConcat | iterator_chain_iter_map_filter_sum.rs:4 | mapping distributes over concatenation, keeping the order |
| Iter.FilterMultiplicity | function.rs:63 | each element satisfying the predicate is kept exactly as often as it occurs, and the others never; with `FilterConcat` this fixes the result up to order and then the order |
| Iter.FilterConcat | cloned.rs:3 | filtering preserves relative order: it distributes over concatenation |
| Iter.FilterSamePredicate | function.rs:78 | two predicates that agree on every value filter alike |
| AlgoMax.MaxOf | algo-max.rs:1-10 | the maximum of a non-empty list is an element of it and is at least every element |
| AlgoMax.Max | algo-max.rs:1-10 | `max` needs a non-empty slice; after each step `largest` is the maximum of the prefix seen, so the result is an element and at least every element |
| SimpleSearch.FindValue | simple-search.rs:1-8 | `Some(i)` gives an index in range holding `target` with no earlier index holding it; `None` exactly when `target` occurs nowhere |
| SimpleSearch.SearchThree | simple-search.rs:10-16 | searching 3 in [1, 2, 3, 4, 5] gives `Some(2)` |
| FirstWord.IndexOf | iterator.rs:2-6 | the first position holding `x`, or the length when there is none: no `x` before it, and `x` at it when it is in range |
| FirstWord.IndexOfAt | iterator.rs:3-4 | an `x` with no `x` before it is at the index the early return reports |
| FirstWord.ByChars | iterator.rs:1-8 | the character version's result, as written: the byte slice taken at the space's character index; `ByCharsCorrectIff`, `ByCharsPanicsOnCafe` and `ByCharsCutsWord` state when it is right and how it fails |
| FirstWord.FirstWordByChars | iterator.rs:1-8 | the character version returns the byte-offset slice taken at the character index of the first space, or the whole string |
| FirstWord.NoSpaceByte | iterator.rs:18 | no character other than the space has the byte 0x20 among its bytes |
| FirstWord.NoSpaceEncode | iterator.rs:18 | a string without a space has no 0x20 byte |
| FirstWord.SpaceByteAfterWord | iterator.rs:17-19 | after a word without a space, no 0x20 byte occurs before the word's byte length, and a space right after the word puts a 0x20 byte exactly there |
| FirstWord.FirstWordByBytes | iterator.rs:15-23 | the byte version never panics and returns the characters before the first space: a prefix without a space, followed by a space unless it is all of `s` |
| FirstWord.ByCharsPrefix | iterator.rs:1-8 | whenever the character version returns, it returns a prefix of `s` containing no space |
| FirstWord.ByCharsCorrectIff | iterator.rs:2-4 | the character version returns the first word if and only if there is no space or every character before it is ASCII |
| FirstWord.ByCharsAscii | iterator.rs:17-19 | with only ASCII before the first space, the character version agrees with the byte version |
| FirstWord.ByCharsPanicsOnCafe | iterator.rs:4 | on "café au lait" the character version panics |
| FirstWord.ByCharsCutsWord | iterator.rs:4 | on "éé x" the character version returns "é", not the first word "éé" |
| FirstWord.AsciiWordThenSpace | iterator.rs:1-8 | an ASCII word without a space, followed by a space, is what both versions return |
| FirstWord.GoodMorningWord | iterator.rs:9-12 | the first word of "good morning" is "good" in both versions |
| CounterIterator.Counter.constructor | associated_type_and_default_method.rs:16-18 | a counter holds the `i32` it is built with |
| CounterIterator.Counter.Next | associated_type_and_default_method.rs:23-30 | every call adds one to `count`, also those returning `None`; the result is `Some(count)` exactly when the new count is below 6 |
| CounterIterator.Counter.Collect | associated_type_and_default_method.rs:7-13 | `collect` pushes each `Some` in order and stops at the first `None`: from count c it returns c+1, ..., 5, which is empty when c >= 5, and leaves count at max(c, 5) + 1 |
| CounterIterator.CollectFromZero | associated_type_and_default_method.rs:33-37 | collecting a counter from 0 gives [1, 2, 3, 4, 5] and leaves it at 6 |
| Container.IntContainer.constructor | associated_type.rs:25-27 | a container holds the vector it is built with |
| Container.IntContainer.Add | associated_type.rs:15-17 | `add` appends the item; the length grows by one and earlier items are unchanged |
| Container.IntContainer.Remove | associated_type.rs:19-21 | `remove` needs a non-empty container (`unwrap` panics otherwise), returns the last item and drops only it |
| Container.AddThenRemove | associated_type.rs:28-29 | `add(x)` then `remove()` returns `x` and restores the original contents |
| Container.NamedFieldMain | associated_type.rs:24-30 | from empty, adding and removing 1001 returns 1001 and leaves the container empty |
| Container.TupleStructMain | associated_type.rs:54-58 | from [1, 2, 3], adding and removing 1001 returns 1001 and leaves [1, 2, 3] |
| IntoIterator.MyCollection.New | IntoIterator.rs:9-11 | `new` creates an empty collection |
| IntoIterator.MyCollection.Add | IntoIterator.rs:13-15 | `add` appends at the end and leaves the existing elements unchanged |
| IntoIterator.MyCollection.IntoIter | IntoIterator.rs:23-25 | `into_iter` yields the elements in insertion order |
| IntoIterator.EnumerateMatchesIndex | IntoIterator.rs:28-39 | after adding 0, 1, 2, every element equals its enumeration index, so no `assert_eq!` fails |
| Functions.I32Place.constructor | function.rs:8 | the `i32` place `add_one` borrows mutably holds the value it is made with |
| Functions.AddOne | function.rs:3-5 | `add_one` increases the referenced `i32` by exactly one, below `i32::MAX` |
| Functions.AddOneToFive | function.rs:7-11 | `num` goes from 5 to 6 |
| Functions.Square | function.rs:14-16 | within the `i32` range the square is a non-negative `i32` and is zero only for zero |
| Functions.SquareOfFour | function.rs:18-21 | the square of 4 is 16 |
| Functions.Add | function.rs:36-38 | `add` gives the sum of `a` and `b`, an `i32` when the sum does not overflow |
| Functions.ApplyOperation | function.rs:40-42 | `apply_operation` calls `op` on `x` and `y` wherever `op` is defined; `ApplyAdd` states what it returns for `add` |
| Functions.ApplyAdd | function.rs:40-42 | `apply_operation` with `add` gives the sum of its two arguments |
| Functions.ApplyAddToTwoAndThree | function.rs:44-47 | `apply_operation(add, 2, 3)` is 5 |
| Functions.IsEven | function.rs:51-53 | `is_even` (both the `&i32` version and the `i32` one at function.rs:73-75) tests the low bit of the two's-complement pattern; `IsEvenIff` states it decides evenness |
| Functions.ModTwo | function.rs:52 | reducing an `i32` to its unsigned 32-bit pattern keeps its parity |
| Functions.Bits | function.rs:52 | the two's-complement pattern of an `i32` as an unsigned 32-bit word; `IsEvenIff` states what its low bit decides |
| Functions.LowBit | function.rs:52 | the low bit of an unsigned 32-bit word is zero exactly when the word is even |
| Functions.IsEvenIff | function.rs:51-53 | `n & 1 == 0` on the two's-complement bits holds exactly when `n` is even, negative `n` included |
| Functions.Filter | function.rs:59-64 | `filter` keeps exactly the elements satisfying the predicate, each as often as it occurs in `arr` |
| Functions.FilterWrapped | function.rs:77-79 | wrapping the function pointer in a dereferencing closure filters exactly as the generic version does |
| Functions.EvensUpToSix | function.rs:66-70 | keeping the numbers with remainder 0 modulo 2 from [1, 2, 3, 4, 5, 6] gives [2, 4, 6] |
| Functions.FilterWrappedEvens | function.rs:81-85 | the second `main`, through the dereferencing wrapper, also gives [2, 4, 6] |
| Functions.FilterEvens | function.rs:66-70 | filtering [1, 2, 3, 4, 5, 6] with `is_even` gives [2, 4, 6] |
| Functions.SquarePlusCaptured | function.rs:96-97 | the capturing closure's result is an `i32` no smaller than the captured `x`, and equals `x` exactly when `n` is 0 |
| Functions.CapturedSquareOfTwo | function.rs:95-99 | with `x` captured as 4, `square(2)` is 8 |
| Functions.MadeClosure.Make | function.rs:108-109 | the closure `make` returns starts with its own `x` at 9 |
| Functions.MadeClosure.Call | function.rs:110-114 | each call decrements the captured `x` and returns `n * n` plus the new `x` |
| Functions.CallMadeThrice | function.rs:102-107 | three calls with 1 return 9, 8 and 7 |
| Functions.GenericFunction | function.rs:142-144 | each of the three clones equals `x` |
| Functions.GenericWhere | function.rs:146-150 | `x + x + x` is three times `x`, a multiple of 3 |
| Functions.GenericWhereOfFive | function.rs:152-156 | `generic_where(5)` is 15 |
| GenericParameter.Largest | generic_parameter.rs:1-7 | the result is at least both arguments and is one of them |
| GenericParameter.LargestOfOneAndNine | generic_parameter.rs:9-12 | `largest(1, 9)` is 9 |
| GenericParameter.Mix | generic_parameter.rs:15-17 | the pair's components are `t` and `u`, unchanged |
| GenericParameter.MixMain | generic_parameter.rs:19-22 | `mix(1001, b'a')` is the pair (1001, 97) |
| GenericParameter.WindowTitle | generic_parameter.rs:49 | the title is "Untitled" when `config.title` is `None`, otherwise the given string |
| GenericParameter.CreateWindow | generic_parameter.rs:48-51 | the window shows the title rule's result and the config's width and height |
| GenericParameter.CreateWindowInner | generic_parameter.rs:72-74 | the window shows exactly the given title, width and height |
| GenericParameter.CreateWindowMacro | generic_parameter.rs:62-70 | the two-argument arm uses "Untitled"; the three-argument arm uses the given title |
| GenericParameter.MacroAgreesWithConfig | generic_parameter.rs:64-68 | the macro's default and the `Option` default give the same window for every width, height and title |
| GenericParameter.MainWindows | generic_parameter.rs:53-59 | 800x600 without a title is "Untitled"; with "My App" it is "My App", by `Config` and by macro alike |
| GenericLifetime.Longest | fn-generic-lifetime.rs:11-17 | the result is one of the inputs and has the larger byte length; on a tie it is `y` |
| GenericLifetime.LongestAbcdHij | fn-generic-lifetime.rs:1-9 | `longest("abcd", "hij")` is "abcd" |
| IteratorChain.Double | iterator_chain_iter_map_filter_sum.rs:4 | the doubling closure of the `map`; `ChainSumSnoc` states the term it contributes |
| IteratorChain.ExceedsFive | iterator_chain_iter_map_filter_sum.rs:5 | the `filter` closure testing `x > 5`; `ChainSumSnoc` states which terms it keeps |
| IteratorChain.ChainSum | iterator_chain_iter_map_filter_sum.rs:3-6 | the unbounded value of the chain; `Chain` returns exactly this when nothing overflows, and the lemmas below state how it grows |
| IteratorChain.DoublesFit | iterator_chain_iter_map_filter_sum.rs:4 | every `x * 2` of the `map` is an `i32`; `DoublesFitCons` splits it at the first element |
| IteratorChain.DoublesFitCons | iterator_chain_iter_map_filter_sum.rs:4 | the doublings fit exactly when the first one does and those after it do |
| IteratorChain.NoOverflow | iterator_chain_iter_map_filter_sum.rs:3-6 | the no-panic condition: every doubling and the total fit in `i32`; `CheckedChainIff` proves it is exactly when the chain does not panic |
| IteratorChain.ChainSumCons | iterator_chain_iter_map_filter_sum.rs:3-6 | the chain is the first element's term (its double when that exceeds 5, else nothing) plus the chain over the rest |
| IteratorChain.ChainSumNonNegative | iterator_chain_iter_map_filter_sum.rs:5-6 | the chain is never negative, since only terms above 5 are summed |
| IteratorChain.CheckedChain | iterator_chain_iter_map_filter_sum.rs:3-6 | the chain as a debug build runs it, element by element, panicking when a doubling or a step of the `sum()` fold leaves `i32`; `CheckedChainIff` states its result |
| IteratorChain.FoldSumIsChainSum | iterator_chain_iter_map_filter_sum.rs:3-6 | adding each element's term in turn (its double when that exceeds 5) gives exactly the `map`-`filter`-`sum` chain |
| IteratorChain.CheckedChainIff | iterator_chain_iter_map_filter_sum.rs:3-6 | from a fold value in `i32` and not negative, the checked chain returns that value plus the remaining terms exactly when every doubling and that total fit in `i32`, and panics otherwise |
| IteratorChain.Chain | iterator_chain_iter_map_filter_sum.rs:3-6 | the chain returns if and only if nothing overflows, and then returns the unbounded sum, which is an `i32` |
| IteratorChain.ChainMainReturns | iterator_chain_iter_map_filter_sum.rs:1-8 | over [1, 2, 3, 4, 5] the chain does not panic and returns 24 |
| IteratorChain.ChainPanicsOnOverflow | iterator_chain_iter_map_filter_sum.rs:4 | over [2^30] the doubling overflows, so the chain panics |
| IteratorChain.ChainSumConcat | iterator_chain_iter_map_filter_sum.rs:3-6 | the chain over a concatenation is the sum of the chains over its parts |
| IteratorChain.ChainSumSnoc | iterator_chain_iter_map_filter_sum.rs:15-18 | one more element adds `2 * x` exactly when `2 * x > 5` |
| IteratorChain.ChainSumPrefix | iterator_chain_iter_map_filter_sum.rs:16-17 | every prefix's chain sum lies between 0 and the whole sum, so the running sum cannot overflow when the total does not |
| IteratorChain.Term | iterator_chain_iter_map_filter_sum.rs:15-18 | what one element adds: its double when that exceeds 5, else nothing; `ChainSumCons` and `ChainSumSnoc` state it |
| IteratorChain.FoldSum | iterator_chain_iter_map_filter_sum.rs:13-19 | the loop's running total, element by element; `FoldSumIsChainSum` proves it equals the chain |
| IteratorChain.LoopStep | iterator_chain_iter_map_filter_sum.rs:15-18 | under the no-overflow condition each `num * 2` fits in `i32`, the step adds it exactly when it exceeds 5, and the running sum after the step fits in `i32` |
| IteratorChain.LoopSum | iterator_chain_iter_map_filter_sum.rs:13-19 | the accumulating loop computes exactly the chain's sum, overflowing neither `num * 2` nor `sum += x` |
| IteratorChain.ChainOneToThree | iterator_chain_iter_map_filter_sum.rs:11 | the chain over the second `main`'s [1, 2, 3] is 6: only the double of 3 exceeds 5 |
| IteratorChain.ChainOneToFive | iterator_chain_iter_map_filter_sum.rs:1-8 | the chain over [1, 2, 3, 4, 5] is 24 |
| IteratorChain.LoopOneToThree | iterator_chain_iter_map_filter_sum.rs:10-22 | the loop over [1, 2, 3] sums to 6 |
| Cloned.KeepSingletons | cloned.rs:3 | the result holds only vectors of length 1 taken from `a`, and every such vector of `a` exactly as often as it occurs there |
| Cloned.HasLengthOne | cloned.rs:3 | the closure `s.len() == 1`; `KeepSingletons` states what it keeps |
| Cloned.KeepSingletonsExample | cloned.rs:1-4 | of [0, 1, 2], [3, 4] and [23], only [23] is kept |
| ControlFlow.CompareWithTen | 2-control_flow.rs:4-10 | the `< 10`, `== 10` and `> 10` branches are each taken exactly when their condition holds |
| ControlFlow.NumberFor | 2-control_flow.rs:15 | the number is 5 exactly when the condition holds and 10 exactly when it does not |
| ControlFlow.ClassifySign | 2-control_flow.rs:47-52 | a `Some` goes to positive, negative or zero by its sign and `None` to "no value", each if and only if |
| ControlFlow.NameNumber | 2-control_flow.rs:58-65 | 1, 2, 3, 4-6, 7-10 and every other number each reach exactly one arm |
| ControlFlow.IfLetAboveFive | 2-control_flow.rs:72 | the guarded `if let` body runs exactly for a `Some` above 5 |
| ControlFlow.ClassifiedMains | 2-control_flow.rs:55-66 | the fixed inputs: 5 is below ten, `Some(5)` is positive, 3 is "Three", `Some(7)` passes the guard |
| ControlFlow.CountToFive | 2-control_flow.rs:78-89 | the `loop` runs five times, printing 1 to 5, and exits with `counter == 5` |
| ControlFlow.Countdown | 2-control_flow.rs:94-97 | from a non-negative start the countdown visits start, ..., 1 and ends at 0 |
| ControlFlow.CountdownFromThree | 2-control_flow.rs:91-100 | the countdown from 3 visits 3, 2, 1 |
| ControlFlow.ForRange | 2-control_flow.rs:103-105 | the `for` over `lo..hi` visits exactly the half-open range |
| ControlFlow.OneToFour | 2-control_flow.rs:102-108 | `1..4` visits 1, 2, 3 |
| ControlFlow.EditVector | 2-control_flow.rs:130-137 | after `v[0] = 1`, `push(60)` and `pop()`, the popped value is 60 and `v` is [1, 20, 30, 40, 50]; the `todo!()` arm is unreachable |
| ControlFlow.Reversed | 2-control_flow.rs:146 | the order in which `pop` hands out a stack's elements; `ReversedAt` states position k is the element k places before the end |
| ControlFlow.ReversedAt | 2-control_flow.rs:146 | popping hands out position k of the drained sequence from k places before the end |
| ControlFlow.DrainByPop | 2-control_flow.rs:146-148 | `while let Some(top) = stack.pop()` yields the elements last first and leaves the stack empty |
| ControlFlow.PushThenDrain | 2-control_flow.rs:139-149 | pushing 1, 2, 3 and draining pops 3, 2, 1 and leaves the stack empty |
| ControlFlowExamples.ClassifyLength | control-flow-examples.rs:14-20 | the length arms partition all lengths: 0, 1, 2-10, 11 and more than 11 |
| ControlFlowExamples.PushClassifyDrain | control-flow-examples.rs:1-26 | after `push(5)` the values are [1, 2, 3, 4, 5]; `len() > 5` is false; the length falls in `2..=10`; the drain yields 5, 4, 3, 2, 1 and ends empty |
| Coroutines.Coroutine.constructor | coroutine.rs:7-11 | a new coroutine has not started |
| Coroutines.Coroutine.Resume | coroutine.rs:7-11 | resume k (counting from 0) yields the k-th `yield` value in source order while any remain; the next resume completes; resuming after completion is excluded (it panics) |
| Coroutines.ResumeFourTimes | coroutine.rs:16-20 | four resumes give `Yielded(1)`, `Yielded(2)`, `Yielded(3)`, `Complete(())` |
| Greeting.Greeting | unit-test.rs:1-3 | the greeting is "hi " followed by the name, three bytes longer than the name |
| Greeting.Contains | unit-test.rs:12 | `s.contains(t)`: `t` occurs in `s` at some position; `GreetingContainsName` states it for every greeting |
| Greeting.GreetingContainsName | unit-test.rs:10-12 | every greeting contains the name it was given |
| Greeting.GreetingContainsCarol | unit-test.rs:9-13 | the greeting for "carol" contains "carol" |

## Findings

| source | as written | input that shows it | evidently intended | confidence | as-written member | corrected member |
|---|---|---|---|---|---|---|
| iterator.rs:2-4 | the loop finds the space by its character index `i` from `chars().enumerate()`, then slices `&s[..i]`, which takes `i` as a byte offset | "café au lait": the space is character 4, but byte 4 is inside 'é', so the slice panics; "éé x" returns "é" | the characters before the first space, as the byte version at iterator.rs:15-23 returns | high for any non-ASCII character before the first space; not executed | FirstWord.ByCharsPanicsOnCafe | FirstWord.FirstWordByBytes |

`FirstWord.ByCharsCutsWord` shows the wrong-result case. `FirstWord.ByCharsCorrectIff` shows which inputs the character version gets right.

## Left out

- Printing. `println!` output is not modelled; the model keeps the values that would be printed.
- Lifetimes and moves. Borrows, lifetime annotations (fn-generic-lifetime.rs:11) and moves are not modelled. Strings, vectors and slices are immutable values, so "the input is unchanged" holds by construction (algo-max.rs, simple-search.rs, iterator_chain_iter_map_filter_sum.rs, cloned.rs).
- `i32` element types. Where a snippet does no arithmetic on its elements, they are `int`: `max`, `find_value`, the containers and the stack.
- Overflow. Each overflow of `i32` is a precondition, not a panic or a wrap-around: `Counter.Next`, `AddOne`, `Square`, `Add`, `MadeClosure.Call`, `SquarePlusCaptured`, `GenericWhere` and `LoopSum`. The iterator chain is the exception: `IteratorChain.Chain` returns or panics exactly as a debug build does.
- Unicode. `Utf8` takes a `str` to be well-formed UTF-8; invalid byte sequences cannot arise in the model.
- Functions.Filter: the predicate is a pure function; an `FnMut` predicate that changes its own state between calls is not modelled.
- GenericParameter.Largest: modelled at `i32`. Other `PartialOrd` types, including ones with incomparable values such as NaN, are not modelled; for `i32` the "ties return `b`" rule cannot be observed.
- GenericParameter.Mix and Functions.GenericFunction: modelled at arbitrary value types; `Clone` is taken to give an equal value.
- Config sizes. `Config`'s `u32` width and height are `nat`; they are only displayed.
- ControlFlow.Countdown: generalised from the fixed start 3 to any non-negative start. A negative start would count down until `i32::MIN - 1` overflowed.
- The second trait variant. associated_type_and_default_method.rs:42-72 takes the counter by value in `collect`. `Counter.Collect` models both; the by-value caller just cannot see the final count.
- The tuple struct. associated_type.rs:40-52 is the same `IntContainer` with its vector in field `.0`; `Container.IntContainer` models both variants.
- The second `is_even`. function.rs:73-75 takes `i32` by value instead of `&i32`; `Functions.IsEven` models both.
- The unit-returning `square`. function.rs:25-27 computes `x * x` only to discard it; its one observable effect is the overflow panic.
- Other function.rs snippets. `standalone_function`, `public_thing` (no body, does not compile) and `Thing::new` are illustrations that compute nothing beyond a literal.
- IteratorChain.ChainSum: it is the unbounded sum. `Chain` is the partial version that panics where a debug build does.
- Print-only snippets. The first `Config` variant (generic_parameter.rs:25-39), the `if let` and `match` on `Some(5)` (2-control_flow.rs:20-42) and the array iterations (2-control_flow.rs:110-128) only print.
- Coroutine internals. `Pin` and the coroutine's memory layout are not modelled. The state machine is a class whose `resumed` field is the program counter.
