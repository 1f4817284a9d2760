/**
 * An `Iterator` trait whose `collect` is a default method draining `next`,
 * and `Counter`, whose `next` counts up and yields values below 6.
 */
module CounterIterator {
  import opened RustStd

  class Counter {
    var count: int

    ghost predicate Valid()
      reads this
    {
      IsI32(count)
    }

    constructor (count: int)
      requires IsI32(count)
      ensures Valid() && this.count == count
    {
      this.count := count;
    }

    /**
     * `Counter::next`: every call adds one to `count`, also the calls that
     * return `None`; `count += 1` on `i32::MAX` would overflow.
     */
    method Next() returns (item: Option<int>)
      requires Valid() && count < I32_MAX
      modifies this
      ensures Valid()
      ensures count == old(count) + 1
      ensures item.Some? <==> count < 6
      ensures item.Some? ==> item.value == count
    {
      count := count + 1;
      if count < 6 {
        item := Some(count);
      } else {
        item := None;
      }
    }

    /**
     * The default `collect`: push every `Some` from `next`, in order, and
     * stop at the first `None`. From `count` c it collects c+1, ..., 5 and
     * leaves `count` one past the larger of c and 5.
     */
    method Collect() returns (collection: seq<int>)
      requires Valid() && count < I32_MAX
      modifies this
      ensures Valid()
      ensures collection == Range(old(count) + 1, 6)
      ensures old(count) >= 5 ==> collection == []
      ensures count == (if old(count) < 5 then 5 else old(count)) + 1
    {
      var start := count;
      collection := [];
      var item := Next();
      while item.Some?
        invariant Valid() && start < count
        invariant item.Some? ==> count < 6 && item.value == count
        invariant item.None? ==> count >= 6
        invariant start < 5 ==> count <= 6
        invariant start >= 5 ==> count == start + 1
        invariant collection == Range(start + 1, count)
        decreases 6 - count
      {
        RangeSnoc(start + 1, count);
        collection := collection + [item.value];
        item := Next();
      }
    }
  }

  /** `main` (both trait variants): collecting a counter from 0 gives [1, 2, 3, 4, 5] and leaves it at 6. */
  method CollectFromZero() returns (collected: seq<int>, finalCount: int)
    ensures collected == [1, 2, 3, 4, 5]
    ensures finalCount == 6
  {
    var counter := new Counter(0);
    collected := counter.Collect();
    finalCount := counter.count;
    assert collected == Range(1, 6);
    assert collected[0] == 1 && collected[1] == 2 && collected[2] == 3;
    assert collected[3] == 4 && collected[4] == 5;
  }
}
