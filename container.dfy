/** A `Container` trait with an associated `Item` type, implemented by a `Vec<i32>`-backed stack. */
module Container {

  class IntContainer {
    var items: seq<int>

    constructor (items: seq<int>)
      ensures this.items == items
    {
      this.items := items;
    }

    /** `add`: push `item` on the end; earlier items stay where they were. */
    method Add(item: int)
      modifies this
      ensures items == old(items) + [item]
      ensures |items| == |old(items)| + 1
    {
      items := items + [item];
    }

    /** `remove`: pop the last item; `pop().unwrap()` panics on an empty vector. */
    method Remove() returns (item: int)
      requires items != []
      modifies this
      ensures item == old(items)[|old(items)| - 1]
      ensures items == old(items)[..|old(items)| - 1]
      ensures |items| == |old(items)| - 1
    {
      item := items[|items| - 1];
      items := items[..|items| - 1];
    }
  }

  /** Adding then removing hands back the added item and restores the contents. */
  method AddThenRemove(c: IntContainer, x: int) returns (removed: int)
    modifies c
    ensures removed == x
    ensures c.items == old(c.items)
  {
    c.Add(x);
    removed := c.Remove();
    assert c.items == (old(c.items) + [x])[..|old(c.items)|];
  }

  /** `main` of the named-field variant: from empty, add 1001 and remove it. */
  method NamedFieldMain() returns (removed: int, remaining: seq<int>)
    ensures removed == 1001 && remaining == []
  {
    var a := new IntContainer([]);
    removed := AddThenRemove(a, 1001);
    remaining := a.items;
  }

  /** `main` of the tuple-struct variant: from [1, 2, 3], add 1001 and remove it. */
  method TupleStructMain() returns (removed: int, remaining: seq<int>)
    ensures removed == 1001 && remaining == [1, 2, 3]
  {
    var a := new IntContainer([1, 2, 3]);
    removed := AddThenRemove(a, 1001);
    remaining := a.items;
  }
}
