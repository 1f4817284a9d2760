/** `MyCollection`, a wrapper over `Vec<i32>` that implements `IntoIterator`. */
module IntoIterator {

  class MyCollection {
    var elems: seq<int>

    /** `MyCollection::new`: an empty collection. */
    constructor New()
      ensures elems == []
    {
      elems := [];
    }

    /** `add`: append at the end, leaving the existing elements unchanged. */
    method Add(elem: int)
      modifies this
      ensures elems == old(elems) + [elem]
    {
      elems := elems + [elem];
    }

    /** `into_iter`: the elements in insertion order. */
    method IntoIter() returns (it: seq<int>)
      ensures it == elems
    {
      it := elems;
    }
  }

  /** `main`: after adding 0, 1, 2, the enumeration index of each element equals the element. */
  method EnumerateMatchesIndex() returns (items: seq<int>)
    ensures items == [0, 1, 2]
    ensures forall i :: 0 <= i < |items| ==> items[i] == i
  {
    var c := new MyCollection.New();
    c.Add(0);
    c.Add(1);
    c.Add(2);
    items := c.IntoIter();
    for i := 0 to |items| {
      assert items[i] == i;
    }
  }
}
