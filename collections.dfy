/** C#'s `List<T>`, for the places where the slicer changes a list in place. */
module Collections {

  function RemovedAt<T>(s: seq<T>, index: nat): (r: seq<T>)
    requires index < |s|
    ensures |r| == |s| - 1
    ensures forall j :: 0 <= j < index ==> r[j] == s[j]
    ensures forall j :: index <= j < |r| ==> r[j] == s[j + 1]
  {
    s[..index] + s[index + 1..]
  }

  class List<T> {
    var items: seq<T>

    constructor (items: seq<T>)
      ensures this.items == items
    {
      this.items := items;
    }

    function Count(): nat
      reads this
    {
      |items|
    }

    /** Indexing out of range throws in C#, so callers must stay in range. */
    method RemoveAt(index: int)
      requires 0 <= index < |items|
      modifies this
      ensures items == RemovedAt(old(items), index)
    {
      items := items[..index] + items[index + 1..];
    }

    method Add(item: T)
      modifies this
      ensures items == old(items) + [item]
    {
      items := items + [item];
    }

    method AddRange(more: seq<T>)
      modifies this
      ensures items == old(items) + more
    {
      items := items + more;
    }
  }
}
