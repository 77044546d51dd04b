/** The CRingBuffer byte queue, seen through its contents. */
module RingBuffers {
  import opened YsfDefines

  class RingBuffer {
    const capacity: nat
    var items: seq<byte>

    ghost predicate Valid()
      reads this
    {
      |items| <= capacity
    }

    constructor (capacity: nat)
      ensures Valid() && this.capacity == capacity && items == []
    {
      this.capacity := capacity;
      items := [];
    }

    function FreeSpace(): (n: nat)
      reads this
      requires Valid()
      ensures n + |items| == capacity
    {
      capacity - |items|
    }

    predicate IsEmpty()
      reads this
    {
      |items| == 0
    }

    /** Appends all of s, or nothing when s does not fit. */
    method AddData(s: seq<byte>) returns (ok: bool)
      requires Valid()
      modifies this
      ensures Valid()
      ensures ok == (|s| <= old(FreeSpace()))
      ensures items == if ok then old(items) + s else old(items)
    {
      ok := |s| <= FreeSpace();
      if ok {
        items := items + s;
      }
    }

    /** Removes and returns the n oldest bytes, or nothing when fewer are held. */
    method GetData(n: nat) returns (ok: bool, s: seq<byte>)
      requires Valid()
      modifies this
      ensures Valid()
      ensures ok == (n <= |old(items)|)
      ensures ok ==> s == old(items)[..n] && items == old(items)[n..]
      ensures !ok ==> s == [] && items == old(items)
    {
      ok := n <= |items|;
      if ok {
        s := items[..n];
        items := items[n..];
      } else {
        s := [];
      }
    }
  }
}
