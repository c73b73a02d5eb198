/** ArrayEx<T>: the reusable append buffer behind the callback queue. */
module Buffers {
  import opened Wrappers

  /**
   * The capacity a full buffer evidently should grow to: doubled (from 1 when it is 0) until
   * it exceeds the Length, so that slot Length exists.
   */
  function Grow(capacity: nat, index: nat): (c: nat)
    ensures c > index && c >= capacity
    decreases index + 2 - capacity
  {
    if capacity == 0 then Grow(1, index)
    else if capacity <= index then Grow(2 * capacity, index)
    else capacity
  }

  class ArrayEx<T(0)> {
    /** `_array`, `_capacity` and `_index` (the Length). */
    var arr: array<T>
    var capacity: int
    var index: int

    /** The capacity is the storage length and the Length never exceeds it. */
    ghost predicate Valid()
      reads this
    {
      capacity == arr.Length && 0 <= index <= capacity
    }

    /** The number of items added since the last Reset, never above the capacity. */
    function Length(): (n: int)
      reads this
      ensures Valid() ==> 0 <= n <= capacity
    {
      index
    }

    /** The items added since the last Reset, in order. */
    ghost function Items(): seq<T>
      reads this, arr
      requires Valid()
    {
      arr[..index]
    }

    /** A buffer of the given capacity (16 when not given) holding nothing. */
    constructor (capacity: nat := 16)
      ensures Valid() && fresh(arr)
      ensures this.capacity == capacity && index == 0
    {
      arr := new T[capacity];
      this.capacity := capacity;
      index := 0;
    }

    /** Indexer get: reads the storage slot, bounded by the storage length, not by Length. */
    function Get(i: int): (item: T)
      reads this, arr
      requires 0 <= i < arr.Length
      ensures Valid() && i < Length() ==> item == Items()[i]
    {
      arr[i]
    }

    /** Indexer set: writes the storage slot, bounded by the storage length, not by Length. */
    method Set(i: int, item: T)
      requires 0 <= i < arr.Length
      modifies arr
      ensures arr[..] == old(arr[..])[i := item]
    {
      arr[i] := item;
    }

    /**
     * The state a failed Add leaves: the Length was incremented before the write raised, so it
     * is one past the capacity.
     */
    ghost predicate Overrun()
      reads this
    {
      capacity == arr.Length && index == capacity + 1
    }

    /**
     * EnsureCapacity as written. With a free slot nothing changes. A full buffer gets a copy
     * of the same capacity: the doubling loop `while (_capacity < _index)` cannot run there.
     * After a failed Add (Overrun) the loop runs once, doubling the capacity, and the copy
     * keeps the old slots. From capacity 0 the source loop never ends, which is excluded here.
     */
    method EnsureCapacity()
      requires Valid() || (Overrun() && capacity > 0)
      modifies this
      ensures Valid() && index == old(index)
      ensures old(index) < old(capacity) ==> arr == old(arr) && capacity == old(capacity)
      ensures old(index) == old(capacity) ==> fresh(arr) && capacity == old(capacity) && arr[..] == old(arr[..])
      ensures old(index) > old(capacity) ==>
        fresh(arr) && capacity == 2 * old(capacity) && arr[..old(capacity)] == old(arr[..])
    {
      if index < capacity {
        return;
      }
      var c := capacity;
      while c < index
        invariant c == capacity || (c == 2 * capacity && capacity < index <= c)
        invariant c > 0 || index <= c
        decreases index - c
      {
        c := 2 * c;
      }
      capacity := c;
      var copy := new T[capacity];
      var i := 0;
      while i < arr.Length
        invariant 0 <= i <= arr.Length <= copy.Length
        invariant copy[..i] == arr[..i]
        modifies copy
      {
        copy[i] := arr[i];
        i := i + 1;
      }
      assert copy[..arr.Length] == arr[..];
      arr := copy;
    }

    /**
     * Add as written: EnsureCapacity, then `_array[_index++] = item`, which increments the
     * Length before the store. On a full buffer the copy EnsureCapacity makes has the same
     * size, so the store falls past its end and raises IndexOutOfRangeException, leaving the
     * buffer in Overrun. The next Add doubles the capacity and stores its item one slot past
     * the old capacity, so slot `capacity` is never written; from capacity 1 that store is out
     * of range again.
     */
    method AddAsWritten(item: T) returns (r: Outcome)
      requires Valid() || (Overrun() && capacity > 0)
      modifies this, arr
      ensures index == old(index) + 1
      ensures arr == old(arr) || fresh(arr)
      ensures capacity == if old(index) > old(capacity) then 2 * old(capacity) else old(capacity)
      ensures r.Fail? <==> old(index) == old(capacity) || (old(index) > old(capacity) && old(capacity) == 1)
      ensures r.Fail? ==> r.error == IndexOutOfRange && Overrun()
      ensures r.Fail? && old(index) == old(capacity) ==> arr[..] == old(arr[..])
      ensures r.Pass? ==> Valid() && arr[old(index)] == item
      ensures old(index) < old(capacity) ==> Valid() && Items() == old(Items()) + [item]
      ensures old(index) > old(capacity) ==> arr[..old(capacity)] == old(arr[..])
    {
      EnsureCapacity();
      var at := index;
      index := index + 1;
      if at >= arr.Length {
        return Fail(IndexOutOfRange);
      }
      arr[at] := item;
      r := Pass;
    }

    /**
     * Stores the item at slot Length and increments Length, a full buffer first moving to a
     * storage of Grow(capacity, Length) slots, which keeps its items; with a free slot the
     * storage stays.
     */
    method Add(item: T)
      requires Valid()
      modifies this, arr
      ensures Valid()
      ensures index == old(index) + 1
      ensures Items() == old(Items()) + [item]
      ensures old(index) < old(capacity) ==>
        arr == old(arr) && capacity == old(capacity) && arr[..] == old(arr[..])[old(index) := item]
      ensures old(index) == old(capacity) ==> fresh(arr) && capacity == Grow(old(capacity), old(index))
    {
      if index == capacity {
        SetCapacity(Grow(capacity, index));
      }
      arr[index] := item;
      index := index + 1;
    }

    /**
     * Reallocates the storage at the given capacity, keeping the first min(old length, capacity)
     * slots, and clamps Length to the capacity.
     */
    method SetCapacity(newCapacity: nat)
      requires Valid()
      modifies this
      ensures Valid() && fresh(arr)
      ensures capacity == newCapacity && arr.Length == newCapacity
      ensures index == if old(index) < newCapacity then old(index) else newCapacity
      ensures var kept := if old(arr.Length) < newCapacity then old(arr.Length) else newCapacity;
        arr[..kept] == old(arr[..kept])
    {
      capacity := newCapacity;
      var copy := new T[newCapacity];
      var kept := if arr.Length < capacity then arr.Length else capacity;
      var i := 0;
      while i < kept
        invariant 0 <= i <= kept <= copy.Length
        invariant copy[..i] == arr[..i]
        modifies copy
      {
        copy[i] := arr[i];
        i := i + 1;
      }
      arr := copy;
      index := if capacity < index then capacity else index;
    }

    /** Forgets the items: Length becomes 0, the storage and the capacity stay. */
    method Reset()
      requires Valid()
      modifies this
      ensures Valid()
      ensures index == 0 && arr == old(arr) && capacity == old(capacity)
      ensures Items() == []
    {
      index := 0;
    }
  }

  /**
   * A buffer of one slot takes one item. The engine's Add of a second raises, and so does a
   * third, each leaving the Length one past the capacity; a fourth is stored at slot 3 of a
   * storage of 4, so the buffer's Length counts four items of which only the first and the
   * last were stored. The corrected Add doubles the storage and keeps [1, 2].
   */
  method FullAddFails() returns (outcomes: seq<Outcome>, kept: seq<int>, grown: seq<int>)
    ensures outcomes == [Pass, Fail(IndexOutOfRange), Fail(IndexOutOfRange), Pass]
    ensures |kept| == 4 && kept[0] == 1 && kept[3] == 4
    ensures grown == [1, 2]
  {
    var b := new ArrayEx<int>(1);
    var first := b.AddAsWritten(1);
    var second := b.AddAsWritten(2);
    var third := b.AddAsWritten(3);
    var fourth := b.AddAsWritten(4);
    outcomes := [first, second, third, fourth];
    kept := b.arr[..b.index];
    var c := new ArrayEx<int>(1);
    c.Add(1);
    c.Add(2);
    grown := c.arr[..c.index];
  }
}
