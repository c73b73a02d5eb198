/**
 * The collection operations the registries use: List.Remove (first occurrence), LINQ's
 * Distinct, and the enumeration of a dictionary's keys, whose order is left abstract.
 */
module Lists {

  /** A user callback (`Action<DateTime>`), known by its identity. */
  type Callback = nat

  predicate NoDuplicates<T(==)>(xs: seq<T>)
  {
    forall i, j | 0 <= i < j < |xs| :: xs[i] != xs[j]
  }

  /**
   * NoDuplicates stated from the front: the head is not in the tail, which repeats nothing.
   * The two say the same (NoRepeatsIff); this one unfolds one entry at a time.
   */
  predicate NoRepeats<T(==)>(xs: seq<T>)
  {
    |xs| <= 1 || (xs[0] !in xs[1..] && NoRepeats(xs[1..]))
  }

  lemma {:induction false} NoRepeatsIff<T>(xs: seq<T>)
    ensures NoRepeats(xs) <==> NoDuplicates(xs)
  {
    if |xs| > 1 {
      NoRepeatsIff(xs[1..]);
      if NoDuplicates(xs) {
        assert NoDuplicates(xs[1..]);
      }
      if NoRepeats(xs) {
        forall i, j | 0 <= i < j < |xs|
          ensures xs[i] != xs[j]
        {
          if i == 0 {
            assert xs[j] == xs[1..][j - 1];
          } else {
            assert xs[i] == xs[1..][i - 1] && xs[j] == xs[1..][j - 1];
          }
        }
      }
    }
  }

  /** The elements of a sequence. */
  function Elements<T>(xs: seq<T>): set<T>
  {
    set x | x in xs
  }

  /** A sequence has at most as many distinct elements as entries, and exactly as many just when it has no duplicates. */
  lemma {:induction false} ElementsCount<T>(xs: seq<T>)
    ensures |Elements(xs)| <= |xs|
    ensures NoDuplicates(xs) <==> |Elements(xs)| == |xs|
  {
    if xs != [] {
      var init, last := xs[..|xs| - 1], xs[|xs| - 1];
      ElementsCount(init);
      assert Elements(xs) == Elements(init) + {last};
      if NoDuplicates(xs) {
        assert NoDuplicates(init);
        assert last !in Elements(init);
      }
      if |Elements(xs)| == |xs| {
        assert last !in Elements(init) && NoDuplicates(init);
        forall i, j | 0 <= i < j < |xs|
          ensures xs[i] != xs[j]
        {
          if j < |xs| - 1 {
            assert xs[i] == init[i] && xs[j] == init[j];
          } else {
            assert xs[i] in Elements(init);
          }
        }
      }
    }
  }

  /** `List.Remove(x)`: drops the first occurrence of x, if any. */
  function RemoveFirst<T(==)>(xs: seq<T>, x: T): (r: seq<T>)
    ensures x !in xs ==> r == xs
    ensures x in xs ==> |r| == |xs| - 1
    ensures multiset(r) == multiset(xs) - multiset{x}
  {
    if |xs| == 0 then xs
    else if xs[0] == x then
      assert xs == [xs[0]] + xs[1..];
      xs[1..]
    else
      assert xs == [xs[0]] + xs[1..];
      [xs[0]] + RemoveFirst(xs[1..], x)
  }

  /** LINQ `Distinct()`: the first occurrence of every element, in order. */
  function Distinct(xs: seq<Callback>): (r: seq<Callback>)
    ensures NoDuplicates(r)
    ensures forall x :: x in r <==> x in xs
    ensures |r| <= |xs|
  {
    if |xs| == 0 then []
    else
      var d := Distinct(xs[..|xs| - 1]);
      assert forall x :: x in xs <==> x in xs[..|xs| - 1] || x == xs[|xs| - 1];
      if xs[|xs| - 1] in d then d else d + [xs[|xs| - 1]]
  }

  /**
   * The keys of a dictionary in its enumeration order. The order is not specified: any
   * listing of the keys without repetition may come out.
   */
  method Enumerate<K>(keys: set<K>) returns (r: seq<K>)
    ensures NoDuplicates(r) && |r| == |keys|
    ensures forall k :: k in r <==> k in keys
  {
    r := [];
    var rest := keys;
    while rest != {}
      invariant NoDuplicates(r)
      invariant forall k :: k in r <==> k in keys && k !in rest
      invariant rest <= keys
      invariant |r| + |rest| == |keys|
      decreases |rest|
    {
      var k :| k in rest;
      r := r + [k];
      rest := rest - {k};
    }
  }
}
