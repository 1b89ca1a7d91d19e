/**
 * The in-memory database's index algebra (`dballe/memdb/core.h`):
 * `Positions`, an ordered set of row positions with an in-place
 * intersection, and `Index`, a map from a key to the positions holding it,
 * with `search` and `refine`.
 *
 * A `std::set<size_t>` is kept as its ascending sequence of elements, which
 * is the order its iterators walk.
 */
module MemdbCore {

  predicate StrictlySorted(s: seq<nat>)
  {
    forall a, b :: 0 <= a < b < |s| ==> s[a] < s[b]
  }

  function Elems(s: seq<nat>): set<nat>
  {
    set x | x in s
  }

  /** In a strictly ascending sequence every element of a suffix is at least its head. */
  lemma SortedSuffixAbove(s: seq<nat>, i: nat, x: nat)
    requires StrictlySorted(s) && i < |s| && x in s[i..]
    ensures s[i] <= x
    ensures x == s[i] || x in s[i + 1..]
  {
    var j :| i <= j < |s| && s[j] == x;
    if j > i {
      assert s[j] == s[i + 1..][j - i - 1];
    }
  }

  /** Indices of elements inside a vector: `Positions`, a `std::set<size_t>`. */
  class Positions {
    var items: seq<nat>

    ghost predicate Valid()
      reads this
    {
      StrictlySorted(items)
    }

    ghost function Contents(): set<nat>
      reads this
    {
      Elems(items)
    }

    constructor ()
      ensures Valid() && items == []
    {
      items := [];
    }

    /** `Positions::contains`: a membership lookup. */
    function Contains(val: nat): (r: bool)
      reads this
      requires Valid()
      ensures r <==> val in Contents()
    {
      val in items
    }

    /**
     * `Positions::inplace_intersect`: walk both ordered sets together,
     * erasing from this set each element the other one lacks, then erase
     * whatever is left after the other set runs out.
     */
    method InplaceIntersect(pos: seq<nat>)
      requires Valid() && StrictlySorted(pos)
      modifies this
      ensures Valid()
      ensures Contents() == old(Contents()) * Elems(pos)
      ensures Contents() <= old(Contents())
    {
      var ia, ib := 0, 0;
      while ia < |items| && ib < |pos|
        invariant StrictlySorted(items)
        invariant 0 <= ia <= |items| && 0 <= ib <= |pos|
        invariant old(Contents()) * Elems(pos)
                  == Elems(items[..ia]) + Elems(items[ia..]) * Elems(pos[ib..])
        invariant Elems(items) <= old(Contents())
        decreases |items| - ia + |pos| - ib
      {
        if items[ia] < pos[ib] {
          // erase(ia++)
          ghost var was := items;
          forall x | x in Elems(pos[ib..]) ensures x != was[ia] {
            SortedSuffixAbove(pos, ib, x);
          }
          items := items[..ia] + items[ia + 1..];
          assert items[..ia] == was[..ia];
          assert items[ia..] == was[ia + 1..];
          forall x | x in Elems(was[ia..]) ensures x == was[ia] || x in Elems(items[ia..]) {
            SortedSuffixAbove(was, ia, x);
          }
        } else if pos[ib] < items[ia] {
          forall x | x in Elems(items[ia..]) ensures x != pos[ib] {
            SortedSuffixAbove(items, ia, x);
          }
          forall x | x in Elems(pos[ib..]) ensures x == pos[ib] || x in Elems(pos[ib + 1..]) {
            SortedSuffixAbove(pos, ib, x);
          }
          ib := ib + 1;
        } else {
          assert items[..ia + 1] == items[..ia] + [items[ia]];
          forall x | x in Elems(items[ia..]) ensures x == items[ia] || x in Elems(items[ia + 1..]) {
            SortedSuffixAbove(items, ia, x);
          }
          forall x | x in Elems(pos[ib..]) ensures x == pos[ib] || x in Elems(pos[ib + 1..]) {
            SortedSuffixAbove(pos, ib, x);
          }
          ghost var rest := items[ia + 1..];
          forall x | x in rest ensures x != items[ia] {
            SortedSuffixAbove(items, ia + 1, x);
          }
          ia, ib := ia + 1, ib + 1;
        }
      }
      // erase(ia, end())
      items := items[..ia];
    }
  }

  /** `Index<T>`: the positions of the rows holding each key value. */
  class Index<K(==)> {
    var entries: map<K, seq<nat>>

    ghost predicate Valid()
      reads this
    {
      forall k :: k in entries ==> StrictlySorted(entries[k])
    }

    constructor ()
      ensures Valid() && entries == map[]
    {
      entries := map[];
    }

    /** The positions stored for a key; none for a key that is not indexed. */
    ghost function Lookup(el: K): set<nat>
      reads this
    {
      if el in entries then Elems(entries[el]) else {}
    }

    /** `Index::search`: a copy of the positions for `el`, or an empty set. */
    method Search(el: K) returns (r: Positions)
      requires Valid()
      ensures fresh(r) && r.Valid()
      ensures r.Contents() == Lookup(el)
    {
      r := new Positions();
      if el in entries {
        r.items := entries[el];
      }
    }

    /**
     * `Index::refine`: narrow `res` to the positions that also hold `el`.
     * An empty `res` is left alone, an unknown key empties it.
     */
    method Refine(el: K, res: Positions)
      requires Valid() && res.Valid()
      modifies res
      ensures res.Valid()
      ensures res.Contents() == old(res.Contents()) * Lookup(el)
      ensures old(res.Contents()) == {} ==> res.items == old(res.items)
    {
      if res.items == [] {
        return;
      }
      assert res.items[0] in res.Contents();
      if el !in entries {
        res.items := [];
        return;
      }
      res.InplaceIntersect(entries[el]);
    }
  }

  /** The set left by `refine` with `el`, as a value: `res ∩ index[el]`. */
  function RefineSet(entries: map<int, seq<nat>>, s: set<nat>, el: int): set<nat>
  {
    if s == {} then {}
    else if el !in entries then {}
    else s * Elems(entries[el])
  }

  /** `RefineSet` is what `Index::refine` leaves, as its postcondition states it with `Lookup`. */
  lemma RefineSetIsRefine(index: Index<int>, s: set<nat>, el: int)
    ensures RefineSet(index.entries, s, el) == s * index.Lookup(el)
  {
  }

  /**
   * Successive `Index::refine` calls, one per key (`sets[i]` the contents
   * before call `i`), leave `RefineChain` of the first contents.
   */
  lemma {:induction false} RefineCallsChain(index: Index<int>, sets: seq<set<nat>>, keys: seq<int>)
    requires |sets| == |keys| + 1
    requires forall i :: 0 <= i < |keys| ==> sets[i + 1] == sets[i] * index.Lookup(keys[i])
    ensures sets[|keys|] == RefineChain(index.entries, sets[0], keys)
    decreases |keys|
  {
    if keys != [] {
      RefineSetIsRefine(index, sets[0], keys[0]);
      assert forall i :: 0 <= i < |keys| - 1 ==> sets[1..][i + 1] == sets[i + 2] && keys[1..][i] == keys[i + 1];
      RefineCallsChain(index, sets[1..], keys[1..]);
    }
  }

  /** A chain of `refine` calls, one per key, in order. */
  function RefineChain(entries: map<int, seq<nat>>, s: set<nat>, keys: seq<int>): set<nat>
    decreases |keys|
  {
    if keys == [] then s else RefineChain(entries, RefineSet(entries, s, keys[0]), keys[1..])
  }

  /** Chained refinements have AND semantics: a position survives iff every key indexes it. */
  lemma {:induction false} RefineChainIsConjunction(entries: map<int, seq<nat>>, s: set<nat>, keys: seq<int>, x: nat)
    ensures x in RefineChain(entries, s, keys)
        <==> x in s && forall i :: 0 <= i < |keys| ==> keys[i] in entries && x in entries[keys[i]]
    decreases |keys|
  {
    if keys != [] {
      RefineChainIsConjunction(entries, RefineSet(entries, s, keys[0]), keys[1..], x);
      assert forall i :: 1 <= i < |keys| ==> keys[i] == keys[1..][i - 1];
      if x in s && forall i :: 1 <= i < |keys| ==> keys[i] in entries && x in entries[keys[i]] {
        assert x in RefineChain(entries, s, keys) <==> keys[0] in entries && x in entries[keys[0]];
      }
    }
  }
}
