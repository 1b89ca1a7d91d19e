/**
 * `Intersection<ITER>` (`dballe/core/stlutils.h`): a lazy view of the
 * values common to several sorted sequences, walked by an iterator that
 * keeps one cursor per sequence and re-synchronises them after each step.
 *
 * A `(begin, end)` pair of iterators over a sorted container is a
 * `Cursor`: the container's elements and the offset of `begin`. Values are
 * integers (the index positions the memdb intersects).
 */
module StlUtils {

  predicate Ascending(s: seq<int>)
  {
    forall a, b :: 0 <= a < b < |s| ==> s[a] < s[b]
  }

  /** `Intersection::Sequence`: `begin` is `vals[pos]`, `end` is `vals[|vals|]`. */
  datatype Cursor = Cursor(vals: seq<int>, pos: nat)
  {
    predicate Inside() { pos <= |vals| }
    /** `Sequence::valid`: `begin != end`. */
    predicate IsValid() { pos < |vals| }
    function Head(): int requires IsValid() { vals[pos] }
    /** `Sequence::next`: `++begin`. */
    function Next(): Cursor requires IsValid() { Cursor(vals, pos + 1) }
    /** The values still ahead of the cursor. */
    function Rest(): seq<int> requires Inside() { vals[pos..] }
  }

  /** Values contained in every one of the sequences. */
  ghost function Common(seqs: seq<seq<int>>): set<int>
    requires |seqs| > 0
  {
    set v | v in seqs[0] && forall i :: 0 <= i < |seqs| ==> v in seqs[i]
  }

  predicate WellFormed(iters: seq<Cursor>)
  {
    forall i :: 0 <= i < |iters| ==> iters[i].Inside() && Ascending(iters[i].vals)
  }

  /** Values still ahead of every cursor. */
  ghost function AheadOfAll(iters: seq<Cursor>): set<int>
    requires |iters| > 0 && WellFormed(iters)
  {
    set v | v in iters[0].Rest() && forall i :: 0 <= i < |iters| ==> v in iters[i].Rest()
  }

  /** Every cursor points at the same value. */
  predicate Synced(iters: seq<Cursor>)
  {
    |iters| > 0
    && (forall i :: 0 <= i < |iters| ==> iters[i].IsValid())
    && (forall i :: 0 <= i < |iters| ==> iters[i].Head() == iters[0].Head())
  }

  /** Positions the cursors of `b` at or after those of `a`, over the same values. */
  predicate SameSequences(a: seq<Cursor>, b: seq<Cursor>)
  {
    |a| == |b| && forall i :: 0 <= i < |a| ==> a[i].vals == b[i].vals
  }

  lemma RestAbove(c: Cursor, v: int)
    requires c.IsValid() && Ascending(c.vals) && v in c.Rest()
    ensures c.Head() <= v
    ensures v == c.Head() || v in c.Next().Rest()
  {
    var j :| c.pos <= j < |c.vals| && c.vals[j] == v;
    if j > c.pos {
      assert c.vals[j] == c.Next().Rest()[j - c.pos - 1];
    }
  }

  /** Stepping cursor k past a value that is not common to all leaves the common values alone. */
  lemma StepKeepsAhead(iters: seq<Cursor>, k: nat)
    requires |iters| > 0 && WellFormed(iters) && k < |iters| && iters[k].IsValid()
    requires iters[k].Head() !in AheadOfAll(iters)
    ensures WellFormed(iters[k := iters[k].Next()])
    ensures AheadOfAll(iters[k := iters[k].Next()]) == AheadOfAll(iters)
  {
    var after := iters[k := iters[k].Next()];
    forall v | v in AheadOfAll(iters) ensures v in AheadOfAll(after) {
      RestAbove(iters[k], v);
      assert v in after[0].Rest();
    }
    forall v | v in AheadOfAll(after) ensures v in AheadOfAll(iters) {
      forall i | 0 <= i < |iters| ensures v in iters[i].Rest() {
        assert v in after[i].Rest();
        if i == k {
          assert iters[k].Next().Rest() == iters[k].Rest()[1..];
        }
      }
    }
  }

  /** A value below the first cursor's head is behind it, so it is not common to all. */
  lemma BelowFirstNotAhead(iters: seq<Cursor>, v: int)
    requires |iters| > 0 && WellFormed(iters) && iters[0].IsValid() && v < iters[0].Head()
    ensures v !in AheadOfAll(iters)
  {
    if v in AheadOfAll(iters) {
      RestAbove(iters[0], v);
    }
  }

  /** A value below a valid cursor's head is behind that cursor. */
  lemma BelowHeadNotAhead(iters: seq<Cursor>, k: nat, v: int)
    requires |iters| > 0 && WellFormed(iters) && k < |iters| && iters[k].IsValid()
    requires v < iters[k].Head()
    ensures v !in AheadOfAll(iters)
  {
    if v in AheadOfAll(iters) {
      RestAbove(iters[k], v);
    }
  }

  /** When all cursors agree, their value is the smallest value still common to all. */
  lemma SyncedHeadIsLeast(iters: seq<Cursor>)
    requires WellFormed(iters) && Synced(iters)
    ensures iters[0].Head() in AheadOfAll(iters)
    ensures forall v :: v in AheadOfAll(iters) ==> iters[0].Head() <= v
  {
    forall i | 0 <= i < |iters| ensures iters[0].Head() in iters[i].Rest() {
      assert iters[i].Rest()[0] == iters[i].Head();
    }
    forall v | v in AheadOfAll(iters) ensures iters[0].Head() <= v {
      RestAbove(iters[0], v);
    }
  }

  /** A cursor at its end leaves no value common to all. */
  lemma Exhausted(iters: seq<Cursor>, k: nat)
    requires |iters| > 0 && WellFormed(iters) && k < |iters| && !iters[k].IsValid()
    ensures AheadOfAll(iters) == {}
  {
    forall v ensures v in AheadOfAll(iters) ==> v in iters[k].Rest() { }
    assert iters[k].Rest() == [];
  }

  /** `next()` on cursor k, when its head is not common to all: nothing common is lost. */
  function Step(origin: seq<Cursor>, iters: seq<Cursor>, k: nat): (after: seq<Cursor>)
    requires |iters| > 0 && WellFormed(iters) && k < |iters| && iters[k].IsValid()
    requires SameSequences(origin, iters)
    requires iters[k].Head() !in AheadOfAll(iters)
    ensures |after| == |iters| && WellFormed(after) && SameSequences(origin, after)
    ensures after[k] == iters[k].Next()
    ensures forall j :: 0 <= j < |iters| && j != k ==> after[j] == iters[j]
    ensures AheadOfAll(after) == AheadOfAll(iters)
  {
    StepKeepsAhead(iters, k);
    iters[k := iters[k].Next()]
  }

  /** Stepping the first of synchronised cursors drops exactly the current value. */
  lemma DropHeadAhead(iters: seq<Cursor>)
    requires WellFormed(iters) && Synced(iters)
    ensures WellFormed(iters[0 := iters[0].Next()])
    ensures AheadOfAll(iters[0 := iters[0].Next()]) == AheadOfAll(iters) - {iters[0].Head()}
  {
    var v := iters[0].Head();
    var after := iters[0 := iters[0].Next()];
    assert after[0].Rest() == iters[0].Rest()[1..];
    forall w | w in AheadOfAll(after) ensures w in AheadOfAll(iters) && w != v {
      forall i | 0 <= i < |iters| ensures w in iters[i].Rest() {
        assert w in after[i].Rest();
      }
      var j :| after[0].pos <= j < |after[0].vals| && after[0].vals[j] == w;
      assert iters[0].vals[iters[0].pos] < iters[0].vals[j];
    }
    forall w | w in AheadOfAll(iters) && w != v ensures w in AheadOfAll(after) {
      RestAbove(iters[0], w);
      assert w in after[0].Rest();
    }
  }

  /** Values ahead of the cursors are values of the sequences they walk. */
  lemma AheadInCommon(iters: seq<Cursor>, seqs: seq<seq<int>>)
    requires |iters| > 0 && WellFormed(iters) && |iters| == |seqs|
    requires forall i :: 0 <= i < |iters| ==> iters[i].vals == seqs[i]
    ensures AheadOfAll(iters) <= Common(seqs)
  {
    forall v | v in AheadOfAll(iters) ensures v in Common(seqs) {
      forall i | 0 <= i < |iters| ensures v in seqs[i] {
        assert v in iters[i].Rest();
      }
    }
  }

  /** `Intersection<ITER>`: the list of sequences to intersect. */
  class Intersection {
    var sequences: seq<seq<int>>

    constructor ()
      ensures sequences == []
    {
      sequences := [];
    }

    /** `Intersection::add`: one more sequence. */
    method Add(vals: seq<int>)
      modifies this
      ensures sequences == old(sequences) + [vals]
    {
      sequences := sequences + [vals];
    }

    /** `Intersection::begin`: an iterator synchronised on the first common value. */
    method Begin() returns (it: ConstIterator)
      requires |sequences| > 0
      requires forall i :: 0 <= i < |sequences| ==> Ascending(sequences[i])
      ensures fresh(it) && it.Valid() && it.Seqs == sequences && it.Yielded == []
      ensures it.IsEnd() <==> Common(sequences) == {}
    {
      it := new ConstIterator(sequences);
    }

    /** `Intersection::end`: the iterator with no cursors. */
    method End() returns (it: ConstIterator)
      ensures fresh(it) && it.iters == []
    {
      it := new ConstIterator.AtEnd();
    }
  }

  /** `Intersection::const_iterator`. */
  /** The values common to all sequences that cursors `iters` have not reached yet; none once they are cleared. */
  ghost function RemainingOf(iters: seq<Cursor>): set<int>
    requires |iters| > 0 ==> WellFormed(iters)
  {
    if iters == [] then {} else AheadOfAll(iters)
  }

  /**
   * The iterator's invariant: the cursors walk `seqs`, and the values
   * handed out so far are, in ascending order, exactly the common values
   * below those still ahead.
   */
  ghost predicate IterState(seqs: seq<seq<int>>, iters: seq<Cursor>, yielded: seq<int>)
  {
    |seqs| > 0
    && (forall i :: 0 <= i < |seqs| ==> Ascending(seqs[i]))
    && (iters != [] ==> |iters| == |seqs| && WellFormed(iters) && Synced(iters)
                        && forall i :: 0 <= i < |iters| ==> iters[i].vals == seqs[i])
    && RemainingOf(iters) <= Common(seqs)
    && (forall y :: y in yielded <==> y in Common(seqs) && y !in RemainingOf(iters))
    && Ascending(yielded)
    && (forall k, v :: 0 <= k < |yielded| && v in RemainingOf(iters) ==> yielded[k] < v)
  }

  /**
   * Handing out the current value and re-synchronising keeps the invariant:
   * `after` is what `sync_iters` makes of the cursors once the first has
   * stepped past the current value.
   */
  lemma YieldStep(seqs: seq<seq<int>>, iters: seq<Cursor>, yielded: seq<int>, after: seq<Cursor>)
    requires IterState(seqs, iters, yielded) && iters != []
    requires after == [] <==> AheadOfAll(iters[0 := iters[0].Next()]) == {}
    requires after != [] ==> SameSequences(iters, after) && WellFormed(after) && Synced(after)
                             && AheadOfAll(after) == AheadOfAll(iters[0 := iters[0].Next()])
    ensures IterState(seqs, after, yielded + [iters[0].Head()])
  {
    var v := iters[0].Head();
    var y2 := yielded + [v];
    SyncedHeadIsLeast(iters);
    DropHeadAhead(iters);
    var before := AheadOfAll(iters);
    assert RemainingOf(after) == before - {v};
    assert v in Common(seqs);
    forall a, b | 0 <= a < b < |y2| ensures y2[a] < y2[b] {
      if b < |yielded| {
        assert y2[a] == yielded[a] && y2[b] == yielded[b];
      } else {
        assert y2[a] == yielded[a];
      }
    }
    forall k, w | 0 <= k < |y2| && w in RemainingOf(after) ensures y2[k] < w {
      if k < |yielded| {
        assert y2[k] == yielded[k];
      }
    }
  }

  class ConstIterator {
    var iters: seq<Cursor>
    /** The sequences being intersected, and the values handed out so far. */
    ghost var Seqs: seq<seq<int>>
    ghost var Yielded: seq<int>

    /** The values common to all sequences that the iterator has not reached yet. */
    ghost function Remaining(): set<int>
      reads this
      requires |iters| > 0 ==> WellFormed(iters)
    {
      RemainingOf(iters)
    }

    ghost predicate Valid()
      reads this
    {
      IterState(Seqs, iters, Yielded)
    }

    /** The begin iterator: one cursor at the start of each sequence, then `sync_iters`. */
    constructor (seqs: seq<seq<int>>)
      requires |seqs| > 0 && forall i :: 0 <= i < |seqs| ==> Ascending(seqs[i])
      ensures Valid() && Seqs == seqs && Yielded == []
      ensures IsEnd() <==> Common(seqs) == {}
    {
      Seqs := seqs;
      Yielded := [];
      iters := seq(|seqs|, i requires 0 <= i < |seqs| => Cursor(seqs[i], 0));
      new;
      assert forall i :: 0 <= i < |iters| ==> iters[i].Rest() == seqs[i];
      assert AheadOfAll(iters) == Common(seqs);
      SyncIters();
      if iters != [] {
        SyncedHeadIsLeast(iters);
      }
      assert Remaining() == Common(seqs);
    }

    /** The end iterator. */
    constructor AtEnd()
      ensures iters == [] && Seqs == [] && Yielded == []
    {
      iters := [];
      Seqs := [];
      Yielded := [];
    }

    predicate IsEnd()
      reads this
    {
      iters == []
    }

    /** `const_iterator::operator==`: both iterators have the same cursors. */
    predicate Equals(other: ConstIterator)
      reads this, other
    {
      iters == other.iters
    }

    /** `operator*`: the value all cursors agree on, the least value not yet handed out. */
    function Current(): (v: int)
      reads this
      requires Valid() && !IsEnd()
      ensures v in Common(Seqs) && v !in Yielded
      ensures forall w :: w in Common(Seqs) && w !in Yielded ==> v <= w
    {
      SyncedHeadIsLeast(iters);
      iters[0].Head()
    }

    /**
     * `sync_iters`: advance every cursor to the first candidate value they
     * all hold, restarting with the next value of the first sequence when
     * one of them overshoots; clear the cursors when any sequence runs out.
     * A first cursor already at its end counts as running out.
     */
    method SyncIters()
      requires |iters| > 0 && WellFormed(iters)
      modifies this`iters
      ensures iters == [] <==> old(AheadOfAll(iters)) == {}
      ensures iters != [] ==> SameSequences(old(iters), iters) && WellFormed(iters) && Synced(iters)
                              && AheadOfAll(iters) == old(AheadOfAll(iters))
    {
      var its := iters;
      var start := iters;
      ghost var ahead := AheadOfAll(its);
      while true
        invariant |its| > 0 && WellFormed(its) && SameSequences(start, its)
        invariant AheadOfAll(its) == ahead
        invariant iters == start
        decreases |its[0].vals| - its[0].pos
      {
        if !its[0].IsValid() {
          Exhausted(its, 0);
          iters := [];
          return;
        }
        var candidate := its[0].Head();
        ghost var p0 := its[0].pos;
        var i := 0;
        var restart := false;
        while i < |its| && !restart
          invariant 0 <= i <= |its| && |its| > 0
          invariant WellFormed(its) && SameSequences(start, its) && iters == start
          invariant !restart ==> its[0].pos == p0
          invariant restart ==> its[0].pos > p0
          invariant AheadOfAll(its) == ahead
          invariant its[0].IsValid()
          invariant !restart ==> its[0].Head() == candidate
          invariant restart ==> its[0].Head() > candidate
          invariant !restart ==> forall j :: 0 <= j < i ==> its[j].IsValid() && its[j].Head() == candidate
          decreases |its| - i, if restart then 0 else 1
        {
          while its[i].IsValid() && its[i].Head() < candidate
            invariant i < |its| && WellFormed(its) && SameSequences(start, its) && iters == start
            invariant its[0].pos == p0
            invariant AheadOfAll(its) == ahead
            invariant its[0].IsValid() && its[0].Head() == candidate
            invariant forall j :: 0 <= j < i ==> its[j].IsValid() && its[j].Head() == candidate
            decreases |its[i].vals| - its[i].pos
          {
            BelowHeadNotAhead(its, 0, its[i].Head());
            its := Step(start, its, i);
          }
          if !its[i].IsValid() {
            // this sequence has nothing left: no common value remains
            Exhausted(its, i);
            iters := [];
            return;
          }
          if its[i].Head() > candidate {
            BelowHeadNotAhead(its, i, candidate);
            its := Step(start, its, 0);
            if !its[0].IsValid() {
              Exhausted(its, 0);
              iters := [];
              return;
            }
            restart := true;
          } else {
            i := i + 1;
          }
        }
        if !restart {
          SyncedHeadIsLeast(its);
          iters := its;
          return;
        }
      }
    }

    /** `operator++`: step the first cursor past the current value, then re-synchronise. */
    method Increment()
      requires Valid() && !IsEnd()
      modifies this
      ensures Valid() && Seqs == old(Seqs)
      ensures Yielded == old(Yielded) + [old(Current())]
    {
      var v := iters[0].Head();
      ghost var its := iters;
      DropHeadAhead(iters);
      iters := iters[0 := iters[0].Next()];
      Yielded := Yielded + [v];
      SyncIters();
      YieldStep(Seqs, its, old(Yielded), iters);
    }
  }

  /** Once the iterator equals `end()`, it has handed out every common value, in ascending order. */
  lemma WalkYieldsIntersection(it: ConstIterator)
    requires it.Valid() && it.IsEnd()
    ensures forall v :: v in it.Yielded <==> v in Common(it.Seqs)
    ensures Ascending(it.Yielded)
  {
  }
}
