/// The positional hash table of the cell noise: a shuffled table of the
/// integers 0 .. noiseWidth² - 1, looked up by index or by a position on the
/// noiseWidth × noiseWidth torus plus a seed.
module NoiseTables {
  import opened Bits
  import opened Splicing

  /// The integers 0, 1, ..., n - 1 in ascending order.
  function Range(n: nat): seq<int>
  {
    seq(n, i => i)
  }

  /// t holds each of 0 .. n - 1 exactly once and nothing else.
  ghost predicate IsPermutation(t: seq<int>, n: nat)
  {
    multiset(t) == multiset(Range(n))
  }

  lemma {:induction false} RangeMultiplicity(n: nat, v: int)
    ensures multiset(Range(n))[v] == if 0 <= v < n then 1 else 0
  {
    if n > 0 {
      assert Range(n) == Range(n - 1) + [n - 1];
      RangeMultiplicity(n - 1, v);
    }
  }

  /// What a permutation of 0 .. n - 1 looks like entry by entry: n entries,
  /// each in range, each value present exactly once, no two entries equal.
  lemma PermutationFacts(t: seq<int>, n: nat)
    requires IsPermutation(t, n)
    ensures |t| == n
    ensures forall i :: 0 <= i < |t| ==> 0 <= t[i] < n
    ensures forall v :: 0 <= v < n ==> multiset(t)[v] == 1
    ensures forall i, j :: 0 <= i < j < |t| ==> t[i] != t[j]
  {
    assert |t| == |multiset(t)| == |multiset(Range(n))| == n;
    forall i | 0 <= i < |t|
      ensures 0 <= t[i] < n
    {
      assert t[i] in multiset(t);
      RangeMultiplicity(n, t[i]);
    }
    forall v | 0 <= v < n
      ensures multiset(t)[v] == 1
    {
      RangeMultiplicity(n, v);
    }
    forall i, j | 0 <= i < j < |t|
      ensures t[i] != t[j]
    {
      // t[i] already takes the one occurrence of its value that the
      // multiset allows, so the suffix from j on cannot hold it again.
      var v := t[i];
      assert t == t[..j] + t[j..];
      assert t[..j][i] == v;
      assert multiset(t)[v] == multiset(t[..j])[v] + multiset(t[j..])[v];
      RangeMultiplicity(n, v);
      assert multiset(t[j..])[v] == 0;
      assert t[j..][0] == t[j];
    }
  }

  lemma MulMonotone(a: int, b: int, c: nat)
    requires a <= b
    ensures a * c <= b * c
  {
    assert b * c - a * c == (b - a) * c;
  }

  /// The outcome of drawing a card: the card and what is left of the deck,
  /// or the error thrown for an empty deck.
  datatype Draw<T> = Drawn(card: T, rest: seq<T>) | EmptyDeck

  class NoiseTable {
    const noiseWidth: nat
    const noiseTableSize: nat
    /// The step of the seed cursor.
    const primeCycleIncrement: int := 101159

    var noiseTable: seq<int>
    var nextIndex: int

    ghost predicate Valid()
      reads this
    {
      && noiseTableSize == noiseWidth * noiseWidth
      && IsPermutation(noiseTable, noiseTableSize)
      && 0 <= nextIndex
    }

    /// Builds the table by shuffling 0 .. noiseWidth² - 1; the cursor starts at 0.
    constructor (noiseWidth: nat)
      ensures Valid()
      ensures this.noiseWidth == noiseWidth && noiseTableSize == noiseWidth * noiseWidth
      ensures nextIndex == 0
    {
      this.noiseWidth := noiseWidth;
      noiseTableSize := noiseWidth * noiseWidth;
      noiseTable := [];
      nextIndex := 0;
      new;
      InitTable();
    }

    /// Fills a working list with 0 .. noiseTableSize - 1, then draws every
    /// card of it at random into successive slots of the table.
    method InitTable()
      requires noiseTable == []
      modifies this`noiseTable
      ensures IsPermutation(noiseTable, noiseTableSize)
    {
      var list: seq<int> := [];
      for a := 0 to noiseTableSize
        invariant list == Range(a)
      {
        list := list + [a];
      }
      for a := 0 to noiseTableSize
        invariant |noiseTable| == a && |list| == noiseTableSize - a
        invariant multiset(noiseTable) + multiset(list) == multiset(Range(noiseTableSize))
      {
        var drawn := DrawCard(list);
        // The deck still holds noiseTableSize - a > 0 cards, so the draw
        // never throws.
        assert drawn.Drawn?;
        // `noiseTable[a] = card` on a table of length a appends.
        noiseTable := noiseTable + [drawn.card];
        list := drawn.rest;
      }
    }

    /// Advances the stored cursor by the prime step, modulo the table size,
    /// and returns its new value. The table is left alone.
    method GetNextIndex() returns (r: int)
      requires Valid() && 0 < noiseTableSize
      modifies this`nextIndex
      ensures Valid()
      ensures nextIndex == r == IncrementExternalIndex(old(nextIndex))
      ensures 0 <= r < noiseTableSize
    {
      nextIndex := nextIndex + primeCycleIncrement;
      nextIndex := nextIndex % noiseTableSize;
      return nextIndex;
    }

    /// The table entry at `index`, read periodically.
    function ByIndex(index: int): (r: int)
      reads this
      requires Valid() && 0 < noiseTableSize && 0 <= index
      ensures 0 <= r < noiseTableSize
    {
      var i := index % noiseTableSize;
      assert i < |noiseTable| && 0 <= noiseTable[i] < noiseTableSize by {
        PermutationFacts(noiseTable, noiseTableSize);
      }
      noiseTable[i]
    }

    /// `ByIndex` scaled into [0, 1).
    function ByIndexNormalized(index: int): (r: real)
      reads this
      requires Valid() && 0 < noiseTableSize && 0 <= index
      ensures 0.0 <= r < 1.0
    {
      ByIndex(index) as real / noiseTableSize as real
    }

    /// The seed cursor's step, with no stored state involved.
    function IncrementExternalIndex(index: int): (r: int)
      requires 0 < noiseTableSize && 0 <= index + primeCycleIncrement
      ensures 0 <= r < noiseTableSize
      ensures (index + primeCycleIncrement - r) % noiseTableSize == 0
    {
      var m := index + primeCycleIncrement;
      assert (m - m % noiseTableSize) % noiseTableSize == 0 by {
        assert m - m % noiseTableSize == (m / noiseTableSize) * noiseTableSize;
        ModAddMultiple(0, m / noiseTableSize, noiseTableSize);
      }
      m % noiseTableSize
    }

    /// The table index of cell (x, y) on the noiseWidth × noiseWidth torus,
    /// offset by the seed.
    function LinearIndex(x: int, y: int, seed: int): int
      requires 0 < noiseWidth && 0 <= x && 0 <= y
    {
      (x % noiseWidth) + (y % noiseWidth) * noiseWidth + seed
    }

    function ByPositionAndSeed(x: int, y: int, seed: int): (r: int)
      reads this
      requires Valid() && 0 < noiseWidth && 0 <= x && 0 <= y && 0 <= LinearIndex(x, y, seed)
      ensures 0 <= r < noiseTableSize
    {
      ByIndex(LinearIndex(x, y, seed))
    }

    function ByPositionAndSeedNormalized(x: int, y: int, seed: int): (r: real)
      reads this
      requires Valid() && 0 < noiseWidth && 0 <= x && 0 <= y && 0 <= LinearIndex(x, y, seed)
      ensures 0.0 <= r < 1.0
    {
      ByIndexNormalized(LinearIndex(x, y, seed))
    }

    /// Picks an arbitrary element of the list, standing for
    /// `Math.floor(Math.random() * length)`, and returns it together with
    /// the list it was spliced out of; an empty list is an error.
    static method DrawCard<T>(list: seq<T>) returns (r: Draw<T>)
      ensures r.EmptyDeck? <==> |list| == 0
      ensures r.Drawn? ==>
        exists index :: 0 <= index < |list| && r.card == list[index] && r.rest == Splice(list, index)
      ensures r.Drawn? ==> |r.rest| == |list| - 1 && multiset(r.rest) + multiset{r.card} == multiset(list)
    {
      if |list| == 0 {
        return EmptyDeck;
      }
      var index :| 0 <= index < |list|;
      r := Drawn(list[index], Splice(list, index));
    }

    /// The table is periodic with period noiseTableSize.
    lemma {:induction false} ByIndexPeriodic(index: int, k: nat)
      requires Valid() && 0 < noiseTableSize && 0 <= index
      ensures ByIndex(index + k * noiseTableSize) == ByIndex(index)
    {
      ModAddMultiple(index, k, noiseTableSize);
    }

    /// Positions that differ by whole multiples of noiseWidth in either axis
    /// read the same entry: the lookup tiles the plane.
    lemma ByPositionTiles(x: int, y: int, seed: int, a: nat, b: nat)
      requires Valid() && 0 < noiseWidth && 0 <= x && 0 <= y && 0 <= LinearIndex(x, y, seed)
      ensures LinearIndex(x + a * noiseWidth, y + b * noiseWidth, seed) == LinearIndex(x, y, seed)
      ensures ByPositionAndSeed(x + a * noiseWidth, y + b * noiseWidth, seed) == ByPositionAndSeed(x, y, seed)
      ensures ByPositionAndSeedNormalized(x + a * noiseWidth, y + b * noiseWidth, seed)
           == ByPositionAndSeedNormalized(x, y, seed)
    {
      ModAddMultiple(x, a, noiseWidth);
      ModAddMultiple(y, b, noiseWidth);
    }

    /// The seedless part of the linear index enumerates the torus: it lies
    /// in [0, noiseTableSize).
    lemma LinearIndexRange(x: int, y: int, seed: int)
      requires Valid() && 0 < noiseWidth && 0 <= x && 0 <= y
      ensures seed <= LinearIndex(x, y, seed) < seed + noiseTableSize
    {
      var w := noiseWidth;
      var row := y % w;
      assert row * w <= (w - 1) * w by {
        MulMonotone(row, w - 1, w);
      }
      assert (w - 1) * w == w * w - w;
      MulMonotone(0, row, w);
    }

    /// Distinct cells of the torus map to distinct table offsets.
    lemma LinearIndexInjective(x: int, y: int, x': int, y': int, seed: int)
      requires 0 < noiseWidth && 0 <= x && 0 <= y && 0 <= x' && 0 <= y'
      requires LinearIndex(x, y, seed) == LinearIndex(x', y', seed)
      ensures x % noiseWidth == x' % noiseWidth && y % noiseWidth == y' % noiseWidth
    {
      var w := noiseWidth;
      DivModUnique(LinearIndex(x, y, 0), w, y % w, x % w);
      DivModUnique(LinearIndex(x', y', 0), w, y' % w, x' % w);
    }
  }
}
