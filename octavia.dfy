/// Octavia noise: fractal cellular noise summed over octaves.
///
/// The texture space xSize × ySize is normalized to the unit square and cut
/// into density × density square cells. Every cell holds `samples` points
/// placed by the noise table, each with a height in [bias - range, bias + range)
/// and a soft kernel of diameter one cell edge around it. A lookup sums the
/// kernels of the points of the 2×2 block of cells nearest to it; an octave
/// repeats this at twice the density with a fresh seed and a scaled amplitude.
///
/// All arithmetic is over exact reals: the model says nothing about IEEE-754
/// rounding.
module OctaviaNoise {
  import opened Bits
  import opened NoiseTables

  function Abs(r: real): real
  {
    if r < 0.0 then -r else r
  }

  /// `b ** k` for a whole exponent k.
  function Power(b: real, k: nat): real
  {
    if k == 0 then 1.0 else b * Power(b, k - 1)
  }

  /// A cell of the grid, by column and row.
  datatype Cell = Cell(cx: int, cy: int)

  /// `w * density`: a normalized coordinate in units of cell edges.
  function Scaled(w: real, density: nat): (t: real)
    ensures 0.0 <= w ==> 0.0 <= t
  {
    assert 0.0 <= w ==> 0.0 <= w * density as real by {
      if 0.0 <= w {
        NonNegativeProduct(w, density as real);
      }
    }
    w * density as real
  }

  /// `Math.floor(w * density)`: the cell containing normalized coordinate w.
  function CellIndex(w: real, density: nat): int
  {
    Scaled(w, density).Floor
  }

  lemma FloorOfShift(r: real, n: int)
    ensures (r + n as real).Floor == r.Floor + n
  {
  }

  lemma FloorNonNegative(r: real)
    requires 0.0 <= r
    ensures 0 <= r.Floor
  {
  }

  /// `ix - 1 + (Math.floor(w * 2 * density) & 1)`: the first cell, along one
  /// axis, of the 2×2 block that is searched. It is the cell of w or the one
  /// before it.
  function BlockStart(w: real, density: nat): (r: int)
    requires 0.0 <= w
    ensures CellIndex(w, density) - 1 <= r <= CellIndex(w, density)
    ensures -1 <= r
  {
    assert 0 <= CellIndex(w, density) by {
      FloorNonNegative(Scaled(w, density));
    }
    CellIndex(w, density) - 1 + QuadrantBit(w, density)
  }

  /// `Math.floor(w * 2 * density) & 1`, with the product regrouped as
  /// 2 × (w × density) (the same real): 1 when w lies in the upper half of
  /// its cell, 0 in the lower half.
  function QuadrantBit(w: real, density: nat): (r: int)
    requires 0.0 <= w
    ensures 0 <= r <= 1
  {
    HalfParity(Scaled(w, density))
  }

  /// `Math.floor(2 * t) & 1` for a scaled coordinate t: which half of its
  /// unit interval t lies in.
  function HalfParity(t: real): (r: int)
    requires 0.0 <= t
    ensures 0 <= r <= 1
  {
    assert 0 <= (2.0 * t).Floor by {
      FloorNonNegative(2.0 * t);
    }
    BitAnd((2.0 * t).Floor, 1)
  }

  /// The half bit is 1 exactly when t lies in the upper half of its unit
  /// interval.
  lemma HalfParityIsUpperHalf(t: real)
    requires 0.0 <= t
    ensures HalfParity(t) == 1 <==> t.Floor as real + 0.5 <= t
  {
    var f := (2.0 * t).Floor;
    assert 0 <= f by {
      FloorNonNegative(2.0 * t);
    }
    BitAndOne(f);
    FloorOfDouble(t);
  }

  /// Whole steps do not change which half of its unit interval t lies in.
  lemma HalfParityShift(t: real, k: nat)
    requires 0.0 <= t
    ensures HalfParity(t + k as real) == HalfParity(t)
  {
    var f := (2.0 * t).Floor;
    assert 0 <= f by {
      FloorNonNegative(2.0 * t);
    }
    assert (2.0 * (t + k as real)).Floor == f + 2 * k by {
      assert 2.0 * (t + k as real) == 2.0 * t + (2 * k) as real;
      FloorOfShift(2.0 * t, 2 * k);
    }
    BitAndOneShift(f, k);
  }

  /// The quadrant bit is 1 exactly when w lies in the upper half of its
  /// cell.
  lemma QuadrantBitIsUpperHalf(w: real, density: nat)
    requires 0.0 <= w
    ensures QuadrantBit(w, density) == 1 <==> CellIndex(w, density) as real + 0.5 <= w * density as real
  {
    HalfParityIsUpperHalf(Scaled(w, density));
  }

  /// The floor of 2t is twice the floor of t, plus one exactly when t lies
  /// in the upper half of its unit interval.
  lemma FloorOfDouble(t: real)
    ensures (2.0 * t).Floor % 2 == 1 <==> t.Floor as real + 0.5 <= t
  {
    var n, f := t.Floor, (2.0 * t).Floor;
    assert 2 * n <= f <= 2 * n + 1;
    if n as real + 0.5 <= t {
      assert f == 2 * n + 1;
      DivModUnique(f, 2, n, 1);
    } else {
      assert f == 2 * n;
      DivModUnique(f, 2, n, 0);
    }
  }

  /// The block picked along one axis leaves the point at least half a cell
  /// from either end: in scaled coordinates t = w × density, the block
  /// [start, start + 2) has start + 0.5 <= t < start + 1.5.
  lemma BlockCentredOnPoint(w: real, density: nat)
    requires 0.0 <= w
    ensures BlockStart(w, density) as real + 0.5 <= w * density as real < BlockStart(w, density) as real + 1.5
  {
    QuadrantBitIsUpperHalf(w, density);
  }

  /// A point p whose scaled coordinate lies in a cell outside the block is
  /// at least half a cell from w.
  lemma OutsideBlockIsFar(w: real, density: nat, c: int, p: real)
    requires 0.0 <= w
    requires c as real <= p * density as real < (c + 1) as real
    requires c < BlockStart(w, density) || BlockStart(w, density) + 1 < c
    ensures 0.5 <= Abs(density as real * (w - p))
  {
    var t, q := w * density as real, p * density as real;
    var start := BlockStart(w, density);
    BlockCentredOnPoint(w, density);
    assert density as real * (w - p) == t - q;
    if c < start {
      assert (c + 1) as real <= start as real;
      assert 0.5 <= t - q;
    } else {
      assert (start + 2) as real <= c as real;
      assert 0.5 <= q - t;
    }
  }

  /// `(c + density) & (density - 1)`: cell index c wrapped onto the torus.
  function Wrap(c: int, density: nat): int
    requires 0 < density && 0 <= c + density
  {
    BitAnd(c + density, density - 1)
  }

  /// `density² × ((u - px)² + (v - py)²) × 4`: the squared distance from
  /// (u, v) to the point (px, py), in units of half a cell edge.
  function DistanceSquared(u: real, v: real, density: nat, px: real, py: real): (r: real)
    ensures 0.0 <= r
  {
    var d := density as real;
    var s := (u - px) * (u - px) + (v - py) * (v - py);
    assert 0.0 <= d * d * s by {
      assert 0.0 <= d * d && 0.0 <= s;
      NonNegativeProduct(d * d, s);
    }
    d * d * s * 4.0
  }

  lemma CastProduct(a: int, b: int)
    ensures (a * b) as real == a as real * b as real
  {
  }

  /// Moving w by a whole turns of the unit square moves its scaled
  /// coordinate by a × density cell edges.
  lemma ScaledShift(w: real, density: nat, a: nat)
    ensures Scaled(w + a as real, density) == Scaled(w, density) + (a * density) as real
  {
    assert (w + a as real) * density as real == w * density as real + a as real * density as real;
    CastProduct(a, density);
  }

  /// So its cell moves by a × density cells.
  lemma CellIndexShift(w: real, density: nat, a: nat)
    ensures CellIndex(w + a as real, density) == CellIndex(w, density) + a * density
  {
    ScaledShift(w, density, a);
    FloorOfShift(Scaled(w, density), a * density);
  }

  /// Moving w by whole turns does not change which half of its cell it is in.
  lemma QuadrantBitShift(w: real, density: nat, a: nat)
    requires 0.0 <= w
    ensures QuadrantBit(w + a as real, density) == QuadrantBit(w, density)
  {
    ScaledShift(w, density, a);
    HalfParityShift(Scaled(w, density), a * density);
  }

  /// So the searched block moves by a × density cells.
  lemma BlockStartShift(w: real, density: nat, a: nat)
    requires 0.0 <= w
    ensures BlockStart(w + a as real, density) == BlockStart(w, density) + a * density
  {
    CellIndexShift(w, density, a);
    QuadrantBitShift(w, density, a);
  }

  /// Cells a whole number of turns apart wrap to the same cell of the torus.
  lemma WrapShift(c: int, density: nat, a: nat)
    requires IsPowerOfTwo(density) && 0 <= c + density
    ensures Wrap(c + a * density, density) == Wrap(c, density)
  {
    WrapPeriodic(c, density, a);
  }

  /// A point half a cell away or more along one axis is out of reach.
  lemma FarIsOutOfReach(u: real, v: real, density: nat, px: real, py: real)
    requires 0.5 <= Abs(density as real * (u - px))
    ensures 1.0 <= DistanceSquared(u, v, density, px, py)
  {
    var d := density as real;
    var a := density as real * (u - px);
    var b := density as real * (v - py);
    SquareMonotone(0.5, Abs(a));
    assert Abs(a) * Abs(a) == a * a;
    SquareNonNegative(b);
    assert d * d * ((u - px) * (u - px) + (v - py) * (v - py)) == a * a + b * b;
    assert DistanceSquared(u, v, density, px, py) == (a * a + b * b) * 4.0;
  }

  /// A point (px, py) in cell (cx, cy), with the cell outside the 2×2 block
  /// searched around (u, v), is out of reach of (u, v).
  lemma OutsideCellOutOfReach(u: real, v: real, density: nat, cx: int, cy: int, px: real, py: real)
    requires 0.0 <= u && 0.0 <= v
    requires cx as real <= px * density as real < (cx + 1) as real
    requires cy as real <= py * density as real < (cy + 1) as real
    requires cx < BlockStart(u, density) || BlockStart(u, density) + 1 < cx
          || cy < BlockStart(v, density) || BlockStart(v, density) + 1 < cy
    ensures 1.0 <= DistanceSquared(u, v, density, px, py)
  {
    if cx < BlockStart(u, density) || BlockStart(u, density) + 1 < cx {
      OutsideBlockIsFar(u, density, cx, px);
      FarIsOutOfReach(u, v, density, px, py);
    } else {
      OutsideBlockIsFar(v, density, cy, py);
      FarIsOutOfReach(v, u, density, py, px);
      DistanceSquaredSymmetric(u, v, density, px, py);
    }
  }

  /// Moving the lookup point and the sample point together does not change
  /// their distance.
  lemma DistanceSquaredShift(u: real, v: real, density: nat, px: real, py: real, a: real, b: real)
    ensures DistanceSquared(u + a, v + b, density, px + a, py + b) == DistanceSquared(u, v, density, px, py)
  {
    assert (u + a) - (px + a) == u - px;
    assert (v + b) - (py + b) == v - py;
  }

  /// The squared distance does not depend on which axis comes first.
  lemma DistanceSquaredSymmetric(u: real, v: real, density: nat, px: real, py: real)
    ensures DistanceSquared(u, v, density, px, py) == DistanceSquared(v, u, density, py, px)
  {
  }

  /// `s (1 - d) / (s + d)`: the kernel before squaring.
  function KernelFactor(s: real, d: real): real
    requires 0.0 < s && 0.0 <= d
  {
    s * (1.0 - d) / (s + d)
  }

  /// The falloff kernel `(s (1 - d) / (s + d))²` at squared distance d, for
  /// softness s.
  function Kernel(s: real, d: real): real
    requires 0.0 < s && 0.0 <= d
  {
    var a := KernelFactor(s, d);
    a * a
  }

  /// The kernel lies in [0, 1] within reach, is 1 at the point itself and 0
  /// at the edge of its reach.
  lemma KernelBounds(s: real, d: real)
    requires 0.0 < s && 0.0 <= d
    ensures 0.0 <= Kernel(s, d)
    ensures d <= 1.0 ==> Kernel(s, d) <= 1.0
    ensures d == 0.0 ==> Kernel(s, d) == 1.0
    ensures d == 1.0 ==> Kernel(s, d) == 0.0
  {
    var a := KernelFactor(s, d);
    KernelFactorBounds(s, d);
    SquareNonNegative(a);
    if d <= 1.0 {
      SquareMonotone(a, 1.0);
    }
  }

  /// The unsquared factor lies in [0, 1] on [0, 1] and is 1 at 0.
  lemma KernelFactorBounds(s: real, d: real)
    requires 0.0 < s && 0.0 <= d
    ensures d <= 1.0 ==> 0.0 <= KernelFactor(s, d) <= 1.0
    ensures d == 0.0 ==> KernelFactor(s, d) == 1.0
    ensures d == 1.0 ==> KernelFactor(s, d) == 0.0
  {
    if d <= 1.0 {
      NonNegativeProduct(s, 1.0 - d);
      NonNegativeQuotient(s * (1.0 - d), s + d);
      NonNegativeProduct(s, d);
      assert s * (1.0 - d) <= s + d;
      QuotientAtMostOne(s * (1.0 - d), s + d);
    }
    if d == 0.0 {
      assert s * (1.0 - d) == s + d;
    }
  }

  lemma NonNegativeProduct(a: real, b: real)
    requires 0.0 <= a && 0.0 <= b
    ensures 0.0 <= a * b
  {
  }

  lemma AbsProductBound(p: real, v: real, bound: real)
    requires Abs(v) <= bound
    ensures Abs(p * v) <= Abs(p) * bound
  {
    if 0.0 <= p {
      NonNegativeProduct(p, bound - Abs(v));
      assert Abs(p * v) == p * Abs(v);
    } else {
      NonNegativeProduct(-p, bound - Abs(v));
      assert Abs(p * v) == -p * Abs(v);
    }
  }

  lemma AbsSum(a: real, b: real, boundA: real, boundB: real)
    requires Abs(a) <= boundA && Abs(b) <= boundB
    ensures Abs(a + b) <= boundA + boundB
  {
  }

  /// n × h, as n-fold addition.
  function Times(n: nat, h: real): real
  {
    if n == 0 then 0.0 else Times(n - 1, h) + h
  }

  lemma TimesIsProduct(n: nat, h: real)
    ensures Times(n, h) == n as real * h
  {
    if n > 0 {
      TimesIsProduct(n - 1, h);
      assert n as real == (n - 1) as real + 1.0;
    }
  }

  lemma QuotientShift(x: real, s: real, a: real)
    requires 0.0 < s
    ensures (x + a * s) / s == x / s + a
  {
  }

  lemma NonNegativeQuotient(a: real, b: real)
    requires 0.0 <= a && 0.0 < b
    ensures 0.0 <= a / b
  {
  }

  lemma QuotientAtMostOne(a: real, b: real)
    requires a <= b && 0.0 < b
    ensures a / b <= 1.0
  {
  }

  lemma SquareNonNegative(a: real)
    ensures 0.0 <= a * a
  {
    if a < 0.0 {
      NonNegativeProduct(-a, -a);
    } else {
      NonNegativeProduct(a, a);
    }
  }

  lemma SquareMonotone(a: real, b: real)
    requires 0.0 <= a <= b
    ensures a * a <= b * b
  {
    NonNegativeProduct(a, b - a);
    NonNegativeProduct(b, b - a);
  }

  /// For a fixed positive numerator, a quotient shrinks as its denominator grows.
  lemma QuotientAntitone(c: real, p: real, q: real)
    requires 0.0 <= c && 0.0 < p <= q
    ensures c / q <= c / p
  {
    var x, y := c / p, c / q;
    assert x * p == c && y * q == c;
    NonNegativeQuotient(c, q);
    NonNegativeProduct(y, q - p);
    assert y * p <= y * q == x * p;
  }

  /// The kernel falls off as the distance grows: it is non-increasing on [0, 1].
  lemma KernelDecreasing(s: real, d1: real, d2: real)
    requires 0.0 < s && 0.0 <= d1 <= d2 <= 1.0
    ensures Kernel(s, d2) <= Kernel(s, d1)
  {
    var a1, a2 := KernelFactor(s, d1), KernelFactor(s, d2);
    FactorDecreasing(s, d1, d2);
    KernelFactorBounds(s, d2);
    SquareMonotone(a2, a1);
  }

  /// The unsquared factor is non-increasing in the distance.
  lemma FactorDecreasing(s: real, d1: real, d2: real)
    requires 0.0 < s && 0.0 <= d1 <= d2
    ensures KernelFactor(s, d2) <= KernelFactor(s, d1)
  {
    // The factor is s (s + 1) / (s + d) - s, falling with d.
    FactorAsQuotient(s, d1);
    FactorAsQuotient(s, d2);
    NonNegativeProduct(s, s + 1.0);
    QuotientAntitone(s * (s + 1.0), s + d1, s + d2);
  }

  lemma FactorAsQuotient(s: real, d: real)
    requires 0.0 < s && 0.0 <= d
    ensures KernelFactor(s, d) == s * (s + 1.0) / (s + d) - s
  {
    var e := s + d;
    assert s * (1.0 - d) == s * (s + 1.0) - s * e;
    assert (s * (s + 1.0) - s * e) / e == s * (s + 1.0) / e - s * e / e;
  }

  /// A height weighed by the kernel at squared distance dsq, or nothing when
  /// the point is out of reach (dsq >= 1).
  function Weighted(softness: real, h: real, dsq: real): real
    requires 0.0 < softness && 0.0 <= dsq
  {
    if dsq < 1.0 then h * Kernel(softness, dsq) else 0.0
  }

  /// A weighted height never exceeds the height in magnitude, is the full
  /// height at the point itself, and is nothing out of reach.
  lemma WeightedBounds(softness: real, h: real, dsq: real)
    requires 0.0 < softness && 0.0 <= dsq
    ensures Abs(Weighted(softness, h, dsq)) <= Abs(h)
    ensures dsq == 0.0 ==> Weighted(softness, h, dsq) == h
    ensures 1.0 <= dsq ==> Weighted(softness, h, dsq) == 0.0
  {
    if dsq < 1.0 {
      KernelBounds(softness, dsq);
      AbsScaled(h, Kernel(softness, dsq));
    }
  }

  lemma AbsScaled(h: real, k: real)
    requires 0.0 <= k <= 1.0
    ensures Abs(h * k) <= Abs(h)
  {
    if h >= 0.0 {
      NonNegativeProduct(h, k);
      NonNegativeProduct(h, 1.0 - k);
    } else {
      NonNegativeProduct(-h, k);
      NonNegativeProduct(-h, 1.0 - k);
    }
  }

  class Octavia {
    const xSize: real
    const ySize: real
    const density: nat
    const octaves: nat
    const amplitudeRatio: real
    const softness: real
    const samples: nat
    const bias: real
    const range: real
    const noise: NoiseTable

    /// Stores the configuration and builds a noise table of width 256.
    constructor (xSize: real, ySize: real, density: nat, octaves: nat, amplitudeRatio: real,
                 softness: real, samples: nat, bias: real, range: real)
      ensures this.xSize == xSize && this.ySize == ySize && this.density == density
      ensures this.octaves == octaves && this.amplitudeRatio == amplitudeRatio
      ensures this.softness == softness && this.samples == samples
      ensures this.bias == bias && this.range == range
      ensures fresh(noise) && noise.noiseWidth == 256 && noise.nextIndex == 0
      ensures Valid()
    {
      this.xSize := xSize;
      this.ySize := ySize;
      this.density := density;
      this.octaves := octaves;
      this.amplitudeRatio := amplitudeRatio;
      this.softness := softness;
      this.samples := samples;
      this.bias := bias;
      this.range := range;
      noise := new NoiseTable(256);
    }

    /// The noise table is built and not empty.
    ghost predicate Valid()
      reads noise
    {
      noise.Valid() && 0 < noise.noiseWidth && 0 < noise.noiseTableSize
    }

    /// A configuration the model evaluates: positive extents and softness
    /// (otherwise the source divides by zero), a power-of-two density
    /// (otherwise the `&` wrap is not a modulo).
    predicate Configured()
    {
      0.0 < xSize && 0.0 < ySize && 0.0 < softness && IsPowerOfTwo(density)
    }

    /// Largest magnitude a sample height can have.
    function HeightBound(): real
    {
      Abs(bias) + Abs(range)
    }

    /// `c / density + entry / noiseTableSize / density`: a sample point's
    /// coordinate, placed inside cell c by the table entry.
    function PointCoord(c: int, density: nat, entry: int): real
      requires 0 < density && 0 < noise.noiseTableSize
    {
      c as real / density as real + entry as real / noise.noiseTableSize as real / density as real
    }

    /// A sample point lies inside its own cell: c / density <= p < (c + 1) / density,
    /// stated on the scaled coordinate p × density.
    lemma PointInCell(c: int, density: nat, entry: int)
      requires 0 < density && 0 < noise.noiseTableSize && 0 <= entry < noise.noiseTableSize
      ensures c as real <= PointCoord(c, density, entry) * density as real < (c + 1) as real
    {
      var d, n := density as real, noise.noiseTableSize as real;
      var f := entry as real / n;
      assert 0.0 <= f < 1.0;
      assert PointCoord(c, density, entry) * d == c as real + f;
    }

    /// `bias + -range + 2 * range * entry / noiseTableSize`: a sample point's
    /// height.
    function Height(entry: int): real
      requires 0 < noise.noiseTableSize && 0 <= entry < noise.noiseTableSize
    {
      bias + -range + 2.0 * range * entry as real / noise.noiseTableSize as real
    }

    /// A height lies in [bias - range, bias + range) (for a non-negative range),
    /// and in any case within HeightBound() in magnitude.
    lemma HeightInRange(entry: int)
      requires 0 < noise.noiseTableSize && 0 <= entry < noise.noiseTableSize
      ensures 0.0 <= range ==> bias - range <= Height(entry) <= bias + range
      ensures 0.0 < range ==> Height(entry) < bias + range
      ensures Abs(Height(entry)) <= HeightBound()
    {
      var f := entry as real / noise.noiseTableSize as real;
      assert 0.0 <= f < 1.0;
      assert 2.0 * range * entry as real / noise.noiseTableSize as real == 2.0 * range * f;
      HeightRange(f);
    }

    lemma HeightRange(f: real)
      requires 0.0 <= f < 1.0
      ensures 0.0 <= range ==> 0.0 <= 2.0 * range * f <= 2.0 * range
      ensures 0.0 < range ==> 2.0 * range * f < 2.0 * range
      ensures Abs(bias + -range + 2.0 * range * f) <= HeightBound()
    {
      if 0.0 <= range {
        NonNegativeProduct(2.0 * range, f);
        NonNegativeProduct(2.0 * range, 1.0 - f);
      } else {
        NonNegativeProduct(-2.0 * range, f);
        NonNegativeProduct(-2.0 * range, 1.0 - f);
      }
    }

    /// What one sample point adds at (u, v): the table entries ti and ti + 1
    /// place it inside cell (cx, cy), entry ti + 2 gives its height, and the
    /// kernel weighs the height when the point is within reach.
    function Contribution(u: real, v: real, density: nat, cx: int, cy: int, ti: int): real
      reads noise
      requires Valid() && 0.0 < softness && 0 < density && 0 <= ti
    {
      var px := PointCoord(cx, density, noise.ByIndex(ti));
      var py := PointCoord(cy, density, noise.ByIndex(ti + 1));
      Weighted(softness, Height(noise.ByIndex(ti + 2)), DistanceSquared(u, v, density, px, py))
    }

    /// One sample point adds at most the largest height in magnitude.
    lemma ContributionBound(u: real, v: real, density: nat, cx: int, cy: int, ti: int)
      requires Valid() && 0.0 < softness && 0 < density && 0 <= ti
      ensures Abs(Contribution(u, v, density, cx, cy, ti)) <= HeightBound()
    {
      var px := PointCoord(cx, density, noise.ByIndex(ti));
      var py := PointCoord(cy, density, noise.ByIndex(ti + 1));
      var h := Height(noise.ByIndex(ti + 2));
      HeightInRange(noise.ByIndex(ti + 2));
      WeightedBounds(softness, h, DistanceSquared(u, v, density, px, py));
    }

    /// The sum of the first k sample points of cell (cx, cy), whose table
    /// reads start at ti: sample a reads ti + 3a, ti + 3a + 1, ti + 3a + 2.
    function CellSum(u: real, v: real, density: nat, cx: int, cy: int, ti: int, k: nat): real
      reads noise
      requires Valid() && 0.0 < softness && 0 < density && 0 <= ti
    {
      if k == 0 then 0.0
      else
        var earlier := CellSum(u, v, density, cx, cy, ti, k - 1);
        var last := Contribution(u, v, density, cx, cy, ti + 3 * (k - 1));
        earlier + last
    }

    /// The table index at which cell c's sample reads start: the position
    /// lookup of its wrapped coordinates with the octave's seed.
    function CellStart(c: Cell, density: nat, seed: int): (r: int)
      reads noise
      requires Valid() && IsPowerOfTwo(density) && 0 <= seed
      requires 0 <= c.cx + density && 0 <= c.cy + density
      ensures 0 <= r < noise.noiseTableSize
    {
      var wx, wy := Wrap(c.cx, density), Wrap(c.cy, density);
      assert 0 <= noise.LinearIndex(wx, wy, seed) by {
        noise.LinearIndexRange(wx, wy, seed);
      }
      noise.ByPositionAndSeed(wx, wy, seed)
    }

    /// All the samples of cell c.
    function CellValue(u: real, v: real, density: nat, seed: int, c: Cell): real
      reads noise
      requires Valid() && 0.0 < softness && IsPowerOfTwo(density) && 0 <= seed
      requires 0 <= c.cx + density && 0 <= c.cy + density
    {
      CellSum(u, v, density, c.cx, c.cy, CellStart(c, density, seed), samples)
    }

    /// A sample point of a cell outside the searched 2×2 block is out of
    /// reach of (u, v): it is at least half a cell away along that axis.
    lemma OutsideBlockOutOfReach(u: real, v: real, density: nat, cx: int, cy: int, ex: int, ey: int)
      requires 0 < density && 0 < noise.noiseTableSize && 0.0 <= u && 0.0 <= v
      requires 0 <= ex < noise.noiseTableSize && 0 <= ey < noise.noiseTableSize
      requires cx < BlockStart(u, density) || BlockStart(u, density) + 1 < cx
            || cy < BlockStart(v, density) || BlockStart(v, density) + 1 < cy
      ensures 1.0 <= DistanceSquared(u, v, density, PointCoord(cx, density, ex), PointCoord(cy, density, ey))
    {
      PointInCell(cx, density, ex);
      PointInCell(cy, density, ey);
      OutsideCellOutOfReach(u, v, density, cx, cy, PointCoord(cx, density, ex), PointCoord(cy, density, ey));
    }

    /// So such a sample point adds nothing at (u, v).
    lemma ContributionOutsideBlock(u: real, v: real, density: nat, cx: int, cy: int, ti: int)
      requires Valid() && 0.0 < softness && 0 < density && 0 <= ti && 0.0 <= u && 0.0 <= v
      requires cx < BlockStart(u, density) || BlockStart(u, density) + 1 < cx
            || cy < BlockStart(v, density) || BlockStart(v, density) + 1 < cy
      ensures Contribution(u, v, density, cx, cy, ti) == 0.0
    {
      var ex, ey := noise.ByIndex(ti), noise.ByIndex(ti + 1);
      var dsq := DistanceSquared(u, v, density, PointCoord(cx, density, ex), PointCoord(cy, density, ey));
      OutsideBlockOutOfReach(u, v, density, cx, cy, ex, ey);
      WeightedBounds(softness, Height(noise.ByIndex(ti + 2)), dsq);
    }

    /// Every sample of a cell outside the searched block adds nothing.
    lemma {:induction false} CellSumOutsideBlock(u: real, v: real, density: nat, cx: int, cy: int, ti: int, k: nat)
      requires Valid() && 0.0 < softness && 0 < density && 0 <= ti && 0.0 <= u && 0.0 <= v
      requires cx < BlockStart(u, density) || BlockStart(u, density) + 1 < cx
            || cy < BlockStart(v, density) || BlockStart(v, density) + 1 < cy
      ensures CellSum(u, v, density, cx, cy, ti, k) == 0.0
    {
      if k > 0 {
        CellSumOutsideBlock(u, v, density, cx, cy, ti, k - 1);
        ContributionOutsideBlock(u, v, density, cx, cy, ti + 3 * (k - 1));
      }
    }

    /// The reason the source visits only four cells: any cell outside the
    /// 2×2 block picked by the quadrant bits contributes nothing at (u, v),
    /// so the block sum is the sum over all cells around the point.
    lemma CellValueOutsideBlock(u: real, v: real, density: nat, seed: int, c: Cell)
      requires Valid() && 0.0 < softness && IsPowerOfTwo(density) && 0 <= seed && 0.0 <= u && 0.0 <= v
      requires 0 <= c.cx + density && 0 <= c.cy + density
      requires c.cx < BlockStart(u, density) || BlockStart(u, density) + 1 < c.cx
            || c.cy < BlockStart(v, density) || BlockStart(v, density) + 1 < c.cy
      ensures CellValue(u, v, density, seed, c) == 0.0
    {
      CellSumOutsideBlock(u, v, density, c.cx, c.cy, CellStart(c, density, seed), samples);
    }

    /// The first k cells of row cy from column `left` on, in visiting order.
    function RowSum(u: real, v: real, density: nat, seed: int, left: int, cy: int, k: nat): real
      reads noise
      requires Valid() && 0.0 < softness && IsPowerOfTwo(density) && 0 <= seed
      requires -1 <= left && -1 <= cy
    {
      if k == 0 then 0.0
      else RowSum(u, v, density, seed, left, cy, k - 1) + CellValue(u, v, density, seed, Cell(left + k - 1, cy))
    }

    /// The first `rows` rows, two cells each, of the block whose first cell
    /// is (left, top): the cells visited row by row, left to right.
    function BlockSum(u: real, v: real, density: nat, seed: int, left: int, top: int, rows: nat): real
      reads noise
      requires Valid() && 0.0 < softness && IsPowerOfTwo(density) && 0 <= seed
      requires -1 <= left && -1 <= top
    {
      if rows == 0 then 0.0
      else BlockSum(u, v, density, seed, left, top, rows - 1) + RowSum(u, v, density, seed, left, top + rows - 1, 2)
    }

    /// The kernels at the normalized point (u, v) of the points of the 2×2
    /// block of cells nearest to it.
    function BlockAround(u: real, v: real, density: nat, seed: int): real
      reads noise
      requires Valid() && 0.0 < softness && IsPowerOfTwo(density) && 0 <= seed && 0.0 <= u && 0.0 <= v
    {
      BlockSum(u, v, density, seed, BlockStart(u, density), BlockStart(v, density), 2)
    }

    /// One octave at (x, y): the block sum around the normalized point
    /// (x / xSize, y / ySize).
    function CurveStack(x: real, y: real, density: nat, seed: int): real
      reads noise
      requires Valid() && Configured() && 0.0 <= x && 0.0 <= y && IsPowerOfTwo(density) && 0 <= seed
    {
      assert 0.0 <= x / xSize && 0.0 <= y / ySize by {
        NonNegativeQuotient(x, xSize);
        NonNegativeQuotient(y, ySize);
      }
      BlockAround(x / xSize, y / ySize, density, seed)
    }

    /// k sample points add up to at most k times the largest height.
    lemma {:induction false} CellSumBound(u: real, v: real, density: nat, cx: int, cy: int, ti: int, k: nat)
      requires Valid() && 0.0 < softness && 0 < density && 0 <= ti
      ensures Abs(CellSum(u, v, density, cx, cy, ti, k)) <= Times(k, HeightBound())
    {
      if k > 0 {
        CellSumBound(u, v, density, cx, cy, ti, k - 1);
        ContributionBound(u, v, density, cx, cy, ti + 3 * (k - 1));
        AbsSum(CellSum(u, v, density, cx, cy, ti, k - 1), Contribution(u, v, density, cx, cy, ti + 3 * (k - 1)),
               Times(k - 1, HeightBound()), HeightBound());
      }
    }

    /// A row of k cells adds up to at most `samples` heights per cell.
    lemma {:induction false} RowSumBound(u: real, v: real, density: nat, seed: int, left: int, cy: int, k: nat)
      requires Valid() && 0.0 < softness && IsPowerOfTwo(density) && 0 <= seed
      requires -1 <= left && -1 <= cy
      ensures Abs(RowSum(u, v, density, seed, left, cy, k)) <= Times(k, Times(samples, HeightBound()))
    {
      if k > 0 {
        var c := Cell(left + k - 1, cy);
        RowSumBound(u, v, density, seed, left, cy, k - 1);
        CellSumBound(u, v, density, c.cx, c.cy, CellStart(c, density, seed), samples);
        AbsSum(RowSum(u, v, density, seed, left, cy, k - 1), CellValue(u, v, density, seed, c),
               Times(k - 1, Times(samples, HeightBound())), Times(samples, HeightBound()));
      }
    }

    /// `rows` rows of two cells add up to at most `samples` heights per cell.
    lemma {:induction false} BlockSumBound(u: real, v: real, density: nat, seed: int, left: int, top: int, rows: nat)
      requires Valid() && 0.0 < softness && IsPowerOfTwo(density) && 0 <= seed
      requires -1 <= left && -1 <= top
      ensures Abs(BlockSum(u, v, density, seed, left, top, rows)) <= Times(rows, Times(2, Times(samples, HeightBound())))
    {
      if rows > 0 {
        var row := Times(2, Times(samples, HeightBound()));
        BlockSumBound(u, v, density, seed, left, top, rows - 1);
        RowSumBound(u, v, density, seed, left, top + rows - 1, 2);
        AbsSum(BlockSum(u, v, density, seed, left, top, rows - 1), RowSum(u, v, density, seed, left, top + rows - 1, 2),
               Times(rows - 1, row), row);
      }
    }

    /// Largest magnitude one octave can have before amplification: four
    /// cells of `samples` heights each.
    function OctaveBound(): real
    {
      Times(2, Times(2, Times(samples, HeightBound())))
    }

    /// In closed form the one-octave bound is 4 × samples × (|bias| + |range|).
    lemma OctaveBoundClosedForm()
      ensures OctaveBound() == 4.0 * samples as real * HeightBound()
    {
      var c := Times(samples, HeightBound());
      TimesIsProduct(samples, HeightBound());
      TimesIsProduct(2, c);
      TimesIsProduct(2, Times(2, c));
      assert Times(2, c) == 2.0 * c;
      assert Times(2, Times(2, c)) == 2.0 * (2.0 * c);
    }

    /// One octave is bounded by four cells' worth of sample heights: at
    /// most 2 × 2 × samples × (|bias| + |range|) in magnitude.
    lemma CurveStackBound(x: real, y: real, density: nat, seed: int)
      requires Valid() && Configured() && 0.0 <= x && 0.0 <= y && IsPowerOfTwo(density) && 0 <= seed
      ensures Abs(CurveStack(x, y, density, seed)) <= OctaveBound()
    {
      var u, v := x / xSize, y / ySize;
      NonNegativeQuotient(x, xSize);
      NonNegativeQuotient(y, ySize);
      BlockSumBound(u, v, density, seed, BlockStart(u, density), BlockStart(v, density), 2);
    }

    /// A point placed by the same entry in a cell a × density columns further
    /// on lies a whole turn, a, further on.
    lemma PointCoordShift(c: int, density: nat, entry: int, a: nat)
      requires 0 < density && 0 < noise.noiseTableSize
      ensures PointCoord(c + a * density, density, entry) == PointCoord(c, density, entry) + a as real
    {
      var d := density as real;
      assert (c + a * density) as real / d == c as real / d + (a as real * d) / d;
    }

    /// Moving the lookup point and the cell together by whole turns leaves
    /// every sample's contribution unchanged.
    lemma ContributionShift(u: real, v: real, density: nat, cx: int, cy: int, ti: int, a: nat, b: nat)
      requires Valid() && 0.0 < softness && 0 < density && 0 <= ti
      ensures Contribution(u + a as real, v + b as real, density, cx + a * density, cy + b * density, ti)
           == Contribution(u, v, density, cx, cy, ti)
    {
      var ex, ey := noise.ByIndex(ti), noise.ByIndex(ti + 1);
      PointCoordShift(cx, density, ex, a);
      PointCoordShift(cy, density, ey, b);
      var px, py := PointCoord(cx, density, ex), PointCoord(cy, density, ey);
      DistanceSquaredShift(u, v, density, px, py, a as real, b as real);
    }

    lemma {:induction false} CellSumShift(u: real, v: real, density: nat, cx: int, cy: int, ti: int, k: nat, a: nat, b: nat)
      requires Valid() && 0.0 < softness && 0 < density && 0 <= ti
      ensures CellSum(u + a as real, v + b as real, density, cx + a * density, cy + b * density, ti, k)
           == CellSum(u, v, density, cx, cy, ti, k)
    {
      if k > 0 {
        CellSumShift(u, v, density, cx, cy, ti, k - 1, a, b);
        ContributionShift(u, v, density, cx, cy, ti + 3 * (k - 1), a, b);
      }
    }

    /// A cell a × density columns and b × density rows further on is the
    /// same cell of the torus: same table reads, same contribution.
    lemma CellValueShift(u: real, v: real, density: nat, seed: int, c: Cell, a: nat, b: nat)
      requires Valid() && 0.0 < softness && IsPowerOfTwo(density) && 0 <= seed
      requires 0 <= c.cx + density && 0 <= c.cy + density
      ensures CellValue(u + a as real, v + b as real, density, seed, Cell(c.cx + a * density, c.cy + b * density))
           == CellValue(u, v, density, seed, c)
    {
      WrapShift(c.cx, density, a);
      WrapShift(c.cy, density, b);
      CellSumShift(u, v, density, c.cx, c.cy, CellStart(c, density, seed), samples, a, b);
    }

    lemma {:induction false} RowSumShift(u: real, v: real, density: nat, seed: int, left: int, cy: int, k: nat, a: nat, b: nat)
      requires Valid() && 0.0 < softness && IsPowerOfTwo(density) && 0 <= seed
      requires -1 <= left && -1 <= cy
      ensures RowSum(u + a as real, v + b as real, density, seed, left + a * density, cy + b * density, k)
           == RowSum(u, v, density, seed, left, cy, k)
    {
      if k > 0 {
        var c := Cell(left + k - 1, cy);
        RowSumShift(u, v, density, seed, left, cy, k - 1, a, b);
        CellValueShift(u, v, density, seed, c, a, b);
        assert Cell(left + a * density + k - 1, cy + b * density) == Cell(c.cx + a * density, c.cy + b * density);
      }
    }

    lemma {:induction false} BlockSumShift(u: real, v: real, density: nat, seed: int, left: int, top: int, rows: nat, a: nat, b: nat)
      requires Valid() && 0.0 < softness && IsPowerOfTwo(density) && 0 <= seed
      requires -1 <= left && -1 <= top
      ensures BlockSum(u + a as real, v + b as real, density, seed, left + a * density, top + b * density, rows)
           == BlockSum(u, v, density, seed, left, top, rows)
    {
      if rows > 0 {
        BlockSumShift(u, v, density, seed, left, top, rows - 1, a, b);
        RowSumShift(u, v, density, seed, left, top + rows - 1, 2, a, b);
        assert top + b * density + rows - 1 == (top + rows - 1) + b * density;
      }
    }

    /// The block sum around a point moved by whole turns of the unit
    /// square is the block sum around the point.
    lemma BlockAroundShift(u: real, v: real, density: nat, seed: int, a: nat, b: nat)
      requires Valid() && 0.0 < softness && IsPowerOfTwo(density) && 0 <= seed && 0.0 <= u && 0.0 <= v
      ensures BlockAround(u + a as real, v + b as real, density, seed) == BlockAround(u, v, density, seed)
    {
      BlockStartShift(u, density, a);
      BlockStartShift(v, density, b);
      BlockSumShift(u, v, density, seed, BlockStart(u, density), BlockStart(v, density), 2, a, b);
    }

    /// The noise tiles: one octave repeats with period xSize along x and
    /// ySize along y.
    lemma CurveStackTiles(x: real, y: real, density: nat, seed: int, a: nat, b: nat)
      requires Valid() && Configured() && 0.0 <= x && 0.0 <= y && IsPowerOfTwo(density) && 0 <= seed
      ensures CurveStack(x + a as real * xSize, y + b as real * ySize, density, seed) == CurveStack(x, y, density, seed)
    {
      NormalizedShift(x, y, a, b);
      BlockAroundShift(x / xSize, y / ySize, density, seed, a, b);
    }

    /// Moving (x, y) by whole multiples of (xSize, ySize) moves the
    /// normalized point by whole turns of the unit square.
    lemma NormalizedShift(x: real, y: real, a: nat, b: nat)
      requires 0.0 < xSize && 0.0 < ySize && 0.0 <= x && 0.0 <= y
      ensures 0.0 <= x / xSize && 0.0 <= y / ySize
      ensures 0.0 <= x + a as real * xSize && 0.0 <= y + b as real * ySize
      ensures (x + a as real * xSize) / xSize == x / xSize + a as real
      ensures (y + b as real * ySize) / ySize == y / ySize + b as real
    {
      NonNegativeQuotient(x, xSize);
      NonNegativeQuotient(y, ySize);
      NonNegativeProduct(a as real, xSize);
      NonNegativeProduct(b as real, ySize);
      QuotientShift(x, xSize, a as real);
      QuotientShift(y, ySize, b as real);
    }

    /// The seed cursor after n calls of IncrementExternalIndex from 0.
    function SeedCursor(n: nat): (r: int)
      reads noise
      requires Valid()
      ensures 0 <= r < noise.noiseTableSize
    {
      if n == 0 then 0 else noise.IncrementExternalIndex(SeedCursor(n - 1))
    }

    /// The seed of octave k - 1 in closed form: n steps of the prime
    /// increment from 0, `(n × 101159) mod noiseTableSize`.
    lemma {:induction false} SeedCursorClosedForm(n: nat)
      requires Valid()
      ensures SeedCursor(n) == (n * noise.primeCycleIncrement) % noise.noiseTableSize
    {
      if n > 0 {
        SeedCursorClosedForm(n - 1);
        ModAddReduced((n - 1) * noise.primeCycleIncrement, noise.primeCycleIncrement, noise.noiseTableSize);
        assert (n - 1) * noise.primeCycleIncrement + noise.primeCycleIncrement == n * noise.primeCycleIncrement;
      }
    }

    /// `density * 2 ** k`: the density of octave k.
    function OctaveDensity(k: nat): (r: nat)
      requires IsPowerOfTwo(density)
      ensures IsPowerOfTwo(r)
    {
      assert IsPowerOfTwo(density * Pow2(k)) by {
        PowerOfTwoScaled(density, k);
      }
      density * Pow2(k)
    }

    /// An octave's value v scaled by the amplitude of octave k, `amplitudeRatio^k`.
    function Amplified(k: nat, v: real): real
    {
      Power(amplitudeRatio, k) * v
    }

    /// Octave k at (x, y): the one-octave value at density `density * 2^k`
    /// with seed SeedCursor(k + 1), amplified.
    function Layer(x: real, y: real, k: nat): real
      reads noise
      requires Valid() && Configured() && 0.0 <= x && 0.0 <= y
    {
      Amplified(k, CurveStack(x, y, OctaveDensity(k), SeedCursor(k + 1)))
    }

    /// Amplitude decay: octave k adds at most |amplitudeRatio|^k times the
    /// one-octave bound.
    lemma LayerBound(x: real, y: real, k: nat)
      requires Valid() && Configured() && 0.0 <= x && 0.0 <= y
      ensures Abs(Layer(x, y, k)) <= Abs(Power(amplitudeRatio, k)) * OctaveBound()
    {
      var density, seed := OctaveDensity(k), SeedCursor(k + 1);
      var v := CurveStack(x, y, density, seed);
      CurveStackBound(x, y, density, seed);
      AmplifiedBound(k, v);
    }

    lemma AmplifiedBound(k: nat, v: real)
      requires Abs(v) <= OctaveBound()
      ensures Abs(Amplified(k, v)) <= Abs(Power(amplitudeRatio, k)) * OctaveBound()
    {
      AbsProductBound(Power(amplitudeRatio, k), v, OctaveBound());
    }

    /// The first n octaves at (x, y).
    function OctaveSum(x: real, y: real, n: nat): real
      reads noise
      requires Valid() && Configured() && 0.0 <= x && 0.0 <= y
    {
      if n == 0 then 0.0 else OctaveSum(x, y, n - 1) + Layer(x, y, n - 1)
    }

    /// Every octave tiles with the same period, so the sum of octaves does
    /// too: the fractal noise loops on itself with period xSize along x and
    /// ySize along y.
    lemma OctaveSumTiles(x: real, y: real, n: nat, a: nat, b: nat)
      requires Valid() && Configured() && 0.0 <= x && 0.0 <= y
      ensures 0.0 <= x + a as real * xSize && 0.0 <= y + b as real * ySize
      ensures OctaveSum(x + a as real * xSize, y + b as real * ySize, n) == OctaveSum(x, y, n)
    {
      NormalizedShift(x, y, a, b);
      var x', y' := x + a as real * xSize, y + b as real * ySize;
      forall k | 0 <= k < n
        ensures Layer(x', y', k) == Layer(x, y, k)
      {
        LayerTiles(x, y, k, a, b);
      }
      OctaveSumsAgree(x, y, x', y', n);
    }

    /// Two points whose first n octaves agree one by one have the same sum
    /// of n octaves.
    lemma {:induction false} OctaveSumsAgree(x: real, y: real, x': real, y': real, n: nat)
      requires Valid() && Configured() && 0.0 <= x && 0.0 <= y && 0.0 <= x' && 0.0 <= y'
      requires forall k :: 0 <= k < n ==> Layer(x', y', k) == Layer(x, y, k)
      ensures OctaveSum(x', y', n) == OctaveSum(x, y, n)
    {
      if n > 0 {
        OctaveSumsAgree(x, y, x', y', n - 1);
      }
    }

    lemma LayerTiles(x: real, y: real, k: nat, a: nat, b: nat)
      requires Valid() && Configured() && 0.0 <= x && 0.0 <= y
      requires 0.0 <= x + a as real * xSize && 0.0 <= y + b as real * ySize
      ensures Layer(x + a as real * xSize, y + b as real * ySize, k) == Layer(x, y, k)
    {
      CurveStackTiles(x, y, OctaveDensity(k), SeedCursor(k + 1), a, b);
    }

    /// The fractal noise value at (x, y): half the sum of all octaves.
    method Sample(x: real, y: real) returns (r: real)
      requires Valid() && Configured() && 0.0 <= x && 0.0 <= y
      ensures r == 0.5 * OctaveSum(x, y, octaves)
      ensures octaves == 0 ==> r == 0.0
    {
      var cumulativeHeight := 0.0;
      var seedForOctave := 0;
      for octaveIndex := 0 to octaves
        invariant seedForOctave == SeedCursor(octaveIndex)
        invariant cumulativeHeight == OctaveSum(x, y, octaveIndex)
      {
        seedForOctave := noise.IncrementExternalIndex(seedForOctave);
        var layer := CurveStack2x2(x, y, OctaveDensity(octaveIndex), seedForOctave);
        cumulativeHeight := cumulativeHeight + Amplified(octaveIndex, layer);
      }
      return 0.5 * cumulativeHeight;
    }

    /// The kernel step of one sample: a point at squared distance dsq adds
    /// its height h scaled by the squared kernel factor, and nothing when it
    /// is out of reach.
    method WeighHeight(h: real, distanceSquared: real) returns (w: real)
      requires 0.0 < softness && 0.0 <= distanceSquared
      ensures w == Weighted(softness, h, distanceSquared)
      ensures Abs(w) <= Abs(h)
      ensures distanceSquared == 0.0 ==> w == h
      ensures 1.0 <= distanceSquared ==> w == 0.0
    {
      WeightedBounds(softness, h, distanceSquared);
      w := 0.0;
      if distanceSquared < 1.0 {
        var amp := KernelFactor(softness, distanceSquared);
        amp := amp * amp;
        w := h * amp;
      }
    }

    /// The sample loop of one cell: reads three table entries per sample from
    /// `ti` on (point x, point y, height) and adds each weighted height to
    /// `sum`. Returns the new sum and the advanced table index.
    method AccumulateSamples(sum0: real, u: real, v: real, density: nat, cx: int, cy: int, ti0: int)
      returns (sum: real, ti: int)
      requires Valid() && 0.0 < softness && 0 < density && 0 <= ti0
      ensures sum == sum0 + CellSum(u, v, density, cx, cy, ti0, samples)
      ensures ti == ti0 + 3 * samples
    {
      sum, ti := sum0, ti0;
      for a := 0 to samples
        invariant ti == ti0 + 3 * a
        invariant sum == sum0 + CellSum(u, v, density, cx, cy, ti0, a)
      {
        var px := PointCoord(cx, density, noise.ByIndex(ti));
        ti := ti + 1;
        var py := PointCoord(cy, density, noise.ByIndex(ti));
        ti := ti + 1;
        var distanceSquared := DistanceSquared(u, v, density, px, py);
        var h := Height(noise.ByIndex(ti));
        ti := ti + 1;
        var weighted := WeighHeight(h, distanceSquared);
        sum := sum + weighted;
      }
    }

    /// The visit of cell (cx, cy): looks up where its sample reads start,
    /// `byPositionAndSeed((cx + density) & dm1, (cy + density) & dm1, seed)`,
    /// and runs its sample loop, adding to `sum0`.
    method VisitCell(sum0: real, u: real, v: real, density: nat, dm1: int, seed: int, cx: int, cy: int)
      returns (sum: real)
      requires Valid() && 0.0 < softness && IsPowerOfTwo(density) && dm1 == density - 1 && 0 <= seed
      requires 0 <= cx + density && 0 <= cy + density
      ensures sum == sum0 + CellValue(u, v, density, seed, Cell(cx, cy))
    {
      noise.LinearIndexRange(BitAnd(cx + density, dm1), BitAnd(cy + density, dm1), seed);
      var ti := noise.ByPositionAndSeed(BitAnd(cx + density, dm1), BitAnd(cy + density, dm1), seed);
      sum, ti := AccumulateSamples(sum0, u, v, density, cx, cy, ti);
    }

    /// The inner cell loop of one octave: visits cells (left, cy) and
    /// (left + 1, cy) of row cy, left to right, adding their kernels to `sum0`.
    method VisitRow(sum0: real, u: real, v: real, density: nat, dm1: int, seed: int, left: int, cy: int)
      returns (sum: real)
      requires Valid() && 0.0 < softness && IsPowerOfTwo(density) && dm1 == density - 1 && 0 <= seed
      requires -1 <= left && -1 <= cy
      ensures sum == sum0 + RowSum(u, v, density, seed, left, cy, 2)
    {
      var right := left + 1;
      sum := sum0;
      for cx := left to right + 1
        invariant sum == sum0 + RowSum(u, v, density, seed, left, cy, cx - left)
      {
        sum := VisitCell(sum, u, v, density, dm1, seed, cx, cy);
      }
    }

    /// The outer cell loop of one octave: visits rows top and top + 1 of
    /// the 2×2 block whose first cell is (left, top), top to bottom.
    method VisitBlock(u: real, v: real, density: nat, dm1: int, seed: int, left: int, top: int)
      returns (sum: real)
      requires Valid() && 0.0 < softness && IsPowerOfTwo(density) && dm1 == density - 1 && 0 <= seed
      requires -1 <= left && -1 <= top
      ensures sum == BlockSum(u, v, density, seed, left, top, 2)
    {
      var bottom := top + 1;
      sum := 0.0;
      for cy := top to bottom + 1
        invariant sum == BlockSum(u, v, density, seed, left, top, cy - top)
      {
        sum := VisitRow(sum, u, v, density, dm1, seed, left, cy);
        assert BlockSum(u, v, density, seed, left, top, cy + 1 - top)
            == BlockSum(u, v, density, seed, left, top, cy - top) + RowSum(u, v, density, seed, left, cy, 2);
      }
    }

    /// One octave at (x, y): normalizes the point, picks the 2×2 block of
    /// cells nearest to it and visits the block.
    method CurveStack2x2(x: real, y: real, density: nat, seed: int) returns (sum: real)
      requires Valid() && Configured()
      requires 0.0 <= x && 0.0 <= y && IsPowerOfTwo(density) && 0 <= seed
      ensures sum == CurveStack(x, y, density, seed)
    {
      NonNegativeQuotient(x, xSize);
      NonNegativeQuotient(y, ySize);
      var u := x / xSize;
      var v := y / ySize;
      var ix := CellIndex(u, density);
      var iy := CellIndex(v, density);
      var dm1 := density - 1;
      var left := ix - 1 + QuadrantBit(u, density);
      var top := iy - 1 + QuadrantBit(v, density);
      assert left == BlockStart(u, density) && top == BlockStart(v, density);
      sum := VisitBlock(u, v, density, dm1, seed, left, top);
    }
  }
}
