# Fractal cell noise, modelled in Dafny

This project models the CPU-side noise generator of a small WebGPU demo. It
also models the observer helper that the demo uses for events.

- **NoiseTable** (`noise_table.dfy`, module `NoiseTables`). The table shuffles
  the integers `0 .. noiseWidth² - 1` at construction, drawing random cards out
  of a working list. After that it answers deterministic lookups: by index
  (read periodically), by index scaled into `[0, 1)`, and by a cell position on
  the `noiseWidth × noiseWidth` torus plus a seed. It also offers a pure
  seed-cursor step and a stored cursor that advances by the prime `101159`.
- **Octavia** (`octavia.dfy`, module `OctaviaNoise`). The fractal cellular
  noise. One octave normalises the point into the unit square and picks the
  2×2 block of cells nearest to it from the quadrant the point lies in. It
  wraps each cell index onto the torus with `(c + density) & (density - 1)`.
  For every sample point of each cell it reads three consecutive table entries
  (x, y, height) and adds the height weighted by the squared kernel
  `(s (1 - d) / (s + d))²`. `sample` adds octaves at doubling densities, each
  with its own seed and amplitude `amplitudeRatio^k`, and halves the total.
- **Observer** (`observer.dfy`, module `Observers`). A list of callbacks with
  add, remove-first-occurrence, clear and notify-in-order.
- `bits.dfy` (module `Bits`) models the JavaScript `&` on non-negative integers
  and relates it to `%`. `splicing.dfy` (module `Splicing`) models
  `Array.prototype.splice(index, 1)`.

Octavia's arithmetic is modelled over exact reals. The table's is exact
integer arithmetic. Each loop of the source is a `method` with loop invariants.
Every deterministic loop is proved equal to a specification function, and the
properties are proved about those functions. The shuffle loop of `initTable`
is the exception: each of its draws is an arbitrary choice, so no function
describes its result, and it is proved instead to leave a permutation of
`0 .. noiseTableSize - 1`.

Three behaviours of the code shape the preconditions and bounds:

- `byIndex` is periodic only on non-negative indices: JavaScript's `%` on a
  negative index gives a negative position and the read returns `undefined`,
  so the model requires non-negative indices.
- The code does not reject a non-power-of-two density; its `&` wrap is then
  not a modulo, so `Configured` requires a power of two.
- The code does not bound `sample`'s output; the model proves the one-octave
  bound `4 × samples × (abs(bias) + abs(range))`.

## Model

| member | source | states |
|---|---|---|
| `Bits.BitAnd` | src/octavia.ts:87-88 | JavaScript's `&` on non-negative integers, bit by bit from the lowest; it is used for the quadrant bit here and for the torus wrap at lines 100-101; the result is at most either operand |
| `Bits.Pow2` | src/octavia.ts:68 | `2 ** k` for a whole k, a power of two and so at least 1 |
| `Bits.BitAndLowMask` | src/octavia.ts:82 | for a power of two n, `m & (n - 1)` equals `m % n` |
| `Bits.BitAndOne` | src/octavia.ts:87-88 | `m & 1` is the parity of m |
| `Bits.WrapIsMod` | src/octavia.ts:99-103 | for a power-of-two density and `c + density >= 0`, the wrapped index `(c + density) & (density - 1)` lies in `[0, density)` and equals `c mod density` |
| `Bits.WrapPeriodic` | src/octavia.ts:100-101 | cells a whole number of turns apart wrap to the same torus cell |
| `Bits.PowerOfTwoScaled` | src/octavia.ts:68 | `density * 2^k` is a power of two when density is |
| `Splicing.Splice` | src/noiseTable.ts:110 | `splice(index, 1)` removes exactly that position: one element shorter, earlier elements in place, later ones moved down one, removed element plus rest is the old multiset |
| `NoiseTables.Range` | src/noiseTable.ts:40-42 | the list the fill loop builds: `0 .. n - 1` in ascending order |
| `NoiseTables.PermutationFacts` | src/noiseTable.ts:29-47 | a table built as a permutation of `0 .. n - 1` has n entries, all in range, each value exactly once, no two entries equal |
| `NoiseTables.NoiseTable.constructor` | src/noiseTable.ts:29-35 | `noiseTableSize = noiseWidth²`, the table is a permutation of `0 .. noiseTableSize - 1`, the cursor starts at 0 |
| `NoiseTables.NoiseTable.InitTable` | src/noiseTable.ts:37-47 | filling the list with `0 .. size - 1` and drawing `size` cards yields a permutation; the empty-deck throw is never reached |
| `NoiseTables.NoiseTable.DrawCard` | src/noiseTable.ts:100-111 | throws exactly on an empty list; otherwise returns an element of the list and the list with that one position spliced out (length minus one, order kept) |
| `NoiseTables.NoiseTable.GetNextIndex` | src/noiseTable.ts:49-54 | the cursor becomes `(nextIndex + 101159) % noiseTableSize`, which is returned and lies in `[0, noiseTableSize)`; the table does not change |
| `NoiseTables.NoiseTable.ByIndex` | src/noiseTable.ts:64-70 | for `index >= 0` the entry lies in `[0, noiseTableSize)` |
| `NoiseTables.NoiseTable.ByIndexPeriodic` | src/noiseTable.ts:68-70 | `byIndex(i + k * noiseTableSize) == byIndex(i)` for `i >= 0` |
| `NoiseTables.NoiseTable.ByIndexNormalized` | src/noiseTable.ts:56-62 | the entry divided by the table size lies in `[0, 1)` |
| `NoiseTables.NoiseTable.IncrementExternalIndex` | src/noiseTable.ts:72-74 | the next cursor lies in `[0, noiseTableSize)` and is congruent to `index + 101159` modulo the size; no state is involved |
| `NoiseTables.NoiseTable.ByPositionAndSeed` | src/noiseTable.ts:88-98 | the position lookup lies in `[0, noiseTableSize)` |
| `NoiseTables.NoiseTable.ByPositionAndSeedNormalized` | src/noiseTable.ts:76-86 | the normalized position lookup lies in `[0, 1)` |
| `NoiseTables.NoiseTable.ByPositionTiles` | src/noiseTable.ts:82-98 | moving x or y by whole multiples of `noiseWidth` changes neither the linear index nor either lookup |
| `NoiseTables.NoiseTable.LinearIndex` | src/noiseTable.ts:95 | the linear index `(x % noiseWidth) + (y % noiseWidth) * noiseWidth + seed` of both position lookups (also line 83); its range and injectivity are the two rows below |
| `NoiseTables.NoiseTable.LinearIndexRange` | src/noiseTable.ts:95 | `(x % w) + (y % w) * w` lies in `[0, w²)`, so the linear index is within one table period after the seed |
| `NoiseTables.NoiseTable.LinearIndexInjective` | src/noiseTable.ts:95 | two positions with the same linear index are the same torus cell |
| `OctaviaNoise.Power` | src/octavia.ts:69 | `amplitudeRatio ** k` for a whole k; the decay bound is `LayerBound` |
| `OctaviaNoise.Scaled` | src/octavia.ts:79-80 | `w * density`, non-negative for non-negative w; it moves by `a × density` when w moves by a whole a (`ScaledShift`) |
| `OctaviaNoise.ScaledShift` | src/octavia.ts:79-80 | moving the normalized coordinate by a whole turn a moves the scaled coordinate by `a × density` |
| `OctaviaNoise.CellIndex` | src/octavia.ts:79-80 | `ix = Math.floor(x * density)`, the cell holding the normalized point; it moves by `a × density` cells per whole turn (`CellIndexShift`) |
| `OctaviaNoise.CellIndexShift` | src/octavia.ts:79-80 | moving the point by a whole turn a moves its cell index by `a × density` |
| `OctaviaNoise.QuadrantBit` | src/octavia.ts:87-88 | `Math.floor(x * 2 * density) & 1`, either 0 or 1; its meaning is `QuadrantBitIsUpperHalf` |
| `OctaviaNoise.HalfParity` | src/octavia.ts:87-88 | `Math.floor(2 t) & 1` on the scaled coordinate t, either 0 or 1 |
| `OctaviaNoise.HalfParityIsUpperHalf` | src/octavia.ts:87-88 | the half bit is 1 exactly when t lies in the upper half of its unit interval |
| `OctaviaNoise.QuadrantBitShift` | src/octavia.ts:87-88 | whole turns do not change the quadrant bit |
| `OctaviaNoise.BlockStartShift` | src/octavia.ts:79-89 | whole turns move the searched block by `a × density` cells |
| `OctaviaNoise.BlockStart` | src/octavia.ts:79-89 | the first cell of the searched block is `ix - 1` or `ix` |
| `OctaviaNoise.QuadrantBitIsUpperHalf` | src/octavia.ts:87-88 | the quadrant bit is 1 exactly when the point lies in the upper half of its cell, so `left = ix` exactly then |
| `OctaviaNoise.BlockCentredOnPoint` | src/octavia.ts:84-89 | the point lies at least half a cell inside the chosen 2×2 block on each axis |
| `OctaviaNoise.OutsideCellOutOfReach` | src/octavia.ts:84-89 | a point inside a cell outside the 2×2 block is at squared distance at least 1, out of the kernel's reach |
| `OctaviaNoise.Wrap` | src/octavia.ts:100-101 | `(c + density) & (density - 1)`, the torus wrap of a cell index; its meaning is `Bits.WrapIsMod` |
| `OctaviaNoise.WrapShift` | src/octavia.ts:100-101 | cells `a × density` apart wrap to the same torus cell |
| `OctaviaNoise.DistanceSquared` | src/octavia.ts:112 | the scaled squared distance is non-negative |
| `OctaviaNoise.KernelFactor` | src/octavia.ts:117 | `softness * (1 - d) / (softness + d)`; it is non-increasing in d (`FactorDecreasing`) |
| `OctaviaNoise.Kernel` | src/octavia.ts:117-118 | the factor squared; its bounds and monotonicity are `KernelBounds` and `KernelDecreasing` |
| `OctaviaNoise.KernelBounds` | src/octavia.ts:116-118 | for softness `> 0` and `0 <= d <= 1` the kernel lies in `[0, 1]`, is 1 at `d = 0` and 0 at `d = 1` |
| `OctaviaNoise.KernelDecreasing` | src/octavia.ts:115-118 | the kernel does not increase with the distance on `[0, 1]` |
| `OctaviaNoise.Weighted` | src/octavia.ts:116-121 | `h × kernel(d)` when `d < 1` and 0 otherwise; its bounds are `WeightedBounds` |
| `OctaviaNoise.WeightedBounds` | src/octavia.ts:116-121 | a weighted height is at most the height in magnitude, the full height at distance 0, and nothing for `d >= 1` |
| `OctaviaNoise.Octavia.constructor` | src/octavia.ts:43-60 | the configuration is stored and a fresh width-256 table is built |
| `OctaviaNoise.Octavia.PointCoord` | src/octavia.ts:109-110 | `c / density + entry / noiseTableSize / density`; it lies in cell c (`PointInCell`) |
| `OctaviaNoise.Octavia.PointInCell` | src/octavia.ts:109-110 | a sample coordinate satisfies `c / density <= p < (c + 1) / density` |
| `OctaviaNoise.Octavia.Height` | src/octavia.ts:114 | `bias + -range + 2 * range * entry / noiseTableSize`; its range is `HeightInRange` |
| `OctaviaNoise.Octavia.HeightInRange` | src/octavia.ts:114 | a sample height lies in `[bias - range, bias + range)` for `range > 0`, and within `abs(bias) + abs(range)` in magnitude |
| `OctaviaNoise.Octavia.Contribution` | src/octavia.ts:109-121 | one sample's weighted height, read from table entries ti, ti + 1, ti + 2 in that order; bounded by `ContributionBound` |
| `OctaviaNoise.Octavia.CellSum` | src/octavia.ts:108-122 | the sum of a cell's first k samples, each reading three entries on from the last; bounded by `CellSumBound` |
| `OctaviaNoise.Octavia.ContributionBound` | src/octavia.ts:109-121 | one sample adds at most `abs(bias) + abs(range)` in magnitude |
| `OctaviaNoise.Octavia.CellStart` | src/octavia.ts:99-103 | a cell's reads start at the position lookup of its wrapped coordinates, a value in `[0, noiseTableSize)` |
| `OctaviaNoise.Octavia.CellValue` | src/octavia.ts:99-122 | a cell's `samples` samples, read from its position lookup on; 0 outside the block (`CellValueOutsideBlock`) |
| `OctaviaNoise.Octavia.RowSum` | src/octavia.ts:97-123 | the inner `cx` loop's running sum: the first k cells of row cy from `left` on, in visiting order; bounded by `RowSumBound`, periodic by `RowSumShift` |
| `OctaviaNoise.Octavia.RowSumBound` | src/octavia.ts:97-123 | k cells of a row add at most k × samples × (abs(bias) + abs(range)) in magnitude, written as repeated addition (`Times`) |
| `OctaviaNoise.Octavia.RowSumShift` | src/octavia.ts:97-123 | moving the point by whole turns a along x and b along y, and the row's first cell and row by `a × density` and `b × density` cells, leaves the row sum unchanged |
| `OctaviaNoise.Octavia.BlockSum` | src/octavia.ts:96-124 | the outer `cy` loop's running sum: the first `rows` rows, two cells each, from `top` on; bounded by `BlockSumBound`, periodic by `BlockSumShift` |
| `OctaviaNoise.Octavia.BlockSumBound` | src/octavia.ts:96-124 | `rows` rows of two cells add at most rows × 2 × samples × (abs(bias) + abs(range)) in magnitude, written as repeated addition (`Times`) |
| `OctaviaNoise.Octavia.BlockSumShift` | src/octavia.ts:96-124 | moving the point by whole turns a along x and b along y, and the block's first cell by `a × density` and `b × density` cells, leaves the block sum unchanged |
| `OctaviaNoise.Octavia.BlockAround` | src/octavia.ts:84-124 | the block sum from the quadrant-chosen `left` and `top` at the normalized point; periodic by `BlockAroundShift` |
| `OctaviaNoise.Octavia.BlockAroundShift` | src/octavia.ts:84-124 | moving the normalized point by whole turns leaves the block sum around it unchanged |
| `OctaviaNoise.Octavia.CurveStack` | src/octavia.ts:75-127 | one octave: the sum of the four cells of the block chosen from the quadrant of the normalized point; bounded by `CurveStackBound`, periodic by `CurveStackTiles` |
| `OctaviaNoise.Octavia.CellValueOutsideBlock` | src/octavia.ts:84-89 | every cell outside the 2×2 block contributes exactly 0, so visiting four cells loses nothing |
| `OctaviaNoise.Octavia.CurveStackBound` | src/octavia.ts:75-127 | one octave is at most `OctaveBound()`, 2 × 2 cells of `samples` heights of at most `abs(bias) + abs(range)` each, in magnitude |
| `OctaviaNoise.Octavia.OctaveBoundClosedForm` | src/octavia.ts:96-122 | the one-octave bound `OctaveBound()` is `4 × samples × (abs(bias) + abs(range))` |
| `OctaviaNoise.Octavia.CurveStackTiles` | src/octavia.ts:75-127 | one octave repeats with period xSize along x and ySize along y: the noise loops on itself |
| `OctaviaNoise.Octavia.SeedCursor` | src/octavia.ts:64-67 | the octave seed after n cursor steps lies in `[0, noiseTableSize)` |
| `OctaviaNoise.Octavia.SeedCursorClosedForm` | src/octavia.ts:64-67 | the seed after n steps is `(n × 101159) % noiseTableSize` |
| `OctaviaNoise.Octavia.OctaveDensity` | src/octavia.ts:68 | octave k's density `density * 2^k` is a power of two |
| `OctaviaNoise.Octavia.Amplified` | src/octavia.ts:69 | `(amplitudeRatio ** octaveIndex) * layer`; bounded by `AmplifiedBound` |
| `OctaviaNoise.Octavia.AmplifiedBound` | src/octavia.ts:69 | an amplified octave within the one-octave bound is at most abs(amplitudeRatio)^k times that bound |
| `OctaviaNoise.Octavia.Layer` | src/octavia.ts:67-69 | octave k: `amplitudeRatio ** k` times the octave at density `density * 2 ** k` with the (k + 1)-th seed; bounded by `LayerBound` |
| `OctaviaNoise.Octavia.LayerBound` | src/octavia.ts:68-69 | octave k adds at most abs(amplitudeRatio)^k times the one-octave bound |
| `OctaviaNoise.Octavia.OctaveSum` | src/octavia.ts:66-70 | the sum of octaves 0 .. n - 1; periodic by `OctaveSumTiles` |
| `OctaviaNoise.Octavia.OctaveSumTiles` | src/octavia.ts:62-73 | the sum of any number of octaves repeats with period xSize along x and ySize along y |
| `OctaviaNoise.Octavia.Sample` | src/octavia.ts:62-73 | `sample` returns half the sum over octaves k of `amplitudeRatio^k` times the octave at density `density * 2^k` with seed `SeedCursor(k + 1)`; 0 with no octaves |
| `OctaviaNoise.Octavia.WeighHeight` | src/octavia.ts:116-121 | the kernel step adds `h × kernel(d)` within reach and nothing otherwise: never more than `abs(h)`, the full h at distance 0, nothing at `d >= 1` |
| `OctaviaNoise.Octavia.AccumulateSamples` | src/octavia.ts:108-122 | the sample loop adds the cell's samples to the sum and advances the table index by exactly `3 × samples`, three reads per sample |
| `OctaviaNoise.Octavia.VisitCell` | src/octavia.ts:99-122 | one cell visit adds that cell's value, its reads starting at the cell's position lookup |
| `OctaviaNoise.Octavia.VisitRow` | src/octavia.ts:97-123 | the inner loop adds cells `left` and `left + 1` of a row, in that order |
| `OctaviaNoise.Octavia.VisitBlock` | src/octavia.ts:96-124 | the outer loop adds rows `top` and `top + 1`: exactly four cells |
| `OctaviaNoise.Octavia.CurveStack2x2` | src/octavia.ts:75-127 | one octave's loops compute the block sum around the normalized point |
| `Observers.IndexOf` | src/observer.ts:30 | `indexOf` is -1 exactly when the callback is absent, otherwise the position of its first occurrence |
| `Observers.Removed` | src/observer.ts:29-34 | removing an absent callback changes nothing; removing a present one drops only its first occurrence, one element shorter, the others in order |
| `Observers.AddThenRemove` | src/observer.ts:25-34 | adding a callback that was not registered and removing it again restores the list |
| `Observers.Observer.constructor` | src/observer.ts:21-23 | a new observer has no callbacks |
| `Observers.Observer.AddCallback` | src/observer.ts:25-27 | the callback is appended at the end, earlier ones unchanged |
| `Observers.Observer.RemoveCallback` | src/observer.ts:29-34 | the list becomes `Removed(old list, callback)` |
| `Observers.Observer.RemoveAllCallbacks` | src/observer.ts:36-38 | the list becomes empty |
| `Observers.Observer.Notify` | src/observer.ts:40-44 | every callback is called once per list entry, in list order, with the same arguments; the list is not changed |

## Left out

- IEEE-754 rounding: Octavia is modelled over exact reals, so nothing here claims bit-exact float results.
- JavaScript's 32-bit truncation in `&` for values beyond 2³¹: `&` is modelled on unbounded non-negative integers.
- `Math.random` in `drawCard`: the index is an arbitrary choice in `[0, length)`. The distribution is not modelled.
- What callbacks do inside `notify`: they are foreign calls. `Notify` returns the sequence of calls it makes instead.
- The unused fields `noiseSeed`, `noiseTableSizeM` and `Octavia.seed`.
- The default argument `noiseWidth = 256` of the table: Dafny has no default arguments, so the width is always passed. Octavia passes 256, as the source does.
- Any `[-1, 1]` bound on `sample`: the code neither checks nor guarantees one.
- `NoiseTables.NoiseTable.ByIndex`, `NoiseTables.NoiseTable.ByIndexNormalized`, `NoiseTables.NoiseTable.ByPositionAndSeed`, `NoiseTables.NoiseTable.ByPositionAndSeedNormalized`: these require non-negative indices and coordinates. For negative ones, JavaScript's `%` gives a negative position and the source reads `undefined`. They also require a non-empty table, since `% 0` gives `NaN`.
- `NoiseTables.NoiseTable.GetNextIndex` and `NoiseTables.NoiseTable.IncrementExternalIndex`: these require a non-empty table, for the same `% 0` reason. `IncrementExternalIndex` also requires `0 <= index + 101159`; its only caller passes a cursor in `[0, noiseTableSize)`.
- `OctaviaNoise.Octavia.Sample`, `OctaviaNoise.Octavia.CurveStack2x2`: these require `x, y >= 0`, positive `xSize`, `ySize` and `softness`, and a power-of-two density. For negative coordinates the source relies on two's-complement `&` on negative integers, which the model does not cover. Zero extents or softness divide by zero. Negative softness is not modelled: for softness at most -1 the source computes a kernel without fault, since `softness + distance_squared` stays negative. A non-power-of-two density makes the wrap something other than a modulo.
- The WebGPU renderer, buffer helpers, square generator, camera, canvas sizing and page wiring are not part of this model: they are device and DOM plumbing with no logic of their own to prove.
