# Gauche probability per dihedral position — a verified model

The analysis script reads a molecular-dynamics trajectory of identical linear
chains. It checks that the atom count is a whole number of chains. It then
walks the frames and skips a warm-up prefix. It cuts every kept frame into
chains of `ATOMS_PER_CHAIN` atoms. It takes every 4-atom window `j .. j+3`
along each chain. It wraps that window's dihedral angle into [-180, 180) and
calls it gauche when it lies in [-90, -30] or [30, 90]. It counts gauche
windows per position `j` and divides each count by the number of
(frame, chain) samples.

This project models that computation (`main()`, lines 16-48) in Dafny:

- `angles.dfy` (module `Angles`): the wrap `(a + 180) % 360 - 180` on real
  degrees, with Python's floored `%` written as `s - 360 * floor(s / 360)`.
  It also holds the band test and their properties: range, congruence,
  uniqueness, idempotence, periodicity and the exact band ends.
- `layout.dfy` (module `Layout`): atoms, frames, the dihedral as a
  parameter, and the slicing of a frame into chains and windows. Its lemmas
  show that every atom a window reads lies in its own chain's block and
  below the atom count.
- `tally.dfy` (module `Tally`): the specification of the counts. It defines
  the frames kept, the per-frame gauche count, the per-trajectory gauche
  count, the sample total and the resulting profile. Its lemmas cover error
  cases, bounds, probabilities in [0, 1] and the irrelevance of skipped
  frames.
- `analysis.dfy` (module `Analysis`): the loops as the script runs them. A
  counter `array<nat>` is updated in place window by window, chain by chain
  and frame by frame. Each method is proved against the `Tally` functions.
- `scenarios.dfy` (module `Scenarios`): two worked runs of the whole
  pipeline.

`ATOMS_PER_CHAIN` and `SKIP_FRAMES` are the fields of `Tally.Config`. The
script fixes them at 18 and 5000. The trajectory is a sequence of frames,
each holding the same `nAtoms` atoms (`Tally.Uniform`).

Where the code and its comment or design text disagree, the model follows
the code:

- The comment on line 42 calls the wrapped range [-180, 180]. A design
  description of the system says (-180, 180]. The code, with a positive
  modulus, produces the half-open [-180, 180): 180 maps to -180
  (`Angles.WrapOfHalfTurn`). Neither end is gauche, so the counts are the
  same under any of the three readings.
- When no frame is kept, or the system has no atoms, line 48 divides by
  zero. With numpy this gives NaN entries rather than an exception. The
  model reports `Failure(EmptySample)` in that case, as the system's design
  requires, instead of a profile of NaNs.

## Model

| member | source | states |
|---|---|---|
| `Angles.Wrap` | Gauche-Function-Analysis.py:42 | the wrapped angle lies in the half-open interval [-180, 180) |
| `Angles.WrapCongruent` | Gauche-Function-Analysis.py:42 | the wrap removes only whole turns: the result equals the input minus 360 times an integer |
| `Angles.WrapFixesRange` | Gauche-Function-Analysis.py:42 | an angle already in [-180, 180) is left unchanged |
| `Angles.WrapIdempotent` | Gauche-Function-Analysis.py:42 | wrapping twice gives the same result as wrapping once |
| `Angles.WrapUnique` | Gauche-Function-Analysis.py:42 | any value in [-180, 180) that differs from the input by whole turns is the wrap's result |
| `Angles.WrapPeriodic` | Gauche-Function-Analysis.py:42 | inputs a whole number of turns apart wrap to the same value |
| `Angles.WrapOfHalfTurn` | Gauche-Function-Analysis.py:42 | 180 and -180 both wrap to -180, so 180 is never produced, and that value is not gauche |
| `Angles.GauchePeriodic` | Gauche-Function-Analysis.py:42-44 | the gauche label of a raw angle depends only on the angle modulo 360 |
| `Angles.GaucheByMagnitude` | Gauche-Function-Analysis.py:44 | gauche exactly when 30 <= abs(angle) <= 90, so the label is the same for an angle and its negation |
| `Angles.GaucheBoundaries` | Gauche-Function-Analysis.py:44 | the four ends -90, -30, 30 and 90 are gauche, and every point just outside a band is not |
| `Layout.ChainInside` | Gauche-Function-Analysis.py:35-37 | for every chain index below the chain count, the chain's block ends at or before the last atom of the frame |
| `Layout.Chain` | Gauche-Function-Analysis.py:36-37 | chain `i` has exactly `atomsPerChain` atoms, and its atom `t` is frame atom `i * atomsPerChain + t` |
| `Layout.Window` | Gauche-Function-Analysis.py:39-40 | window `j` of chain `i` is four atoms, namely frame atoms `i * atomsPerChain + j + t` for t in 0..3 |
| `Layout.WindowInChain` | Gauche-Function-Analysis.py:35-40 | when the atom count divides evenly, every atom read by window `j < atomsPerChain - 3` of chain `i < nChains` lies inside chain `i`'s block and below `nAtoms` |
| `Layout.WindowsOverlap` | Gauche-Function-Analysis.py:39-40 | consecutive windows share three atoms |
| `Tally.RetainedFrames` | Gauche-Function-Analysis.py:29-33 | `frame_count` after `upto` frames never exceeds `upto` |
| `Tally.RetainedFramesClosedForm` | Gauche-Function-Analysis.py:29-33 | `frame_count` is 0 when `upto <= skip` and `upto - skip` otherwise, so it counts exactly the frames with index >= skip |
| `Tally.ChainHits` | Gauche-Function-Analysis.py:35-45 | one frame adds at most one gauche observation per chain at each position |
| `Tally.Hits` | Gauche-Function-Analysis.py:29-45 | every `gauche_counts[j]` stays at or below `frame_count * n_chains`, the number of samples |
| `Tally.ProfileFailsExactly` | Gauche-Function-Analysis.py:16-48 | the run stops with the divisibility error if and only if `n_atoms % ATOMS_PER_CHAIN != 0`; otherwise it has no sample if and only if no frame index reaches `skip` or there are no atoms |
| `Tally.ProfileInUnitInterval` | Gauche-Function-Analysis.py:47-48 | a successful run gives `ATOMS_PER_CHAIN - 3` probabilities, each in [0, 1] |
| `Tally.HitsIgnoreSkipped` | Gauche-Function-Analysis.py:30-45 | changing frames with index below `skip` leaves every count unchanged |
| `Tally.ProfileIgnoresSkipped` | Gauche-Function-Analysis.py:30-48 | two trajectories that differ only in skipped frames give the same outcome |
| `Analysis.RecordWindow` | Gauche-Function-Analysis.py:42-45 | one window adds 1 to `gauche_counts[j]` exactly when its wrapped angle is gauche; every other slot is unchanged, and no slot decreases |
| `Analysis.ProcessFrame` | Gauche-Function-Analysis.py:35-45 | after one kept frame, each slot `j` has grown by exactly the number of chains gauche at position `j` |
| `Analysis.Analyze` | Gauche-Function-Analysis.py:16-48 | the in-place run returns exactly the specified profile, including the divisibility error before any frame is read and the empty-sample error |
| `Scenarios.OneGaucheFrameInThree` | Gauche-Function-Analysis.py:29-48 | with 36 atoms in 2 chains of 18, one all-60-degree frame and two all-180-degree frames give probability 1/3 at all 15 positions |
| `Scenarios.AllSkipped` | Gauche-Function-Analysis.py:29-48 | when every frame is skipped the run reports an empty sample |

## Left out

- Loading the topology and trajectory (`mda.Universe`, lines 12-13, 30): file I/O through an external library. Frames are a finite `seq<Frame>` instead.
- The dihedral geometry and the radian-to-degree conversion (lines 40-41): a foreign call and floating-point trigonometry. They become the `dihedral` parameter, which maps four points to degrees.
- Floating point: angles and probabilities are exact reals. Rounding in the float `%` is not modelled: for an input just below -180 the float `%` can round up to 360, so the script's wrap can return 180, which the exact model never does.
- Integer width: counts are unbounded `nat`. numpy's 64-bit counters cannot overflow here, because every count is at most `frame_count * n_chains`.
- Console output, the percentage table and the `np.mean` overall ratio (lines 25-27, 50-60, 63): reporting only.
- `np.savetxt` and its header (line 62): file writing.
- The file-path constants (lines 6-7): configuration only.
- `Analysis.Analyze`: requires `atomsPerChain >= 3`. The script's constant is 18. Below 3, `np.zeros` gets a negative size and raises, and 0 divides by zero in the modulo. The model does not reproduce those crashes.
- With no sample the model returns `EmptySample` instead of numpy's NaN entries; see above.
- The process exit with status 1 on the divisibility error (line 18) is the `AtomCountNotDivisible` result.
