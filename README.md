# Hexatic order parameter engine, modelled in Dafny

This project models `HexOrderParameter` from freud. The engine computes a
per-particle hexatic (bond-orientational) order parameter for points in a
periodic box. For each particle it visits a fixed number `k` of nearest
neighbours and skips degenerate pairs, whose wrapped squared distance is at
most 1e-6. It adds up the phase term `exp(i k atan2(dy, dx))` of every other
neighbour and divides the sum by `k`.

The engine is modelled as a state machine with four parts:

- `Order.HexOrderParameter` is a class with the fields of the C++ object:
  - the stored box;
  - `rmax` and `k`;
  - the particle count `np`;
  - the output buffer `psi`, an `array<Complex>`;
  - the neighbour finder `nn`.

  `Valid()` is its invariant. The buffer has exactly `np` slots. A finder that
  was built was built from the stored box with the engine's `rmax` and `k`.
- `Locality.NearestNeighbors` stands in for `m_nn`. A rebuild creates a new
  object, so "the finder was rebuilt" is stated as `fresh(nn)` and "it was not
  rebuilt" as `nn == old(nn)`. Its constant `config` records what it was built
  from.
- `Kernel` holds `ComputeHexOrderParameter::operator()` as in-place methods on
  the buffer. They are specified by the recursive functions `PartialSum`,
  `Count` and `OrderParameter`.
- `KernelProperties` holds the lemmas about those functions:
  - the modulus bound;
  - the fixed divisor;
  - the perfect environment;
  - the degenerate pairs;
  - periodic invariance.
- `Scenarios` holds client methods. Each one drives a fresh engine through
  one documented usage pattern: recompute, shrink, reject a box, change only
  the 2D flag.

Three things the source calls into are parameters of the model:

- the minimum-image operation `Box::wrap` (`WrapFn`);
- the phase term (`PhaseFn`);
- the neighbour lists the finder's search returns (`found`).

Numbers are exact reals. `Complex` has an extra value `NaN`, which is what
dividing the accumulator by `k = 0` yields.

Points of the code worth noting:

- The error message at cpp/order/HexOrderParameter.cc:33 says "rmax must be
  smaller than half the smallest box size". The test at lines 32-35 rejects
  only `rmax > L/2`, so a cutoff of exactly half an edge is accepted
  (`Order.HalfEdgeAccepted`).
- The box check is done by `updateBox`, which the Python-facing `computePy`
  calls before `compute` (line 123). It is not done inside `compute`.
- `k` is the symmetry order, the number of neighbours visited and the divisor
  all at once. Its default is 6 (line 18), which the one-argument binding
  constructor (line 143) uses (`Order.HexOrderParameter.WithDefaultK`).

A consequence of the code worth noting: a box that differs from the stored one
only in its 2D flag passes validation with its own flag. It is still not
stored, so the engine keeps the old flag
(`Scenarios.FlagOnlyChangeKeepsFinder`).

## Model

| member | source | states |
|---|---|---|
| `Order.CheckBox` | cpp/order/HexOrderParameter.cc:31-35 | `updateBox` accepts a box exactly when `rmax` is at most half of Lx and at most half of Ly. It must also be at most half of Lz, unless the box is 2D. Every rejection is `InvalidArgument` with the source's message. |
| `Order.IsUpdated` | cpp/order/HexOrderParameter.cc:36-40 | The box counts as changed exactly when it differs from the stored box in some field other than the 2D flag. |
| `Order.FlatBoxIgnoresLz` | cpp/order/HexOrderParameter.cc:34-35 | For a 2D box, changing Lz never changes the outcome of the validation. |
| `Order.HalfEdgeAccepted` | cpp/order/HexOrderParameter.cc:32-35 | A cutoff of exactly half the shortest relevant edge is accepted, because the test is strict. |
| `Order.HexOrderParameter.constructor` | cpp/order/HexOrderParameter.cc:18-22 | A new engine holds the default box, `rmax`, `k`, zero particles, an empty buffer and a new, empty finder. |
| `Order.HexOrderParameter.WithDefaultK` | cpp/order/HexOrderParameter.cc:18-22 | An engine constructed from `rmax` alone uses the default `k = 6`, with the same initial state as above. |
| `Order.HexOrderParameter.UpdateBox` | cpp/order/HexOrderParameter.cc:29-48 | The result is the validation outcome. On a rejection, the box and the finder are unchanged. On a changed box, the box is replaced and a new finder is built from it with `rmax` and `k`. Otherwise nothing changes. The buffer and the count are never touched. |
| `Order.HexOrderParameter.Compute` | cpp/order/HexOrderParameter.cc:101-117 | The finder indexes the given points. The buffer is freshly allocated when the count changes, leaving the old array as it was, and is the same object otherwise. Afterwards `np == n`, the buffer has `n` slots and it equals `OrderParameters` of the stored box, `k`, the points and the neighbour lists. |
| `Locality.NearestNeighbors.Empty` | cpp/order/HexOrderParameter.cc:21 | The default finder has no configuration and nothing indexed. |
| `Locality.NearestNeighbors.constructor` | cpp/order/HexOrderParameter.cc:44 | The rebuilt finder records the box, `rmax` and `k` it was built from. |
| `Locality.NearestNeighbors.Compute` | cpp/order/HexOrderParameter.cc:104 | Indexing replaces the finder's point set and neighbour lists with those of the current call. |
| `Kernel.ComputeSlot` | cpp/order/HexOrderParameter.cc:76-96 | One pass zeroes slot `i`, accumulates over the first `k` neighbours and divides by `k`. It leaves slot `i` equal to `OrderParameter(c, i)`, which does not depend on the old buffer. Every other slot is unchanged. |
| `Kernel.ComputeRange` | cpp/order/HexOrderParameter.cc:70-98 | Over a blocked range, every slot in the range gets its order parameter. Every slot outside the range is unchanged. |
| `Kernel.ComputeSplit` | cpp/order/HexOrderParameter.cc:113 | Running the two blocks of a split of `0..Np` in the reverse order leaves the same buffer as one sequential pass. |
| `KernelProperties.PartialSumNorm` | cpp/order/HexOrderParameter.cc:81-95 | Suppose every phase term has modulus at most 1. Then after any number of neighbours the accumulator is a number, and its modulus is at most the number of neighbours that contributed. |
| `KernelProperties.OrderParameterBounded` | cpp/order/HexOrderParameter.cc:76-96 | With `k > 0` and phase terms of modulus at most 1, every slot is a number of modulus at most 1. |
| `KernelProperties.NoNeighboursIsNaN` | cpp/order/HexOrderParameter.cc:81-96 | With `k = 0` no neighbour is visited, and the slot is 0/0, that is, NaN. |
| `KernelProperties.FixedDivisor` | cpp/order/HexOrderParameter.cc:89-96 | Suppose the phase term of every contributing neighbour of particle `i` is `w`. Then the slot is `w` times the number of contributing neighbours, divided by `k`. Skipped neighbours do not lower the divisor. |
| `KernelProperties.PerfectEnvironment` | cpp/order/HexOrderParameter.cc:81-96 | Suppose all `k` neighbours of particle `i` are non-degenerate and each of their phase terms is `w`. Then the slot is exactly `w`, for example 1 for a perfect hexagon with k = 6. |
| `KernelProperties.AllDegenerateIsZero` | cpp/order/HexOrderParameter.cc:86-96 | A particle whose neighbours are all degenerate gets 0, not NaN, whatever the phase terms. |
| `KernelProperties.SameDeltasSameValue` | cpp/order/HexOrderParameter.cc:86-93 | A slot depends on the positions only through the wrapped displacements to its first `k` neighbours. |
| `KernelProperties.PeriodicImage` | cpp/order/HexOrderParameter.cc:86 | Moving one particle by a period of the box leaves every order parameter unchanged. A period is a shift that wrapping does not see. |
| `Scenarios.BoxAfterFirstUpdate` | cpp/order/HexOrderParameter.cc:37-43 | After a fresh engine accepts a box, the stored box equals it in every field except possibly the 2D flag. |
| `Scenarios.ComputeTwice` | cpp/order/HexOrderParameter.cc:101-117 | Two computations with the same inputs leave the same buffer, one slot per particle, in the same reused array. |
| `Scenarios.ShrinkParticleCount` | cpp/order/HexOrderParameter.cc:106-116 | After computing with more particles, computing with fewer leaves exactly one fresh value per new particle and nothing stale. |
| `Scenarios.RejectedBoxKeepsResult` | cpp/order/HexOrderParameter.cc:31-35 | A box the cutoff does not fit is rejected with `InvalidArgument`. The stored box and the last result stay readable and unchanged. |
| `Scenarios.FlagOnlyChangeKeepsFinder` | cpp/order/HexOrderParameter.cc:37-47 | A box that differs only in its 2D flag is accepted. The finder is not rebuilt and the stored box keeps its old flag. |

## Left out

- `computePy` input checks (numpy type, rank and shape) and the interpreter-lock release (lines 119-139): host-runtime plumbing. The `Scenarios` methods follow its order of calls, `updateBox` then `compute`.
- `export_HexOrderParameter` (lines 141-149): a language binding.
- The destructor and the explicit `delete` of the old finder: memory management, which Dafny's heap does not need.
- TBB `parallel_for` concurrency: the kernel runs sequentially. `ComputeRange`'s frame condition shows that blocks write disjoint slots, and `ComputeSplit` shows that one reordered split gives the same buffer.
- The internals of `locality::NearestNeighbors`: the neighbour lists are an input. `NeighborListsValid` states what the kernel relies on: one list per point, at least `k` entries each, every index in range. The finder's own error for too few particles is not modelled.
- `Box::wrap` and the phase term `exp(i k atan2(dy, dx))` are uninterpreted function parameters. `atan2f`, complex `exp` and single-precision rounding are not modelled. Arithmetic is exact over reals, including the comparison with 1e-6.
- The unused `rmaxsq` (line 72) is dropped.
- `k` is a natural number; a fractional or negative `k` is not modelled. With k = 6.5 the loop at line 81 runs 7 times and line 96 divides by 6.5. With k < 0 the loop never runs and line 96 gives 0, not NaN.
- The default `trajectory::Box()` is not part of this model. It is taken to be all zeros, three-dimensional and untilted (`DefaultBox`).
- OrderParameterBounded: the modulus bound is exact (at most 1) and assumes that every phase term has modulus at most 1. The floating-point tolerance is not modelled.
- PeriodicImage: periodicity is assumed of the wrap parameter (`IsPeriod`), because the source of `Box::wrap` is not part of this model.
- The tests of `complement`, `LocalQl` and `LocalQlNear` exercise modules that are not part of this model.
