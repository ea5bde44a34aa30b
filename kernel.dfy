/** The per-particle kernel `ComputeHexOrderParameter::operator()` and the
    functions that specify what it writes into each slot of the output buffer. */
module Kernel {
  import opened Values

  /** Squared distances at or below this are degenerate pairs and contribute nothing. */
  const Epsilon: real := 0.000001

  /** The read-only state every pass of the kernel shares: the box, the symmetry
      order `k` (also the number of neighbours visited), the points, each
      particle's neighbour list, and the two uninterpreted primitives. */
  datatype KernelInput = KernelInput(box: Box, k: nat, points: seq<Vec3>, lists: seq<seq<nat>>,
                                     wrap: WrapFn, phase: PhaseFn)

  /** There is one neighbour list per point, each holds at least `k` entries,
      and the first `k` entries index existing points. */
  predicate NeighborListsValid(points: seq<Vec3>, lists: seq<seq<nat>>, k: nat) {
    |lists| == |points| &&
    forall i :: 0 <= i < |lists| ==>
      |lists[i]| >= k && forall m :: 0 <= m < k ==> lists[i][m] < |points|
  }

  predicate WellFormed(c: KernelInput) {
    NeighborListsValid(c.points, c.lists, c.k)
  }

  /** The wrapped displacement from particle `i` to particle `j`. */
  function Delta(c: KernelInput, i: nat, j: nat): Vec3
    requires i < |c.points| && j < |c.points|
  {
    c.wrap(c.box, Sub(c.points[j], c.points[i]))
  }

  /** Whether the `m`-th neighbour of particle `i` is far enough to contribute. */
  predicate Contributes(c: KernelInput, i: nat, m: nat)
    requires WellFormed(c) && i < |c.points| && m < c.k
  {
    var d := Delta(c, i, c.lists[i][m]);
    Dot(d, d) > Epsilon
  }

  /** The phase term of the `m`-th neighbour of particle `i`. */
  function Term(c: KernelInput, i: nat, m: nat): Complex
    requires WellFormed(c) && i < |c.points| && m < c.k
  {
    var d := Delta(c, i, c.lists[i][m]);
    c.phase(c.k, d.x, d.y)
  }

  /** The accumulator of particle `i` after visiting its first `n` neighbours. */
  function PartialSum(c: KernelInput, i: nat, n: nat): Complex
    requires WellFormed(c) && i < |c.points| && n <= c.k
  {
    if n == 0 then Zero
    else if Contributes(c, i, n - 1) then Add(PartialSum(c, i, n - 1), Term(c, i, n - 1))
    else PartialSum(c, i, n - 1)
  }

  /** How many of the first `n` neighbours of particle `i` contribute. */
  function Count(c: KernelInput, i: nat, n: nat): nat
    requires WellFormed(c) && i < |c.points| && n <= c.k
  {
    if n == 0 then 0
    else Count(c, i, n - 1) + (if Contributes(c, i, n - 1) then 1 else 0)
  }

  /** The value slot `i` ends with: the accumulated phase terms over `k`. */
  function OrderParameter(c: KernelInput, i: nat): Complex
    requires WellFormed(c) && i < |c.points|
  {
    Divide(PartialSum(c, i, c.k), c.k)
  }

  /** The whole output buffer a full pass produces. */
  function OrderParameters(c: KernelInput): seq<Complex>
    requires WellFormed(c)
  {
    seq(|c.points|, i requires 0 <= i < |c.points| => OrderParameter(c, i))
  }

  /** One pass of the kernel's outer loop: zero slot `i`, accumulate the phase
      terms of the contributing neighbours among the first `k`, divide by `k`.
      Only slot `i` is written, and its new value does not depend on what the
      buffer held before. */
  method ComputeSlot(psi: array<Complex>, c: KernelInput, i: nat)
    requires WellFormed(c) && i < |c.points| && i < psi.Length
    modifies psi
    ensures psi[i] == OrderParameter(c, i)
    ensures forall m :: 0 <= m < psi.Length && m != i ==> psi[m] == old(psi[m])
  {
    psi[i] := Zero;
    var ref := c.points[i];
    var neighbors := c.lists[i];
    for n := 0 to c.k
      invariant psi[i] == PartialSum(c, i, n)
      invariant forall m :: 0 <= m < psi.Length && m != i ==> psi[m] == old(psi[m])
    {
      var j := neighbors[n];
      var delta := c.wrap(c.box, Sub(c.points[j], ref));
      var rsq := Dot(delta, delta);
      if rsq > Epsilon {
        psi[i] := Add(psi[i], c.phase(c.k, delta.x, delta.y));
      }
    }
    psi[i] := Divide(psi[i], c.k);
  }

  /** The kernel over one blocked range [begin, end): every slot in the range
      gets its order parameter and every slot outside it is untouched. */
  method ComputeRange(psi: array<Complex>, c: KernelInput, begin: nat, end: nat)
    requires WellFormed(c) && begin <= end <= |c.points| && end <= psi.Length
    modifies psi
    ensures forall i :: begin <= i < end ==> psi[i] == OrderParameter(c, i)
    ensures forall m :: 0 <= m < psi.Length && !(begin <= m < end) ==> psi[m] == old(psi[m])
  {
    for i := begin to end
      invariant forall m :: begin <= m < i ==> psi[m] == OrderParameter(c, m)
      invariant forall m :: 0 <= m < psi.Length && !(begin <= m < i) ==> psi[m] == old(psi[m])
    {
      ComputeSlot(psi, c, i);
    }
  }

  /** The parallel loop over [0, |points|) split at `mid`, the upper block run
      first: since the blocks write disjoint slots, the buffer ends as a single
      sequential pass leaves it, whatever the split and the order. */
  method ComputeSplit(psi: array<Complex>, c: KernelInput, mid: nat)
    requires WellFormed(c) && psi.Length == |c.points| && mid <= |c.points|
    modifies psi
    ensures psi[..] == OrderParameters(c)
  {
    ComputeRange(psi, c, mid, |c.points|);
    ComputeRange(psi, c, 0, mid);
  }
}
