/** The hexatic order-parameter engine `HexOrderParameter`: the stored box,
    the neighbour finder rebuilt when the box changes, and the output buffer
    reallocated when the particle count changes. */
module Order {
  import opened Values
  import opened Locality
  import opened Kernel

  /** The validation `updateBox` performs before changing anything: `rmax` may
      be at most half of Lx and of Ly, and of Lz unless the box is 2D. */
  function CheckBox(rmax: real, b: Box): (r: Outcome)
    ensures r.Pass? <==> rmax <= b.Lx / 2.0 && rmax <= b.Ly / 2.0 && (b.is2D || rmax <= b.Lz / 2.0)
    ensures r.Fail? ==> r.error == InvalidArgument(RmaxTooLarge)
  {
    if rmax > b.Lx / 2.0 || rmax > b.Ly / 2.0 then Fail(InvalidArgument(RmaxTooLarge))
    else if rmax > b.Lz / 2.0 && !b.is2D then Fail(InvalidArgument(RmaxTooLarge))
    else Pass
  }

  /** Whether `b` differs from the stored box in its edge lengths or tilt
      factors; the 2D flag takes no part in the comparison. */
  function IsUpdated(stored: Box, b: Box): (r: bool)
    ensures !r <==> stored.(is2D := b.is2D) == b
  {
    Vec3(stored.Lx, stored.Ly, stored.Lz) != Vec3(b.Lx, b.Ly, b.Lz) ||
    stored.xy != b.xy || stored.xz != b.xz || stored.yz != b.yz
  }

  /** For a 2D box the Lz edge has no say in the validation. */
  lemma FlatBoxIgnoresLz(rmax: real, b: Box, lz: real)
    requires b.is2D
    ensures CheckBox(rmax, b) == CheckBox(rmax, b.(Lz := lz))
  {
  }

  /** The test is strict: a cutoff of exactly half the shortest relevant edge is accepted. */
  lemma HalfEdgeAccepted(b: Box)
    requires b.Lx <= b.Ly && (b.is2D || b.Lx <= b.Lz)
    ensures CheckBox(b.Lx / 2.0, b) == Pass
  {
  }

  /** The symmetry order an engine built from `rmax` alone uses. */
  const DefaultK: nat := 6

  class HexOrderParameter {
    var box: Box
    const rmax: real
    const k: nat
    var np: nat
    var psi: array<Complex>
    var nn: NearestNeighbors

    /** The buffer always holds one slot per particle of the latest compute,
        and a finder that was built was built from the stored box with the
        engine's `rmax` and `k`. */
    ghost predicate Valid()
      reads this
    {
      psi.Length == np &&
      (nn.config.Some? ==> nn.config.value == Config(box, rmax, k))
    }

    /** A new engine: default box, no particles, an empty finder. */
    constructor (rmax: real, k: nat)
      ensures Valid()
      ensures this.rmax == rmax && this.k == k
      ensures box == DefaultBox && np == 0 && psi.Length == 0
      ensures fresh(nn) && fresh(psi) && nn.config == None && nn.points == [] && nn.lists == []
    {
      box := DefaultBox;
      this.rmax := rmax;
      this.k := k;
      np := 0;
      psi := new Complex[0];
      nn := new NearestNeighbors.Empty();
    }

    /** A new engine with the default symmetry order, 6. */
    constructor WithDefaultK(rmax: real)
      ensures Valid()
      ensures this.rmax == rmax && k == DefaultK
      ensures box == DefaultBox && np == 0 && psi.Length == 0
      ensures fresh(nn) && fresh(psi) && nn.config == None && nn.points == [] && nn.lists == []
    {
      box := DefaultBox;
      this.rmax := rmax;
      k := DefaultK;
      np := 0;
      psi := new Complex[0];
      nn := new NearestNeighbors.Empty();
    }

    /** Validates `b`, then replaces the stored box and rebuilds the finder
        from it exactly when `b` differs from the stored box. On a rejected box
        nothing changes. */
    method UpdateBox(b: Box) returns (r: Outcome)
      requires Valid()
      modifies this
      ensures Valid()
      ensures r == CheckBox(rmax, b)
      ensures r.Fail? ==> box == old(box) && nn == old(nn)
      ensures r.Pass? && IsUpdated(old(box), b) ==>
                box == b && fresh(nn) && nn.config == Some(Config(b, rmax, k))
      ensures r.Pass? && !IsUpdated(old(box), b) ==> box == old(box) && nn == old(nn)
      ensures np == old(np) && psi == old(psi)
    {
      r := CheckBox(rmax, b);
      if r.Fail? {
        return;
      }
      if IsUpdated(box, b) {
        box := b;
        var tmp := new NearestNeighbors(box, rmax, k);
        nn := tmp;
      }
    }

    /** Re-indexes the points, reallocates the buffer only when the particle
        count changed, fills every slot with its order parameter and records
        the count. `found` is the finder's neighbour lists for `points`. */
    method Compute(points: seq<Vec3>, n: nat, found: seq<seq<nat>>, wrap: WrapFn, phase: PhaseFn)
      requires Valid()
      requires |points| == n && NeighborListsValid(points, found, k)
      modifies this, nn, psi
      ensures Valid()
      ensures np == n && psi.Length == n
      ensures n != old(np) ==> fresh(psi) && old(psi)[..] == old(psi[..])
      ensures n == old(np) ==> psi == old(psi)
      ensures box == old(box) && nn == old(nn)
      ensures nn.points == points && nn.lists == found
      ensures psi[..] == OrderParameters(KernelInput(box, k, points, found, wrap, phase))
    {
      nn.Compute(points, n, found);
      if n != np {
        psi := new Complex[n];
      }
      var c := KernelInput(box, k, points, nn.lists, wrap, phase);
      ComputeRange(psi, c, 0, n);
      np := n;
    }
  }
}
