/** Clients of the engine that run its documented usage patterns on a fresh
    engine, as the Python wrapper drives it (validate the box, then compute),
    and state what a caller observes afterwards. */
module Scenarios {
  import opened Values
  import opened Kernel
  import opened Order

  /** The box an engine holds after a fresh engine accepts `b`. */
  function BoxAfterFirstUpdate(b: Box): (r: Box)
    ensures r.(is2D := b.is2D) == b
  {
    if IsUpdated(DefaultBox, b) then b else DefaultBox
  }

  /** Computing twice with the same box and points gives the same buffer
      contents, of one slot per particle, and the second call reuses the
      buffer of the first. */
  method ComputeTwice(rmax: real, k: nat, b: Box, points: seq<Vec3>, found: seq<seq<nat>>,
                      wrap: WrapFn, phase: PhaseFn)
    returns (accepted: bool, first: seq<Complex>, second: seq<Complex>, reused: bool)
    requires NeighborListsValid(points, found, k)
    ensures accepted == CheckBox(rmax, b).Pass?
    ensures accepted ==> first == second && reused && |first| == |points|
    ensures accepted ==> first == OrderParameters(KernelInput(BoxAfterFirstUpdate(b), k, points, found, wrap, phase))
  {
    var e := new HexOrderParameter(rmax, k);
    var r := e.UpdateBox(b);
    accepted := r.Pass?;
    if !accepted {
      return false, [], [], false;
    }
    e.Compute(points, |points|, found, wrap, phase);
    first := e.psi[..];
    var buffer := e.psi;
    e.Compute(points, |points|, found, wrap, phase);
    second := e.psi[..];
    reused := e.psi == buffer;
  }

  /** After a larger computation, a smaller one leaves exactly one freshly
      computed value per new particle and nothing from the earlier call. */
  method ShrinkParticleCount(rmax: real, k: nat, b: Box,
                             before: seq<Vec3>, foundBefore: seq<seq<nat>>,
                             after: seq<Vec3>, foundAfter: seq<seq<nat>>,
                             wrap: WrapFn, phase: PhaseFn)
    returns (accepted: bool, result: seq<Complex>, count: nat)
    requires NeighborListsValid(before, foundBefore, k) && NeighborListsValid(after, foundAfter, k)
    ensures accepted == CheckBox(rmax, b).Pass?
    ensures accepted ==> count == |after| && |result| == |after|
    ensures accepted ==> result == OrderParameters(KernelInput(BoxAfterFirstUpdate(b), k, after, foundAfter, wrap, phase))
  {
    var e := new HexOrderParameter(rmax, k);
    var r := e.UpdateBox(b);
    accepted := r.Pass?;
    if !accepted {
      return false, [], 0;
    }
    e.Compute(before, |before|, foundBefore, wrap, phase);
    e.Compute(after, |after|, foundAfter, wrap, phase);
    result := e.psi[..];
    count := e.np;
  }

  /** A box the cutoff does not fit is rejected with InvalidArgument, and the
      stored box and the previous result stay as they were. */
  method RejectedBoxKeepsResult(rmax: real, k: nat, good: Box, bad: Box,
                                points: seq<Vec3>, found: seq<seq<nat>>,
                                wrap: WrapFn, phase: PhaseFn)
    returns (r: Outcome, boxBefore: Box, boxAfter: Box, resultBefore: seq<Complex>, resultAfter: seq<Complex>)
    requires NeighborListsValid(points, found, k)
    requires CheckBox(rmax, good).Pass?
    requires rmax > bad.Lx / 2.0
    ensures r == Fail(InvalidArgument(RmaxTooLarge))
    ensures boxAfter == boxBefore == BoxAfterFirstUpdate(good)
    ensures resultAfter == resultBefore
    ensures resultBefore == OrderParameters(KernelInput(boxBefore, k, points, found, wrap, phase))
  {
    var e := new HexOrderParameter(rmax, k);
    var ok := e.UpdateBox(good);
    e.Compute(points, |points|, found, wrap, phase);
    boxBefore := e.box;
    resultBefore := e.psi[..];
    r := e.UpdateBox(bad);
    boxAfter := e.box;
    resultAfter := e.psi[..];
  }

  /** A box that differs from the stored one only in its 2D flag is taken as
      unchanged: the stored box keeps its flag and the finder is not rebuilt. */
  method FlagOnlyChangeKeepsFinder(rmax: real, k: nat, b: Box)
    returns (accepted: bool, stored: Box, rebuilt: bool)
    requires CheckBox(rmax, b).Pass? && CheckBox(rmax, b.(is2D := !b.is2D)).Pass?
    ensures accepted && stored == BoxAfterFirstUpdate(b) && !rebuilt
  {
    var e := new HexOrderParameter(rmax, k);
    var r := e.UpdateBox(b);
    var finder := e.nn;
    var r2 := e.UpdateBox(b.(is2D := !b.is2D));
    accepted := r2.Pass?;
    stored := e.box;
    rebuilt := e.nn != finder;
  }
}
