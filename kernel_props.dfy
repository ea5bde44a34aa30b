/** Properties of the values the kernel writes: the magnitude bound, the fixed
    divisor, degenerate pairs, the perfect hexagonal environment, and the
    invariance under moving a particle by a period of the box. */
module KernelProperties {
  import opened Values
  import opened Kernel

  /** `s` is a number whose modulus is at most `m`. */
  ghost predicate ModulusAtMost(s: Complex, m: nat) {
    s.Complex? && Norm2(s) <= (m as real) * (m as real)
  }

  /** Every phase term is a number of modulus at most 1, as exp(i * theta) is. */
  ghost predicate BoundedPhase(c: KernelInput) {
    forall x: real, y: real :: ModulusAtMost(c.phase(c.k, x, y), 1)
  }

  lemma {:induction false} CountAtMost(c: KernelInput, i: nat, n: nat)
    requires WellFormed(c) && i < |c.points| && n <= c.k
    ensures Count(c, i, n) <= n
  {
    if n > 0 {
      CountAtMost(c, i, n - 1);
    }
  }

  lemma PositiveProduct(a: real, b: real)
    requires a > 0.0 && b > 0.0
    ensures a * b > 0.0
  {
  }

  /** Cauchy-Schwarz in the plane, in squared form, from Lagrange's identity. */
  lemma CauchySchwarz(a: real, b: real, c: real, d: real)
    ensures (a * c + b * d) * (a * c + b * d) <= (a * a + b * b) * (c * c + d * d)
  {
    var e := a * d - b * c;
    assert (a * c + b * d) * (a * c + b * d) + e * e == (a * a + b * b) * (c * c + d * d);
    assert e * e >= 0.0;
  }

  lemma ProductAtMost(p: real, q: real)
    requires p >= 0.0 && 0.0 <= q <= 1.0
    ensures p * q <= p
  {
    assert p * (1.0 - q) >= 0.0;
  }

  lemma SquareMonotone(x: real, n: real)
    requires n >= 0.0 && x * x <= n * n
    ensures x <= n
  {
    if x > n {
      assert x * x - n * n == (x - n) * (x + n);
      PositiveProduct(x - n, x + n);
    }
  }

  lemma ExpandSum(a: real, b: real, c: real, d: real)
    ensures (a + c) * (a + c) + (b + d) * (b + d) == (a * a + b * b) + (c * c + d * d) + 2.0 * (a * c + b * d)
  {
  }

  lemma SquareSucc(n: nat)
    ensures ((n + 1) as real) * ((n + 1) as real) == (n as real) * (n as real) + 2.0 * (n as real) + 1.0
  {
  }

  /** The triangle inequality for a sum whose second term has modulus at most 1. */
  lemma AddNorm(s: Complex, t: Complex, n: nat)
    requires ModulusAtMost(s, n) && ModulusAtMost(t, 1)
    ensures ModulusAtMost(Add(s, t), n + 1)
  {
    var nr := n as real;
    var d := s.re * t.re + s.im * t.im;
    CauchySchwarz(s.re, s.im, t.re, t.im);
    ProductAtMost(Norm2(s), Norm2(t));
    SquareMonotone(d, nr);
    ExpandSum(s.re, s.im, t.re, t.im);
    SquareSucc(n);
  }

  /** The accumulator after `n` neighbours is a number whose modulus is at
      most the number of contributing neighbours. */
  lemma {:induction false} PartialSumNorm(c: KernelInput, i: nat, n: nat)
    requires WellFormed(c) && i < |c.points| && n <= c.k && BoundedPhase(c)
    ensures ModulusAtMost(PartialSum(c, i, n), Count(c, i, n))
  {
    if n > 0 {
      PartialSumNorm(c, i, n - 1);
      if Contributes(c, i, n - 1) {
        var d := Delta(c, i, c.lists[i][n - 1]);
        assert Term(c, i, n - 1) == c.phase(c.k, d.x, d.y);
        AddNorm(PartialSum(c, i, n - 1), Term(c, i, n - 1), Count(c, i, n - 1));
      }
    }
  }

  /** The quotient by `k` of a number of modulus at most `m <= k`. */
  lemma QuotientNorm(s: Complex, m: nat, k: nat)
    requires 0 < k && m <= k && ModulusAtMost(s, m)
    ensures ModulusAtMost(Divide(s, k), 1)
  {
    var kr := k as real;
    var q := Divide(s, k);
    assert q.re * kr == s.re && q.im * kr == s.im;
    assert Norm2(q) * (kr * kr) == Norm2(s);
    assert (m as real) * (m as real) <= kr * kr;
  }

  /** With at least one neighbour and phase terms of modulus at most 1, every
      order parameter is a number of modulus at most 1. */
  lemma OrderParameterBounded(c: KernelInput, i: nat)
    requires WellFormed(c) && i < |c.points| && c.k > 0 && BoundedPhase(c)
    ensures OrderParameter(c, i).Complex? && Norm2(OrderParameter(c, i)) <= 1.0
  {
    PartialSumNorm(c, i, c.k);
    CountAtMost(c, i, c.k);
    QuotientNorm(PartialSum(c, i, c.k), Count(c, i, c.k), c.k);
    assert ModulusAtMost(OrderParameter(c, i), 1);
  }

  /** With no neighbours to visit (`k` = 0) the slot is 0 / 0. */
  lemma NoNeighboursIsNaN(c: KernelInput, i: nat)
    requires WellFormed(c) && i < |c.points| && c.k == 0
    ensures OrderParameter(c, i) == NaN
  {
  }

  /** `m` copies of `w` added up. */
  function Times(m: nat, w: Complex): Complex
    requires w.Complex?
  {
    Complex((m as real) * w.re, (m as real) * w.im)
  }

  lemma TimesSucc(m: nat, w: Complex)
    requires w.Complex?
    ensures Times(m + 1, w) == Add(Times(m, w), w)
  {
  }

  lemma TimesDivide(k: nat, w: Complex)
    requires 0 < k && w.Complex?
    ensures Divide(Times(k, w), k) == w
  {
    var kr := k as real;
    assert kr * w.re / kr == w.re;
    assert kr * w.im / kr == w.im;
  }

  lemma {:induction false} PartialSumOfEqualTerms(c: KernelInput, i: nat, n: nat, w: Complex)
    requires WellFormed(c) && i < |c.points| && n <= c.k && w.Complex?
    requires forall m :: 0 <= m < c.k && Contributes(c, i, m) ==> Term(c, i, m) == w
    ensures PartialSum(c, i, n) == Times(Count(c, i, n), w)
  {
    if n > 0 {
      PartialSumOfEqualTerms(c, i, n - 1, w);
      if Contributes(c, i, n - 1) {
        TimesSucc(Count(c, i, n - 1), w);
      }
    }
  }

  /** The divisor is `k`, never the number of neighbours that contributed:
      when every contributing neighbour's phase term is `w`, the slot is `w` scaled by the fraction of
      the `k` neighbours that are not degenerate. */
  lemma FixedDivisor(c: KernelInput, i: nat, w: Complex)
    requires WellFormed(c) && i < |c.points| && c.k > 0 && w.Complex?
    requires forall m :: 0 <= m < c.k && Contributes(c, i, m) ==> Term(c, i, m) == w
    ensures OrderParameter(c, i) == Divide(Times(Count(c, i, c.k), w), c.k)
  {
    PartialSumOfEqualTerms(c, i, c.k, w);
  }

  lemma {:induction false} CountAll(c: KernelInput, i: nat, n: nat)
    requires WellFormed(c) && i < |c.points| && n <= c.k
    requires forall m :: 0 <= m < c.k ==> Contributes(c, i, m)
    ensures Count(c, i, n) == n
  {
    if n > 0 {
      CountAll(c, i, n - 1);
    }
  }

  /** A perfect environment: all `k` neighbours are non-degenerate and each
      of their phase terms is `w` (1 for an ideal hexagon with k = 6, where
      every bond angle is a multiple of 60 degrees); the slot is `w`. */
  lemma PerfectEnvironment(c: KernelInput, i: nat, w: Complex)
    requires WellFormed(c) && i < |c.points| && c.k > 0 && w.Complex?
    requires forall m :: 0 <= m < c.k ==> Contributes(c, i, m) && Term(c, i, m) == w
    ensures OrderParameter(c, i) == w
  {
    FixedDivisor(c, i, w);
    CountAll(c, i, c.k);
    TimesDivide(c.k, w);
  }

  lemma {:induction false} PartialSumOfDegenerate(c: KernelInput, i: nat, n: nat)
    requires WellFormed(c) && i < |c.points| && n <= c.k
    requires forall m :: 0 <= m < c.k ==> !Contributes(c, i, m)
    ensures PartialSum(c, i, n) == Zero
  {
    if n > 0 {
      PartialSumOfDegenerate(c, i, n - 1);
    }
  }

  /** Degenerate pairs are excluded without harm: a particle all of whose
      neighbours coincide with it gets 0, not NaN, whatever the phase terms. */
  lemma AllDegenerateIsZero(c: KernelInput, i: nat)
    requires WellFormed(c) && i < |c.points| && c.k > 0
    requires forall m :: 0 <= m < c.k ==> !Contributes(c, i, m)
    ensures OrderParameter(c, i) == Zero
  {
    PartialSumOfDegenerate(c, i, c.k);
  }

  lemma {:induction false} PartialSumSameDeltas(c: KernelInput, c': KernelInput, i: nat, n: nat)
    requires WellFormed(c) && c' == c.(points := c'.points) && |c'.points| == |c.points|
    requires i < |c.points| && n <= c.k
    requires forall m :: 0 <= m < c.k ==> Delta(c, i, c.lists[i][m]) == Delta(c', i, c.lists[i][m])
    ensures WellFormed(c')
    ensures PartialSum(c, i, n) == PartialSum(c', i, n)
  {
    if n > 0 {
      PartialSumSameDeltas(c, c', i, n - 1);
      assert Delta(c, i, c.lists[i][n - 1]) == Delta(c', i, c.lists[i][n - 1]);
    }
  }

  /** Slot `i` depends on the positions only through the wrapped
      displacements to its neighbours. */
  lemma SameDeltasSameValue(c: KernelInput, c': KernelInput, i: nat)
    requires WellFormed(c) && c' == c.(points := c'.points) && |c'.points| == |c.points|
    requires i < |c.points|
    requires forall m :: 0 <= m < c.k ==> Delta(c, i, c.lists[i][m]) == Delta(c', i, c.lists[i][m])
    ensures WellFormed(c')
    ensures OrderParameter(c, i) == OrderParameter(c', i)
  {
    PartialSumSameDeltas(c, c', i, c.k);
  }

  /** `s` is a period of the box: wrapping is blind to adding or removing it. */
  ghost predicate IsPeriod(c: KernelInput, s: Vec3) {
    (forall d :: c.wrap(c.box, Plus(d, s)) == c.wrap(c.box, d)) &&
    (forall d :: c.wrap(c.box, Sub(d, s)) == c.wrap(c.box, d))
  }

  /** Periodic correctness: moving particle `j` by a period of the box leaves
      every order parameter unchanged. */
  lemma PeriodicImage(c: KernelInput, j: nat, s: Vec3)
    requires WellFormed(c) && j < |c.points| && IsPeriod(c, s)
    ensures WellFormed(c.(points := c.points[j := Plus(c.points[j], s)]))
    ensures OrderParameters(c.(points := c.points[j := Plus(c.points[j], s)])) == OrderParameters(c)
  {
    var c' := c.(points := c.points[j := Plus(c.points[j], s)]);
    forall i | 0 <= i < |c.points|
      ensures OrderParameter(c, i) == OrderParameter(c', i)
    {
      forall m | 0 <= m < c.k
        ensures Delta(c, i, c.lists[i][m]) == Delta(c', i, c.lists[i][m])
      {
        var q := c.lists[i][m];
        var d := Sub(c.points[q], c.points[i]);
        if q == j && i != j {
          assert Sub(c'.points[q], c'.points[i]) == Plus(d, s);
        } else if q != j && i == j {
          assert Sub(c'.points[q], c'.points[i]) == Sub(d, s);
        } else {
          assert Sub(c'.points[q], c'.points[i]) == d;
        }
      }
      SameDeltasSameValue(c, c', i);
    }
  }
}
