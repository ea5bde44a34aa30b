/** Value types shared by the order-parameter engine: positions, the periodic
    box descriptor, complex accumulators, and the outcome of a box update. */
module Values {

  datatype Option<T> = None | Some(value: T)

  /** A 3-component position or displacement (single precision in the
      source, exact reals here). */
  datatype Vec3 = Vec3(x: real, y: real, z: real)

  function Sub(a: Vec3, b: Vec3): Vec3 {
    Vec3(a.x - b.x, a.y - b.y, a.z - b.z)
  }

  function Plus(a: Vec3, b: Vec3): Vec3 {
    Vec3(a.x + b.x, a.y + b.y, a.z + b.z)
  }

  function Dot(a: Vec3, b: Vec3): real {
    a.x * b.x + a.y * b.y + a.z * b.z
  }

  /** The periodic simulation box: edge lengths, tilt factors and the 2D flag. */
  datatype Box = Box(Lx: real, Ly: real, Lz: real, xy: real, xz: real, yz: real, is2D: bool)

  /** The box a default-constructed engine holds before its first update:
      zero edges, no tilt, three-dimensional. */
  const DefaultBox: Box := Box(0.0, 0.0, 0.0, 0.0, 0.0, 0.0, false)

  /** A complex value, or the not-a-number value that IEEE arithmetic yields
      when the accumulator is divided by a zero neighbour count. */
  datatype Complex = Complex(re: real, im: real) | NaN

  const Zero: Complex := Complex(0.0, 0.0)

  /** Complex addition; NaN is absorbing. */
  function Add(a: Complex, b: Complex): Complex {
    if a.NaN? || b.NaN? then NaN else Complex(a.re + b.re, a.im + b.im)
  }

  /** Division of a complex value by the real number `k` (as `complex<float>(k)`);
      dividing by zero gives NaN. */
  function Divide(c: Complex, k: nat): Complex {
    if c.NaN? || k == 0 then NaN else Complex(c.re / (k as real), c.im / (k as real))
  }

  /** The squared modulus of a number. */
  function Norm2(c: Complex): real
    requires c.Complex?
  {
    c.re * c.re + c.im * c.im
  }

  /** The minimum-image operation `Box::wrap`, whose source is not part of this model. */
  type WrapFn = (Box, Vec3) -> Vec3

  /** The phase term `exp(i * k * atan2(dy, dx))` of a bond with in-plane
      components (dx, dy), for symmetry order k; left uninterpreted. */
  type PhaseFn = (nat, real, real) -> Complex

  /** The error `updateBox` raises. */
  datatype Error = InvalidArgument(message: string)

  const RmaxTooLarge: string := "rmax must be smaller than half the smallest box size"

  datatype Outcome = Pass | Fail(error: Error)
}
