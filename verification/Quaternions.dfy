/** Quaternion routines of the attitude functions. A quaternion is stored as four
    numbers with the scalar last. Polynomial identities are proved about named
    intermediate products, which keeps the solver's work small. */
module Quaternions {
  import opened RealFacts

  datatype Vec = Vec(x: real, y: real, z: real)

  datatype Quat = Quat(x: real, y: real, z: real, w: real)

  function Dot(a: Vec, b: Vec): real {
    a.x * b.x + a.y * b.y + a.z * b.z
  }

  function Cross(a: Vec, b: Vec): Vec {
    Vec(a.y * b.z - a.z * b.y, a.z * b.x - a.x * b.z, a.x * b.y - a.y * b.x)
  }

  function Norm2(q: Quat): real {
    q.x * q.x + q.y * q.y + q.z * q.z + q.w * q.w
  }

  function Conj(q: Quat): Quat {
    Quat(-q.x, -q.y, -q.z, q.w)
  }

  function Neg(q: Quat): Quat {
    Quat(-q.x, -q.y, -q.z, -q.w)
  }

  function Scale(k: real, q: Quat): Quat {
    Quat(k * q.x, k * q.y, k * q.z, k * q.w)
  }

  function Scalar(k: real): Quat {
    Quat(0.0, 0.0, 0.0, k)
  }

  const IDENTITY := Scalar(1.0)

  function Pure(r: Vec): Quat {
    Quat(r.x, r.y, r.z, 0.0)
  }

  function Axis(q: Quat): Vec {
    Vec(q.x, q.y, q.z)
  }

  /** The Hamilton product, as documented for the SPICE routine qxq_c. */
  function Mul(p: Quat, q: Quat): Quat {
    Quat(p.w * q.x + p.x * q.w + p.y * q.z - p.z * q.y,
         p.w * q.y + p.y * q.w + p.z * q.x - p.x * q.z,
         p.w * q.z + p.z * q.w + p.x * q.y - p.y * q.x,
         p.w * q.w - p.x * q.x - p.y * q.y - p.z * q.z)
  }

  /** qmult: both arguments and the result are conjugated around the product. */
  function QMult(a: Quat, b: Quat): Quat {
    Conj(Mul(Conj(a), Conj(b)))
  }

  /** One coordinate of the cross product that vecrot computes. */
  function Minor(a: real, b: real, c: real, d: real): real {
    a * b - c * d
  }

  /** One coordinate of the rotated vector. */
  function Moved(r: real, d: real, w: real, a: real, b: real, c: real, e: real): real {
    r + 2.0 * (d * w + a * b - c * e)
  }

  /** The cross product of r with the axis of q. */
  function Minors(q: Quat, r: Vec): Vec {
    Vec(Minor(q.z, r.y, q.y, r.z), Minor(q.x, r.z, q.z, r.x), Minor(q.y, r.x, q.x, r.y))
  }

  function Displaced(q: Quat, r: Vec, d: Vec): Vec {
    Vec(Moved(r.x, d.x, q.w, q.z, d.y, q.y, d.z),
        Moved(r.y, d.y, q.w, q.x, d.z, q.z, d.x),
        Moved(r.z, d.z, q.w, q.y, d.x, q.x, d.y))
  }

  /** vecrot */
  function VecRot(q: Quat, r: Vec): Vec {
    Displaced(q, r, Minors(q, r))
  }

  /** qposcosine */
  function PosCosine(q: Quat): Quat {
    if q.w < 0.0 then Neg(q) else q
  }

  const EPSILON := 0.0000000000000001

  /** qnorm, given the square root n of the squared norm */
  function QNorm(q: Quat, n: real): Quat {
    PosCosine(if n < EPSILON then Quat(0.0, 0.0, 0.0, 1.0)
              else Quat(q.x / n, q.y / n, q.z / n, q.w / n))
  }

  // ---------------------------------------------------------------------------
  // The Hamilton product
  // ---------------------------------------------------------------------------

  predicate IsProduct(p: Quat, q: Quat, m: Quat) {
    && m.x == p.w * q.x + p.x * q.w + p.y * q.z - p.z * q.y
    && m.y == p.w * q.y + p.y * q.w + p.z * q.x - p.x * q.z
    && m.z == p.w * q.z + p.z * q.w + p.x * q.y - p.y * q.x
    && m.w == p.w * q.w - p.x * q.x - p.y * q.y - p.z * q.z
  }

  /** One vector coordinate of associativity, with m the product of p and q and n that of
      q and r; the others follow by rotating x, y and z. */
  lemma AssociativeX(px: real, py: real, pz: real, pw: real, qx: real, qy: real, qz: real, qw: real,
                     rx: real, ry: real, rz: real, rw: real,
                     mx: real, my: real, mz: real, mw: real, nx: real, ny: real, nz: real, nw: real)
    requires mx == pw * qx + px * qw + py * qz - pz * qy && nx == qw * rx + qx * rw + qy * rz - qz * ry
    requires my == pw * qy + py * qw + pz * qx - px * qz && ny == qw * ry + qy * rw + qz * rx - qx * rz
    requires mz == pw * qz + pz * qw + px * qy - py * qx && nz == qw * rz + qz * rw + qx * ry - qy * rx
    requires mw == pw * qw - px * qx - py * qy - pz * qz && nw == qw * rw - qx * rx - qy * ry - qz * rz
    ensures mw * rx + mx * rw + my * rz - mz * ry == pw * nx + px * nw + py * nz - pz * ny
  {
  }

  lemma AssociativeW(px: real, py: real, pz: real, pw: real, qx: real, qy: real, qz: real, qw: real,
                     rx: real, ry: real, rz: real, rw: real,
                     mx: real, my: real, mz: real, mw: real, nx: real, ny: real, nz: real, nw: real)
    requires mx == pw * qx + px * qw + py * qz - pz * qy && nx == qw * rx + qx * rw + qy * rz - qz * ry
    requires my == pw * qy + py * qw + pz * qx - px * qz && ny == qw * ry + qy * rw + qz * rx - qx * rz
    requires mz == pw * qz + pz * qw + px * qy - py * qx && nz == qw * rz + qz * rw + qx * ry - qy * rx
    requires mw == pw * qw - px * qx - py * qy - pz * qz && nw == qw * rw - qx * rx - qy * ry - qz * rz
    ensures mw * rw - mx * rx - my * ry - mz * rz == pw * nw - px * nx - py * ny - pz * nz
  {
  }

  lemma MulIsProduct(p: Quat, q: Quat, m: Quat)
    requires m == Mul(p, q)
    ensures IsProduct(p, q, m)
  {
  }

  lemma ProductsAssociateX(p: Quat, q: Quat, r: Quat, m: Quat, n: Quat, s: Quat, t: Quat)
    requires IsProduct(p, q, m) && IsProduct(q, r, n) && IsProduct(m, r, s) && IsProduct(p, n, t)
    ensures s.x == t.x
  {
    AssociativeX(p.x, p.y, p.z, p.w, q.x, q.y, q.z, q.w, r.x, r.y, r.z, r.w, m.x, m.y, m.z, m.w, n.x, n.y, n.z, n.w);
  }

  lemma ProductsAssociateY(p: Quat, q: Quat, r: Quat, m: Quat, n: Quat, s: Quat, t: Quat)
    requires IsProduct(p, q, m) && IsProduct(q, r, n) && IsProduct(m, r, s) && IsProduct(p, n, t)
    ensures s.y == t.y
  {
    AssociativeX(p.y, p.z, p.x, p.w, q.y, q.z, q.x, q.w, r.y, r.z, r.x, r.w, m.y, m.z, m.x, m.w, n.y, n.z, n.x, n.w);
  }

  lemma ProductsAssociateZ(p: Quat, q: Quat, r: Quat, m: Quat, n: Quat, s: Quat, t: Quat)
    requires IsProduct(p, q, m) && IsProduct(q, r, n) && IsProduct(m, r, s) && IsProduct(p, n, t)
    ensures s.z == t.z
  {
    AssociativeX(p.z, p.x, p.y, p.w, q.z, q.x, q.y, q.w, r.z, r.x, r.y, r.w, m.z, m.x, m.y, m.w, n.z, n.x, n.y, n.w);
  }

  lemma ProductsAssociateW(p: Quat, q: Quat, r: Quat, m: Quat, n: Quat, s: Quat, t: Quat)
    requires IsProduct(p, q, m) && IsProduct(q, r, n) && IsProduct(m, r, s) && IsProduct(p, n, t)
    ensures s.w == t.w
  {
    AssociativeW(p.x, p.y, p.z, p.w, q.x, q.y, q.z, q.w, r.x, r.y, r.z, r.w, m.x, m.y, m.z, m.w, n.x, n.y, n.z, n.w);
  }

  lemma Associative(p: Quat, q: Quat, r: Quat, m: Quat, n: Quat, s: Quat, t: Quat)
    requires m == Mul(p, q) && n == Mul(q, r) && s == Mul(m, r) && t == Mul(p, n)
    ensures s == t
  {
    MulIsProduct(p, q, m);
    MulIsProduct(q, r, n);
    MulIsProduct(m, r, s);
    MulIsProduct(p, n, t);
    ProductsAssociateX(p, q, r, m, n, s, t);
    ProductsAssociateY(p, q, r, m, n, s, t);
    ProductsAssociateZ(p, q, r, m, n, s, t);
    ProductsAssociateW(p, q, r, m, n, s, t);
  }

  lemma ConjugatedProduct(p: Quat, q: Quat, m: Quat, p': Quat, q': Quat, m': Quat)
    requires IsProduct(p, q, m) && IsProduct(q', p', m') && p' == Conj(p) && q' == Conj(q)
    ensures m' == Conj(m)
  {
  }

  lemma ConjOfProduct(p: Quat, q: Quat, m: Quat, p': Quat, q': Quat, m': Quat)
    requires p' == Conj(p) && q' == Conj(q) && m == Mul(p, q) && m' == Mul(q', p')
    ensures m' == Conj(m)
  {
    MulIsProduct(p, q, m);
    MulIsProduct(q', p', m');
    ConjugatedProduct(p, q, m, p', q', m');
  }

  /** qmult multiplies in the opposite order to the Hamilton product. */
  lemma QMultIsReversedProduct(a: Quat, b: Quat)
    ensures QMult(a, b) == Mul(b, a)
  {
    ConjOfProduct(b, a, Mul(b, a), Conj(b), Conj(a), Mul(Conj(a), Conj(b)));
  }

  lemma ProductWithConj(q: Quat, q': Quat, e: Quat, f: Quat, n: real)
    requires q' == Conj(q) && IsProduct(q, q', e) && IsProduct(q', q, f) && n == Norm2(q)
    ensures e == f == Scalar(n)
  {
  }

  lemma TimesConj(q: Quat, q': Quat, e: Quat, f: Quat, n: real)
    requires q' == Conj(q) && e == Mul(q, q') && f == Mul(q', q) && n == Norm2(q)
    ensures e == f == Scalar(n)
  {
    MulIsProduct(q, q', e);
    MulIsProduct(q', q, f);
    ProductWithConj(q, q', e, f, n);
  }

  lemma ProductWithScalar(q: Quat, k: real, u: Quat, x: Quat)
    requires u == Scalar(k) && IsProduct(q, u, x)
    ensures x == Scale(k, q)
  {
  }

  lemma ScaledTimesConj(q: Quat, q': Quat, k: real, x: Quat, y: Quat, n: real)
    requires x == Scale(k, q) && q' == Conj(q) && IsProduct(x, q', y) && n == Norm2(q)
    ensures y == Scalar(n * k)
  {
  }

  /** q times a scalar k times the conjugate of q. */
  lemma AroundScalar(q: Quat, q': Quat, u: Quat, k: real, x: Quat, y: Quat, n: real)
    requires u == Scalar(k) && x == Mul(q, u) && q' == Conj(q) && y == Mul(x, q') && n == Norm2(q)
    ensures y == Scalar(n * k)
  {
    MulIsProduct(q, u, x);
    ProductWithScalar(q, k, u, x);
    MulIsProduct(x, q', y);
    ScaledTimesConj(q, q', k, x, y, n);
  }

  /** The Hamilton product multiplies squared norms: m m' is a (b b') a'. */
  lemma NormOfProduct(a: Quat, b: Quat, m: Quat)
    requires m == Mul(a, b)
    ensures Norm2(m) == Norm2(a) * Norm2(b)
  {
    var a', b', m' := Conj(a), Conj(b), Conj(m);
    var e := Mul(b, b');
    var x := Mul(a, e);
    var y := Mul(x, a');
    TimesConj(m, m', Mul(m, m'), Mul(m', m), Norm2(m));
    TimesConj(b, b', e, Mul(b', b), Norm2(b));
    ConjOfProduct(a, b, m, a', b', Mul(b', a'));
    Associative(a, b, b', m, e, Mul(m, b'), x);
    Associative(m, b', a', x, m', y, Mul(m, m'));
    AroundScalar(a, a', e, Norm2(b), x, y, Norm2(a));
  }

  /** qmult multiplies squared norms. */
  lemma NormIsMultiplicative(a: Quat, b: Quat)
    ensures Norm2(QMult(a, b)) == Norm2(a) * Norm2(b)
  {
    QMultIsReversedProduct(a, b);
    NormOfProduct(b, a, Mul(b, a));
  }

  // ---------------------------------------------------------------------------
  // Rotation
  // ---------------------------------------------------------------------------

  predicate IsCross(q: Quat, u: Quat, d: Vec) {
    && d.x == q.z * u.y - q.y * u.z
    && d.y == q.x * u.z - q.z * u.x
    && d.z == q.y * u.x - q.x * u.y
  }

  predicate IsRotated(q: Quat, u: Quat, d: Vec, v: Vec) {
    && v.x == u.x + 2.0 * (d.x * q.w + q.z * d.y - q.y * d.z)
    && v.y == u.y + 2.0 * (d.y * q.w + q.x * d.z - q.z * d.x)
    && v.z == u.z + 2.0 * (d.z * q.w + q.y * d.x - q.x * d.y)
  }

  lemma MinorsAreCross(q: Quat, u: Quat, d: Vec)
    requires d == Minors(q, Axis(u))
    ensures IsCross(q, u, d)
  {
  }

  lemma DisplacedIsRotated(q: Quat, u: Quat, d: Vec, v: Vec)
    requires v == Displaced(q, Axis(u), d)
    ensures IsRotated(q, u, d, v)
  {
  }

  lemma VecRotIsRotated(q: Quat, u: Quat, d: Vec, v: Vec)
    requires d == Minors(q, Axis(u)) && v == VecRot(q, Axis(u))
    ensures IsCross(q, u, d) && IsRotated(q, u, d, v)
  {
    MinorsAreCross(q, u, d);
    DisplacedIsRotated(q, u, d, v);
  }

  /** One vector coordinate of q* u q, multiplied out. */
  function TurnedX(qx: real, qy: real, qz: real, qw: real, ux: real, uy: real, uz: real): real {
    qx * qx * ux + qw * qw * ux - qy * qy * ux - qz * qz * ux
    + 2.0 * (qx * qy * uy + qx * qz * uz + qw * qz * uy - qw * qy * uz)
  }

  lemma ConjugatedX(qx: real, qy: real, qz: real, qw: real, ux: real, uy: real, uz: real, uw: real,
                    sx: real, sy: real, sz: real, sw: real, tx: real)
    requires sx == qw * ux - qx * uw - qy * uz + qz * uy
    requires sy == qw * uy - qy * uw - qz * ux + qx * uz
    requires sz == qw * uz - qz * uw - qx * uy + qy * ux
    requires sw == qw * uw + qx * ux + qy * uy + qz * uz
    requires tx == sw * qx + sx * qw + sy * qz - sz * qy
    ensures tx == TurnedX(qx, qy, qz, qw, ux, uy, uz)
  {
  }

  /** The same coordinate as vecrot computes it, for a quaternion of squared norm n. */
  lemma RotatedX(qx: real, qy: real, qz: real, qw: real, ux: real, uy: real, uz: real,
                 d1: real, d2: real, d3: real, n: real)
    requires d1 == qz * uy - qy * uz && d2 == qx * uz - qz * ux && d3 == qy * ux - qx * uy
    requires n == qx * qx + qy * qy + qz * qz + qw * qw
    ensures n * ux + 2.0 * (d1 * qw + qz * d2 - qy * d3) == TurnedX(qx, qy, qz, qw, ux, uy, uz)
  {
  }

  lemma ConjugatedW(qx: real, qy: real, qz: real, qw: real, ux: real, uy: real, uz: real, uw: real,
                    sx: real, sy: real, sz: real, sw: real, tw: real)
    requires sx == qw * ux - qx * uw - qy * uz + qz * uy
    requires sy == qw * uy - qy * uw - qz * ux + qx * uz
    requires sz == qw * uz - qz * uw - qx * uy + qy * ux
    requires sw == qw * uw + qx * ux + qy * uy + qz * uz
    requires tw == sw * qw - sx * qx - sy * qy - sz * qz
    ensures tw == qx * qx * uw + qy * qy * uw + qz * qz * uw + qw * qw * uw
  {
  }

  lemma SumTimes(a: real, b: real, c: real, d: real, k: real, n: real)
    requires n == a + b + c + d
    ensures n * k == a * k + b * k + c * k + d * k
  {
  }

  predicate IsConjProduct(q: Quat, u: Quat, s: Quat) {
    && s.x == q.w * u.x - q.x * u.w - q.y * u.z + q.z * u.y
    && s.y == q.w * u.y - q.y * u.w - q.z * u.x + q.x * u.z
    && s.z == q.w * u.z - q.z * u.w - q.x * u.y + q.y * u.x
    && s.w == q.w * u.w + q.x * u.x + q.y * u.y + q.z * u.z
  }

  lemma ProductOfConj(q: Quat, u: Quat, c: Quat, s: Quat)
    requires c == Conj(q) && s == Mul(c, u)
    ensures IsConjProduct(q, u, s)
  {
  }

  lemma ConjugatedXOfQuat(q: Quat, u: Quat, s: Quat, t: Quat)
    requires IsConjProduct(q, u, s) && IsProduct(s, q, t)
    ensures t.x == TurnedX(q.x, q.y, q.z, q.w, u.x, u.y, u.z)
  {
    ConjugatedX(q.x, q.y, q.z, q.w, u.x, u.y, u.z, u.w, s.x, s.y, s.z, s.w, t.x);
  }

  lemma RotatedXOfQuat(q: Quat, u: Quat, d: Vec, v: Vec, n: real)
    requires IsCross(q, u, d) && IsRotated(q, u, d, v) && n == Norm2(q)
    ensures n * u.x + v.x - u.x == TurnedX(q.x, q.y, q.z, q.w, u.x, u.y, u.z)
  {
    RotatedX(q.x, q.y, q.z, q.w, u.x, u.y, u.z, d.x, d.y, d.z, n);
  }

  lemma ConjugatedYOfQuat(q: Quat, u: Quat, s: Quat, t: Quat)
    requires IsConjProduct(q, u, s) && IsProduct(s, q, t)
    ensures t.y == TurnedX(q.y, q.z, q.x, q.w, u.y, u.z, u.x)
  {
    ConjugatedX(q.y, q.z, q.x, q.w, u.y, u.z, u.x, u.w, s.y, s.z, s.x, s.w, t.y);
  }

  lemma RotatedYOfQuat(q: Quat, u: Quat, d: Vec, v: Vec, n: real)
    requires IsCross(q, u, d) && IsRotated(q, u, d, v) && n == Norm2(q)
    ensures n * u.y + v.y - u.y == TurnedX(q.y, q.z, q.x, q.w, u.y, u.z, u.x)
  {
    RotatedX(q.y, q.z, q.x, q.w, u.y, u.z, u.x, d.y, d.z, d.x, n);
  }

  lemma ConjugatedZOfQuat(q: Quat, u: Quat, s: Quat, t: Quat)
    requires IsConjProduct(q, u, s) && IsProduct(s, q, t)
    ensures t.z == TurnedX(q.z, q.x, q.y, q.w, u.z, u.x, u.y)
  {
    ConjugatedX(q.z, q.x, q.y, q.w, u.z, u.x, u.y, u.w, s.z, s.x, s.y, s.w, t.z);
  }

  lemma RotatedZOfQuat(q: Quat, u: Quat, d: Vec, v: Vec, n: real)
    requires IsCross(q, u, d) && IsRotated(q, u, d, v) && n == Norm2(q)
    ensures n * u.z + v.z - u.z == TurnedX(q.z, q.x, q.y, q.w, u.z, u.x, u.y)
  {
    RotatedX(q.z, q.x, q.y, q.w, u.z, u.x, u.y, d.z, d.x, d.y, n);
  }

  lemma ConjugatedWOfQuat(q: Quat, u: Quat, s: Quat, t: Quat)
    requires IsConjProduct(q, u, s) && IsProduct(s, q, t)
    ensures t.w == q.x * q.x * u.w + q.y * q.y * u.w + q.z * q.z * u.w + q.w * q.w * u.w
  {
    ConjugatedW(q.x, q.y, q.z, q.w, u.x, u.y, u.z, u.w, s.x, s.y, s.z, s.w, t.w);
  }

  function Turn(q: Quat, u: Quat): Quat {
    Mul(Mul(Conj(q), u), q)
  }

  predicate Unit(q: Quat) {
    Norm2(q) == 1.0
  }

  lemma SameCoordinate(t: real, v: real, u: real, n: real, p: real)
    requires t == p && n * u + v - u == p && n == 1.0
    ensures t == v
  {
  }

  lemma ConjugationTurns(q: Quat, u: Quat, s: Quat, t: Quat, d: Vec, v: Vec, n: real)
    requires IsConjProduct(q, u, s) && IsProduct(s, q, t) && IsCross(q, u, d) && IsRotated(q, u, d, v)
    requires n == Norm2(q) && n == 1.0
    ensures t.x == v.x && t.y == v.y && t.z == v.z
  {
    ConjugatedXOfQuat(q, u, s, t);
    RotatedXOfQuat(q, u, d, v, n);
    SameCoordinate(t.x, v.x, u.x, n, TurnedX(q.x, q.y, q.z, q.w, u.x, u.y, u.z));
    ConjugatedYOfQuat(q, u, s, t);
    RotatedYOfQuat(q, u, d, v, n);
    SameCoordinate(t.y, v.y, u.y, n, TurnedX(q.y, q.z, q.x, q.w, u.y, u.z, u.x));
    ConjugatedZOfQuat(q, u, s, t);
    RotatedZOfQuat(q, u, d, v, n);
    SameCoordinate(t.z, v.z, u.z, n, TurnedX(q.z, q.x, q.y, q.w, u.z, u.x, u.y));
  }

  lemma ConjugationKeepsScalar(q: Quat, u: Quat, s: Quat, t: Quat, n: real)
    requires IsConjProduct(q, u, s) && IsProduct(s, q, t) && n == Norm2(q) && n == 1.0
    ensures t.w == u.w
  {
    ConjugatedWOfQuat(q, u, s, t);
    SumTimes(q.x * q.x, q.y * q.y, q.z * q.z, q.w * q.w, u.w, n);
  }

  /** vecrot is conjugation by the quaternion. */
  lemma VecRotIsConjugation(q: Quat, u: Quat)
    requires Unit(q)
    ensures Axis(Turn(q, u)) == VecRot(q, Axis(u))
    ensures Turn(q, u).w == u.w
  {
    var c := Conj(q);
    var s := Mul(c, u);
    var t := Turn(q, u);
    var d := Minors(q, Axis(u));
    var v := VecRot(q, Axis(u));
    ProductOfConj(q, u, c, s);
    MulIsProduct(s, q, t);
    VecRotIsRotated(q, u, d, v);
    ConjugationTurns(q, u, s, t, d, v, Norm2(q));
    ConjugationKeepsScalar(q, u, s, t, Norm2(q));
  }

  lemma TurnOfPure(q: Quat, r: Vec)
    requires Unit(q)
    ensures Turn(q, Pure(r)) == Pure(VecRot(q, r))
  {
    VecRotIsConjugation(q, Pure(r));
    assert Axis(Pure(r)) == r;
  }

  /** (b a)* u (b a) is a* (b* u b) a. */
  lemma TurnsCompose(a: Quat, b: Quat, u: Quat)
    ensures Turn(Mul(b, a), u) == Turn(a, Turn(b, u))
  {
    var a', b', m := Conj(a), Conj(b), Mul(b, a);
    var m' := Mul(a', b');
    var x := Mul(b', u);
    var y := Mul(a', x);
    var t := Mul(x, b);
    ConjOfProduct(b, a, m, b', a', m');
    Associative(a', b', u, m', x, Mul(m', u), y);
    Associative(y, b, a, Mul(y, b), m, Mul(Mul(y, b), a), Mul(y, m));
    Associative(a', x, b, y, t, Mul(y, b), Mul(a', t));
  }

  /** qmult is composition of rotations: the product of two unit quaternions turns every
      vector as the right factor followed by the left one. */
  lemma RotationComposes(a: Quat, b: Quat, r: Vec)
    requires Unit(a) && Unit(b)
    ensures Unit(QMult(a, b))
    ensures VecRot(QMult(a, b), r) == VecRot(a, VecRot(b, r))
  {
    var m := Mul(b, a);
    NormIsMultiplicative(a, b);
    QMultIsReversedProduct(a, b);
    TurnsCompose(a, b, Pure(r));
    TurnOfPure(b, r);
    TurnOfPure(a, VecRot(b, r));
    TurnOfPure(m, r);
    assert Axis(Pure(VecRot(m, r))) == VecRot(m, r);
    assert Axis(Pure(VecRot(a, VecRot(b, r)))) == VecRot(a, VecRot(b, r));
  }

  lemma TurnByIdentity(u: Quat)
    ensures Mul(IDENTITY, u) == u
    ensures Turn(IDENTITY, u) == u
  {
  }

  /** Rotating by a unit quaternion is undone by rotating by its conjugate. */
  lemma RotationInverse(q: Quat, r: Vec)
    requires Unit(q)
    ensures Unit(Conj(q))
    ensures VecRot(Conj(q), VecRot(q, r)) == r
  {
    var q' := Conj(q);
    TimesConj(q, q', Mul(q, q'), Mul(q', q), Norm2(q));
    QMultIsReversedProduct(q', q);
    RotationComposes(q', q, r);
    TurnByIdentity(Pure(r));
    TurnOfPure(IDENTITY, r);
    assert Axis(Pure(r)) == r && Axis(Pure(VecRot(IDENTITY, r))) == VecRot(IDENTITY, r);
  }

  lemma CancelsLeft(q: Quat, c: Quat, v: Quat, k: Quat, n: Quat)
    requires Mul(q, c) == IDENTITY && k == Mul(c, v) && n == Mul(q, k)
    ensures n == v
  {
    TurnByIdentity(v);
    Associative(q, c, v, IDENTITY, k, v, n);
  }

  lemma MiddleCancels(s: Quat, q: Quat, c: Quat, v: Quat, tu: Quat, k: Quat, n: Quat, r: Quat, x: Quat)
    requires Mul(q, c) == IDENTITY && tu == Mul(s, q) && k == Mul(c, v) && n == Mul(q, k)
    requires r == Mul(tu, k) && x == Mul(s, v)
    ensures r == x
  {
    CancelsLeft(q, c, v, k, n);
    Associative(s, q, k, tu, n, r, x);
  }

  lemma TurnsMultiply(c: Quat, q: Quat, u: Quat, v: Quat, s: Quat, k: Quat, tu: Quat, tv: Quat, m: Quat, x: Quat)
    requires Mul(q, c) == IDENTITY && s == Mul(c, u) && k == Mul(c, v)
    requires tu == Mul(s, q) && tv == Mul(k, q) && m == Mul(u, v) && x == Mul(s, v)
    ensures Mul(Mul(c, m), q) == Mul(tu, tv)
  {
    MiddleCancels(s, q, c, v, tu, k, Mul(q, k), Mul(tu, k), x);
    Associative(tu, k, q, x, tv, Mul(x, q), Mul(tu, tv));
    Associative(c, u, v, s, m, x, Mul(c, m));
  }

  /** Turning by a unit quaternion respects the Hamilton product: (q* u q) (q* v q) is q* (u v) q. */
  lemma TurnOfProduct(q: Quat, u: Quat, v: Quat)
    requires Unit(q)
    ensures Turn(q, Mul(u, v)) == Mul(Turn(q, u), Turn(q, v))
  {
    var c := Conj(q);
    var s, k := Mul(c, u), Mul(c, v);
    TimesConj(q, c, Mul(q, c), Mul(c, q), Norm2(q));
    TurnsMultiply(c, q, u, v, s, k, Mul(s, q), Mul(k, q), Mul(u, v), Mul(s, v));
  }

  lemma PureProduct(a: Vec, b: Vec)
    ensures Axis(Mul(Pure(a), Pure(b))) == Cross(a, b)
    ensures Mul(Pure(a), Pure(b)).w == -Dot(a, b)
  {
  }

  /** vecrot by a unit quaternion is a proper rotation: it keeps every dot product (hence every
      length and angle) and every cross product (hence the orientation). */
  lemma RotationPreserves(q: Quat, a: Vec, b: Vec)
    requires Unit(q)
    ensures Dot(VecRot(q, a), VecRot(q, b)) == Dot(a, b)
    ensures Cross(VecRot(q, a), VecRot(q, b)) == VecRot(q, Cross(a, b))
  {
    var m := Mul(Pure(a), Pure(b));
    TurnOfProduct(q, Pure(a), Pure(b));
    TurnOfPure(q, a);
    TurnOfPure(q, b);
    PureProduct(a, b);
    PureProduct(VecRot(q, a), VecRot(q, b));
    VecRotIsConjugation(q, m);
  }

  // ---------------------------------------------------------------------------
  // vecrot for a quaternion of any norm
  // ---------------------------------------------------------------------------

  lemma CrossIsOrthogonal(qx: real, qy: real, qz: real, rx: real, ry: real, rz: real,
                          d1: real, d2: real, d3: real)
    requires d1 == qz * ry - qy * rz && d2 == qx * rz - qz * rx && d3 == qy * rx - qx * ry
    ensures rx * d1 + ry * d2 + rz * d3 == 0.0
    ensures qx * d1 + qy * d2 + qz * d3 == 0.0
  {
  }

  /** r . (d x q) is -(d . d) when d is r x q. */
  lemma TripleProduct(qx: real, qy: real, qz: real, rx: real, ry: real, rz: real,
                      d1: real, d2: real, d3: real, e1: real, e2: real, e3: real)
    requires d1 == qz * ry - qy * rz && d2 == qx * rz - qz * rx && d3 == qy * rx - qx * ry
    requires e1 == qz * d2 - qy * d3 && e2 == qx * d3 - qz * d1 && e3 == qy * d1 - qx * d2
    ensures rx * e1 + ry * e2 + rz * e3 == -(d1 * d1 + d2 * d2 + d3 * d3)
  {
    assert rx * e1 == rx * (qz * d2 - qy * d3);
    assert ry * e2 == ry * (qx * d3 - qz * d1);
    assert rz * e3 == rz * (qy * d1 - qx * d2);
    assert d1 * d1 == (qz * ry - qy * rz) * d1;
    assert d2 * d2 == (qx * rz - qz * rx) * d2;
    assert d3 * d3 == (qy * rx - qx * ry) * d3;
  }

  /** The squared length of d x q, for any d and q. */
  lemma Lagrange(qx: real, qy: real, qz: real, d1: real, d2: real, d3: real,
                 e1: real, e2: real, e3: real)
    requires e1 == qz * d2 - qy * d3 && e2 == qx * d3 - qz * d1 && e3 == qy * d1 - qx * d2
    ensures e1 * e1 + e2 * e2 + e3 * e3
         == (d1 * d1 + d2 * d2 + d3 * d3) * (qx * qx + qy * qy + qz * qz)
          - (qx * d1 + qy * d2 + qz * d3) * (qx * d1 + qy * d2 + qz * d3)
  {
  }

  lemma LengthOfCross(qx: real, qy: real, qz: real, d1: real, d2: real, d3: real,
                      e1: real, e2: real, e3: real, l: real, n: real, p: real)
    requires e1 == qz * d2 - qy * d3 && e2 == qx * d3 - qz * d1 && e3 == qy * d1 - qx * d2
    requires l == d1 * d1 + d2 * d2 + d3 * d3 && n == qx * qx + qy * qy + qz * qz
    requires p == qx * d1 + qy * d2 + qz * d3 && p == 0.0
    ensures e1 * e1 + e2 * e2 + e3 * e3 == l * n
  {
    Lagrange(qx, qy, qz, d1, d2, d3, e1, e2, e3);
    assert l * n == (d1 * d1 + d2 * d2 + d3 * d3) * (qx * qx + qy * qy + qz * qz);
    assert (qx * d1 + qy * d2 + qz * d3) * (qx * d1 + qy * d2 + qz * d3) == p * p;
  }

  lemma SquareOfSum(r: real, f: real, v: real)
    requires v == r + 2.0 * f
    ensures v * v == r * r + 4.0 * (r * f) + 4.0 * (f * f)
  {
  }

  lemma SquareOfScaledSum(w: real, d: real, e: real, f: real)
    requires f == d * w + e
    ensures f * f == w * w * (d * d) + 2.0 * w * (d * e) + e * e
  {
  }

  lemma TimesScaledSum(r: real, w: real, d: real, e: real, f: real)
    requires f == d * w + e
    ensures r * f == w * (r * d) + r * e
  {
  }

  lemma SquaresOfScaledSums(w: real, d1: real, d2: real, d3: real, e1: real, e2: real, e3: real,
                            f1: real, f2: real, f3: real, l: real, n: real)
    requires f1 == d1 * w + e1 && f2 == d2 * w + e2 && f3 == d3 * w + e3
    requires d1 * e1 + d2 * e2 + d3 * e3 == 0.0
    requires d1 * d1 + d2 * d2 + d3 * d3 == l
    requires e1 * e1 + e2 * e2 + e3 * e3 == l * n
    ensures f1 * f1 + f2 * f2 + f3 * f3 == l * (n + w * w)
  {
    SquareOfScaledSum(w, d1, e1, f1);
    SquareOfScaledSum(w, d2, e2, f2);
    SquareOfScaledSum(w, d3, e3, f3);
    assert w * w * l == w * w * (d1 * d1) + w * w * (d2 * d2) + w * w * (d3 * d3);
    assert 0.0 == 2.0 * w * (d1 * e1 + d2 * e2 + d3 * e3);
  }

  lemma TimesScaledSums(rx: real, ry: real, rz: real, w: real, d1: real, d2: real, d3: real,
                        e1: real, e2: real, e3: real, f1: real, f2: real, f3: real)
    requires f1 == d1 * w + e1 && f2 == d2 * w + e2 && f3 == d3 * w + e3
    requires rx * d1 + ry * d2 + rz * d3 == 0.0
    ensures rx * f1 + ry * f2 + rz * f3 == rx * e1 + ry * e2 + rz * e3
  {
    TimesScaledSum(rx, w, d1, e1, f1);
    TimesScaledSum(ry, w, d2, e2, f2);
    TimesScaledSum(rz, w, d3, e3, f3);
    assert 0.0 == w * (rx * d1 + ry * d2 + rz * d3);
  }

  /** The squared length of r + 2 f. */
  lemma LengthOfSum(rx: real, ry: real, rz: real, f1: real, f2: real, f3: real,
                    vx: real, vy: real, vz: real, l: real, n: real)
    requires vx == rx + 2.0 * f1 && vy == ry + 2.0 * f2 && vz == rz + 2.0 * f3
    requires rx * f1 + ry * f2 + rz * f3 == -l
    requires f1 * f1 + f2 * f2 + f3 * f3 == l * n
    ensures vx * vx + vy * vy + vz * vz == rx * rx + ry * ry + rz * rz + 4.0 * (l * (n - 1.0))
  {
    SquareOfSum(rx, f1, vx);
    SquareOfSum(ry, f2, vy);
    SquareOfSum(rz, f3, vz);
  }

  lemma LengthOfRotated(qx: real, qy: real, qz: real, w: real, rx: real, ry: real, rz: real,
                        d1: real, d2: real, d3: real, e1: real, e2: real, e3: real,
                        f1: real, f2: real, f3: real, vx: real, vy: real, vz: real, l: real, n: real)
    requires d1 == qz * ry - qy * rz && d2 == qx * rz - qz * rx && d3 == qy * rx - qx * ry
    requires e1 == qz * d2 - qy * d3 && e2 == qx * d3 - qz * d1 && e3 == qy * d1 - qx * d2
    requires f1 == d1 * w + e1 && f2 == d2 * w + e2 && f3 == d3 * w + e3
    requires vx == rx + 2.0 * f1 && vy == ry + 2.0 * f2 && vz == rz + 2.0 * f3
    requires l == d1 * d1 + d2 * d2 + d3 * d3 && n == qx * qx + qy * qy + qz * qz
    ensures vx * vx + vy * vy + vz * vz
         == rx * rx + ry * ry + rz * rz + 4.0 * (l * (n + w * w - 1.0))
  {
    CrossIsOrthogonal(qx, qy, qz, rx, ry, rz, d1, d2, d3);
    CrossIsOrthogonal(qx, qy, qz, d1, d2, d3, e1, e2, e3);
    TripleProduct(qx, qy, qz, rx, ry, rz, d1, d2, d3, e1, e2, e3);
    LengthOfCross(qx, qy, qz, d1, d2, d3, e1, e2, e3, l, n, 0.0);
    SquaresOfScaledSums(w, d1, d2, d3, e1, e2, e3, f1, f2, f3, l, n);
    TimesScaledSums(rx, ry, rz, w, d1, d2, d3, e1, e2, e3, f1, f2, f3);
    LengthOfSum(rx, ry, rz, f1, f2, f3, vx, vy, vz, l, n + w * w);
  }

  lemma LengthOfMoved(q: Quat, u: Quat, d: Vec, e: Vec, f: Vec, v: Vec, l: real, n: real)
    requires IsCross(q, u, d) && IsCross(q, Pure(d), e)
    requires f.x == d.x * q.w + e.x && f.y == d.y * q.w + e.y && f.z == d.z * q.w + e.z
    requires v.x == u.x + 2.0 * f.x && v.y == u.y + 2.0 * f.y && v.z == u.z + 2.0 * f.z
    requires l == d.x * d.x + d.y * d.y + d.z * d.z && n == q.x * q.x + q.y * q.y + q.z * q.z
    ensures v.x * v.x + v.y * v.y + v.z * v.z
         == u.x * u.x + u.y * u.y + u.z * u.z + 4.0 * (l * (n + q.w * q.w - 1.0))
  {
    LengthOfRotated(q.x, q.y, q.z, q.w, u.x, u.y, u.z, d.x, d.y, d.z, e.x, e.y, e.z, f.x, f.y, f.z,
                    v.x, v.y, v.z, l, n);
  }

  lemma PartsOfRotated(q: Quat, u: Quat, d: Vec, e: Vec, f: Vec, v: Vec)
    requires IsRotated(q, u, d, v) && IsCross(q, Pure(d), e)
    requires f.x == d.x * q.w + e.x && f.y == d.y * q.w + e.y && f.z == d.z * q.w + e.z
    ensures v.x == u.x + 2.0 * f.x && v.y == u.y + 2.0 * f.y && v.z == u.z + 2.0 * f.z
  {
  }

  /** What vecrot does to lengths for a quaternion of any norm: |R|^2 = |r|^2 + 4 |r x v|^2 (N - 1). */
  lemma LengthAfterVecRot(q: Quat, r: Vec)
    ensures Dot(VecRot(q, r), VecRot(q, r))
         == Dot(r, r) + 4.0 * (Dot(Minors(q, r), Minors(q, r)) * (Norm2(q) - 1.0))
  {
    var v := VecRot(q, r);
    var d := Minors(q, r);
    var e := Minors(q, d);
    var f := Vec(d.x * q.w + e.x, d.y * q.w + e.y, d.z * q.w + e.z);
    VecRotIsRotated(q, Pure(r), d, v);
    MinorsAreCross(q, Pure(d), e);
    PartsOfRotated(q, Pure(r), d, e, f, v);
    LengthOfMoved(q, Pure(r), d, e, f, v, Dot(d, d), q.x * q.x + q.y * q.y + q.z * q.z);
  }

  predicate Parallel(q: Quat, r: Vec) {
    && q.z * r.y == q.y * r.z
    && q.x * r.z == q.z * r.x
    && q.y * r.x == q.x * r.y
  }

  lemma SumOfSquares(a: real, b: real, c: real)
    ensures a * a + b * b + c * c == 0.0 <==> a == b == c == 0.0
  {
    Square(a);
    Square(b);
    Square(c);
  }

  lemma CrossVanishes(q: Quat, r: Vec)
    ensures Dot(Minors(q, r), Minors(q, r)) == 0.0 <==> Parallel(q, r)
  {
    var d := Minors(q, r);
    SumOfSquares(d.x, d.y, d.z);
  }

  lemma KeptExactlyWhen(l: real, k: real, d: real, n: real)
    requires l == k + 4.0 * (d * (n - 1.0))
    ensures l == k <==> d == 0.0 || n == 1.0
  {
    ZeroProduct(d, n - 1.0);
  }

  /** vecrot keeps the length of r exactly when the quaternion is a unit quaternion or r lies
      along its axis. */
  lemma LengthIsKeptExactlyWhen(q: Quat, r: Vec)
    ensures Dot(VecRot(q, r), VecRot(q, r)) == Dot(r, r) <==> Unit(q) || Parallel(q, r)
  {
    LengthAfterVecRot(q, r);
    CrossVanishes(q, r);
    KeptExactlyWhen(Dot(VecRot(q, r), VecRot(q, r)), Dot(r, r), Dot(Minors(q, r), Minors(q, r)), Norm2(q));
  }

  lemma MinorOfNegative(a: real, b: real, c: real, d: real)
    ensures Minor(-a, b, -c, d) == -Minor(a, b, c, d)
  {
  }

  lemma MinorsOfNegative(q: Quat, r: Vec)
    ensures Minors(Neg(q), r) == Vec(-Minors(q, r).x, -Minors(q, r).y, -Minors(q, r).z)
  {
    MinorOfNegative(q.z, r.y, q.y, r.z);
    MinorOfNegative(q.x, r.z, q.z, r.x);
    MinorOfNegative(q.y, r.x, q.x, r.y);
  }

  lemma MovedByNegative(r: real, d: real, w: real, a: real, b: real, c: real, e: real)
    ensures Moved(r, -d, -w, -a, -b, -c, -e) == Moved(r, d, w, a, b, c, e)
  {
  }

  lemma DisplacedByNegative(q: Quat, r: Vec, d: Vec)
    ensures Displaced(Neg(q), r, Vec(-d.x, -d.y, -d.z)) == Displaced(q, r, d)
  {
    MovedByNegative(r.x, d.x, q.w, q.z, d.y, q.y, d.z);
    MovedByNegative(r.y, d.y, q.w, q.x, d.z, q.z, d.x);
    MovedByNegative(r.z, d.z, q.w, q.y, d.x, q.x, d.y);
  }

  /** A quaternion and its negative describe the same rotation, so qposcosine changes no rotation. */
  lemma NegSameRotation(q: Quat, r: Vec)
    ensures VecRot(Neg(q), r) == VecRot(q, r)
    ensures VecRot(PosCosine(q), r) == VecRot(q, r)
  {
    MinorsOfNegative(q, r);
    DisplacedByNegative(q, r, Minors(q, r));
  }

  // ---------------------------------------------------------------------------
  // Normalisation
  // ---------------------------------------------------------------------------

  lemma QuotientSquared(a: real, n: real)
    requires n != 0.0
    ensures (a / n) * (a / n) * (n * n) == a * a
  {
    Quotient(a, n);
    assert (a / n) * (a / n) * (n * n) == (n * (a / n)) * (n * (a / n));
  }

  /** The quotients have a squared norm of one when n is the root of the squared norm. */
  lemma UnitSum(x: real, y: real, z: real, w: real, n: real, s: real)
    requires n != 0.0 && n * n == x * x + y * y + z * z + w * w
    requires s == (x / n) * (x / n) + (y / n) * (y / n) + (z / n) * (z / n) + (w / n) * (w / n)
    ensures s == 1.0
  {
    QuotientSquared(x, n);
    QuotientSquared(y, n);
    QuotientSquared(z, n);
    QuotientSquared(w, n);
    SumTimes((x / n) * (x / n), (y / n) * (y / n), (z / n) * (z / n), (w / n) * (w / n), n * n, s);
    Square(n);
    CancelFactor(s, 1.0, n * n);
  }

  lemma NegSameNorm(q: Quat)
    ensures Norm2(Neg(q)) == Norm2(q)
  {
  }

  /** qnorm always returns a unit quaternion with a non-negative scalar part, the null quaternion
      included. */
  lemma NormalisedIsUnit(q: Quat, n: real)
    requires n >= 0.0 && n * n == Norm2(q)
    ensures Unit(QNorm(q, n)) && QNorm(q, n).w >= 0.0
  {
    if n >= EPSILON {
      var k := Quat(q.x / n, q.y / n, q.z / n, q.w / n);
      UnitSum(q.x, q.y, q.z, q.w, n, Norm2(k));
      NegSameNorm(k);
    }
  }

  /** A quaternion shorter than 1E-16 becomes the identity; any other is its length times its normal form, or
      the negative of that if its cosine is negative. */
  lemma NormalFormIsMultiple(q: Quat, n: real, r: Quat)
    requires r == QNorm(q, n) && n >= 0.0
    ensures n < 0.0000000000000001 ==> r == Quat(0.0, 0.0, 0.0, 1.0)
    ensures n >= 0.0000000000000001 && q.w >= 0.0 ==> q == Scale(n, r)
    ensures n >= 0.0000000000000001 && q.w < 0.0 ==> q == Neg(Scale(n, r))
  {
    if n >= EPSILON {
      Quotient(q.x, n);
      Quotient(q.y, n);
      Quotient(q.z, n);
      Quotient(q.w, n);
      SignOfQuotient(q.w, n);
    }
  }

  /** Normalising a second time changes nothing. */
  lemma NormalisedTwice(q: Quat, n: real, n': real)
    requires n >= 0.0 && n * n == Norm2(q)
    requires n' >= 0.0 && n' * n' == Norm2(QNorm(q, n))
    ensures QNorm(QNorm(q, n), n') == QNorm(q, n)
  {
    NormalisedIsUnit(q, n);
    ZeroProduct(n' - 1.0, n' + 1.0);
  }

  lemma ScaledQuotient(k: real, a: real, n: real)
    requires k != 0.0 && n != 0.0 && k * n != 0.0
    ensures (k * a) / (k * n) == a / n
  {
    Quotient(k * a, k * n);
    Quotient(a, n);
    assert (a / n) * (k * n) == k * (n * (a / n));
    CancelFactor((k * a) / (k * n), a / n, k * n);
  }

  lemma NegatedQuotient(a: real, n: real)
    requires n != 0.0
    ensures (-a) / n == -(a / n)
  {
    Quotient(-a, n);
    Quotient(a, n);
    CancelFactor((-a) / n, -(a / n), n);
  }

  /** Every positive multiple of a quaternion has the same normal form, as long as neither of the
      two counts as null. */
  lemma NormalisedIgnoresLength(q: Quat, n: real, k: real)
    requires k > 0.0 && n >= EPSILON && k * n >= EPSILON
    ensures QNorm(Scale(k, q), k * n) == QNorm(q, n)
  {
    ScaledQuotient(k, q.x, n);
    ScaledQuotient(k, q.y, n);
    ScaledQuotient(k, q.z, n);
    ScaledQuotient(k, q.w, n);
  }

  lemma SignOfQuotient(a: real, n: real)
    requires n > 0.0
    ensures a / n < 0.0 <==> a < 0.0
  {
    Quotient(a, n);
    ScaledOrder(0.0, a / n, n);
  }

  /** Of the two quaternions of one rotation qnorm always picks the same, with one exception: for a
      half turn (scalar part zero) the two normal forms are negatives of each other. */
  lemma NormalFormOfNegative(q: Quat, n: real)
    requires n >= EPSILON
    ensures QNorm(Neg(q), n) == (if q.w == 0.0 then Neg(QNorm(q, n)) else QNorm(q, n))
  {
    NegatedQuotient(q.x, n);
    NegatedQuotient(q.y, n);
    NegatedQuotient(q.z, n);
    NegatedQuotient(q.w, n);
    SignOfQuotient(q.w, n);
    Quotient(q.w, n);
  }

  // ---------------------------------------------------------------------------
  // The routines on arrays
  // ---------------------------------------------------------------------------

  function QuatOf(a: array<real>): Quat
    requires a.Length == 4
    reads a
  {
    Quat(a[0], a[1], a[2], a[3])
  }

  function ScalarFirst(a: array<real>): Quat
    requires a.Length == 4
    reads a
  {
    Quat(a[1], a[2], a[3], a[0])
  }

  function VecOf(a: array<real>): Vec
    requires a.Length == 3
    reads a
  {
    Vec(a[0], a[1], a[2])
  }

  /** The SPICE product of two quaternions stored with the scalar first. */
  method Qxq(a: array<real>, b: array<real>, c: array<real>)
    requires a.Length == b.Length == c.Length == 4
    requires c != a && c != b
    modifies c
    ensures ScalarFirst(c) == Mul(ScalarFirst(a), ScalarFirst(b))
  {
    var m := Mul(ScalarFirst(a), ScalarFirst(b));
    c[0] := m.w;
    c[1] := m.x;
    c[2] := m.y;
    c[3] := m.z;
  }

  /** qmult; the result may overwrite either factor. */
  method MultiplyInto(a: array<real>, b: array<real>, out: array<real>)
    requires a.Length == b.Length == out.Length == 4
    modifies out
    ensures QuatOf(out) == QMult(old(QuatOf(a)), old(QuatOf(b)))
  {
    var aIn := new real[4];
    var bIn := new real[4];
    var c := new real[4];
    aIn[0] := a[3];
    aIn[1] := -a[0];
    aIn[2] := -a[1];
    aIn[3] := -a[2];
    bIn[0] := b[3];
    bIn[1] := -b[0];
    bIn[2] := -b[1];
    bIn[3] := -b[2];
    assert ScalarFirst(aIn) == Conj(QuatOf(a)) && ScalarFirst(bIn) == Conj(QuatOf(b));
    Qxq(aIn, bIn, c);
    out[0] := -c[1];
    out[1] := -c[2];
    out[2] := -c[3];
    out[3] := c[0];
  }

  /** vecrot; the result may overwrite the vector. */
  method RotateInto(q: array<real>, r1: array<real>, r2: array<real>)
    requires q.Length == 4 && r1.Length == r2.Length == 3
    modifies r2
    ensures VecOf(r2) == VecRot(old(QuatOf(q)), old(VecOf(r1)))
  {
    var d1 := Minor(q[2], r1[1], q[1], r1[2]);
    var d2 := Minor(q[0], r1[2], q[2], r1[0]);
    var d3 := Minor(q[1], r1[0], q[0], r1[1]);
    r2[0] := Moved(r1[0], d1, q[3], q[2], d2, q[1], d3);
    r2[1] := Moved(r1[1], d2, q[3], q[0], d3, q[2], d1);
    r2[2] := Moved(r1[2], d3, q[3], q[1], d1, q[0], d2);
  }

  /** qposcosine; the result may overwrite the argument. */
  method PositiveCosineInto(qIn: array<real>, qOut: array<real>)
    requires qIn.Length == qOut.Length == 4
    modifies qOut
    ensures QuatOf(qOut) == PosCosine(old(QuatOf(qIn)))
    ensures QuatOf(qOut).w >= 0.0
  {
    if qIn[3] < 0.0 {
      qOut[0] := -qIn[0];
      qOut[1] := -qIn[1];
      qOut[2] := -qIn[2];
      qOut[3] := -qIn[3];
    } else {
      qOut[0] := qIn[0];
      qOut[1] := qIn[1];
      qOut[2] := qIn[2];
      qOut[3] := qIn[3];
    }
  }

  /** qnorm, with n the square root it takes; the result may overwrite the argument. */
  method NormaliseInto(qIn: array<real>, n: real, qOut: array<real>)
    requires qIn.Length == qOut.Length == 4
    requires n >= 0.0 && n * n == Norm2(QuatOf(qIn))
    modifies qOut
    ensures QuatOf(qOut) == QNorm(old(QuatOf(qIn)), n)
    ensures Unit(QuatOf(qOut)) && QuatOf(qOut).w >= 0.0
  {
    NormalisedIsUnit(QuatOf(qIn), n);
    var qn := new real[4];
    if n < EPSILON {
      qn[0] := 0.0;
      qn[1] := 0.0;
      qn[2] := 0.0;
      qn[3] := 1.0;
    } else {
      qn[0] := qIn[0] / n;
      qn[1] := qIn[1] / n;
      qn[2] := qIn[2] / n;
      qn[3] := qIn[3] / n;
    }
    PositiveCosineInto(qn, qOut);
  }
}
