/** Planes, bounding spheres and the frustum test, in the world and in local coordinates. */
module Culling {
  import opened Linear
  import opened Rotations

  /** Hessian normal form: the points x with n.x + p == 0. */
  datatype Plane = Plane(n: Vec3, p: real)

  datatype Sphere = Sphere(center: Vec3, radius: real)

  function Distance(pl: Plane, v: Vec3): real { Dot(pl.n, v) + pl.p }

  /** No plane has the sphere wholly on its negative side. */
  ghost predicate Touches(planes: seq<Plane>, s: Sphere) {
    forall i | 0 <= i < |planes| :: Distance(planes[i], s.center) >= -s.radius
  }

  method Intersect(planes: seq<Plane>, s: Sphere) returns (hit: bool)
    ensures hit <==> forall i | 0 <= i < |planes| :: Distance(planes[i], s.center) >= -s.radius
    ensures hit <==> Touches(planes, s)
  {
    var negativeRadius := -s.radius;
    var itr := 0;
    while itr != |planes|
      invariant itr <= |planes|
      invariant forall i | 0 <= i < itr :: Distance(planes[i], s.center) >= -s.radius
    {
      if Distance(planes[itr], s.center) < negativeRadius { return false; }
      itr := itr + 1;
    }
    return true;
  }

  method Inside(planes: seq<Plane>, v: Vec3, epsilon: real) returns (inside: bool)
    ensures inside <==> forall i | 0 <= i < |planes| :: Distance(planes[i], v) >= -epsilon
    ensures inside <==> Touches(planes, Sphere(v, epsilon))
  {
    var negativeEpsilon := -epsilon;
    var itr := 0;
    while itr != |planes|
      invariant itr <= |planes|
      invariant forall i | 0 <= i < itr :: Distance(planes[i], v) >= -epsilon
    {
      if Distance(planes[itr], v) < negativeEpsilon { return false; }
      itr := itr + 1;
    }
    return true;
  }

  // ----- soundness -----

  function Difference(a: Vec3, b: Vec3): Vec3 { Vec3(a.x - b.x, a.y - b.y, a.z - b.z) }

  ghost predicate InSphere(s: Sphere, v: Vec3) {
    s.radius >= 0.0 && Length2(Difference(v, s.center)) <= s.radius * s.radius
  }

  lemma Lagrange(a: Vec3, b: Vec3)
    ensures (a.x * b.x + a.y * b.y + a.z * b.z) * (a.x * b.x + a.y * b.y + a.z * b.z)
          + (a.y * b.z - b.y * a.z) * (a.y * b.z - b.y * a.z) + (a.z * b.x - b.z * a.x) * (a.z * b.x - b.z * a.x)
          + (a.x * b.y - b.x * a.y) * (a.x * b.y - b.x * a.y)
         == (a.x * a.x + a.y * a.y + a.z * a.z) * (b.x * b.x + b.y * b.y + b.z * b.z)
  {
  }

  lemma SquareNonNegative(x: real)
    ensures x * x >= 0.0
  {
  }

  lemma CauchySchwarz(a: Vec3, b: Vec3)
    ensures Dot(a, b) * Dot(a, b) <= Length2(a) * Length2(b)
  {
    Lagrange(a, b);
    var c := Cross(a, b);
    SquareNonNegative(c.x);
    SquareNonNegative(c.y);
    SquareNonNegative(c.z);
  }

  lemma SquareOrder(x: real, r: real)
    requires r >= 0.0 && x * x <= r * r
    ensures -r <= x <= r
  {
    assert (x - r) * (x + r) <= 0.0;
    if x > r {
      Positive(x - r, x + r);
    } else if x < -r {
      Positive(r - x, -r - x);
    }
  }

  lemma Positive(x: real, y: real)
    requires x > 0.0 && y > 0.0
    ensures x * y > 0.0
  {
  }

  lemma DistanceMoves(pl: Plane, c: Vec3, v: Vec3)
    ensures Distance(pl, v) == Distance(pl, c) + Dot(pl.n, Difference(v, c))
  {
  }

  lemma DotWithinRadius(n: Vec3, d: Vec3, r: real)
    requires Length2(n) == 1.0 && r >= 0.0 && Length2(d) <= r * r
    ensures -r <= Dot(n, d) <= r
  {
    CauchySchwarz(n, d);
    SquareOrder(Dot(n, d), r);
  }

  /** A culled sphere has no point inside the polytope. */
  lemma CullingIsSound(planes: seq<Plane>, s: Sphere, v: Vec3)
    requires forall i | 0 <= i < |planes| :: Length2(planes[i].n) == 1.0
    requires !Touches(planes, s) && InSphere(s, v)
    ensures exists i :: 0 <= i < |planes| && Distance(planes[i], v) < 0.0
  {
    var i :| 0 <= i < |planes| && Distance(planes[i], s.center) < -s.radius;
    DistanceMoves(planes[i], s.center, v);
    DotWithinRadius(planes[i].n, Difference(v, s.center), s.radius);
  }

  /** For a single plane the test is exact. */
  lemma SinglePlaneIsExact(pl: Plane, s: Sphere)
    requires Length2(pl.n) == 1.0 && s.radius >= 0.0
    ensures Touches([pl], s) <==> exists v :: InSphere(s, v) && Distance(pl, v) >= 0.0
  {
    var nearest := s.center.Plus(pl.n.Times(s.radius));
    NearestPoint(pl, s);
    if exists v :: InSphere(s, v) && Distance(pl, v) >= 0.0 {
      var v :| InSphere(s, v) && Distance(pl, v) >= 0.0;
      if !Touches([pl], s) { CullingIsSound([pl], s, v); }
    }
    if Touches([pl], s) {
      assert Distance([pl][0], s.center) >= -s.radius;
      assert InSphere(s, nearest) && Distance(pl, nearest) >= 0.0;
    }
  }

  /** The point lies in the sphere and on the positive side of the plane, in coordinates. */
  ghost predicate Common(pl: Plane, s: Sphere, v: Vec3) {
    && (v.x - s.center.x) * (v.x - s.center.x) + (v.y - s.center.y) * (v.y - s.center.y)
       + (v.z - s.center.z) * (v.z - s.center.z) <= s.radius * s.radius
    && pl.n.x * v.x + pl.n.y * v.y + pl.n.z * v.z + pl.p >= 0.0
  }

  /** Some point of the sphere lies on the positive side. */
  ghost predicate Meets(pl: Plane, s: Sphere) { exists v :: Common(pl, s, v) }

  lemma SameSquares(x: real, y: real, z: real, x': real, y': real, z': real)
    requires x == x' && y == y' && z == z'
    ensures x * x + y * y + z * z == x' * x' + y' * y' + z' * z'
  {
  }

  lemma CommonIs(pl: Plane, s: Sphere, v: Vec3)
    requires s.radius >= 0.0
    ensures Common(pl, s, v) <==> InSphere(s, v) && Distance(pl, v) >= 0.0
  {
    var d := Difference(v, s.center);
    SameSquares(d.x, d.y, d.z, v.x - s.center.x, v.y - s.center.y, v.z - s.center.z);
  }

  /** A sphere touches the polytope exactly when for every plane it has a point on the positive side. */
  lemma TouchesIff(planes: seq<Plane>, s: Sphere)
    requires s.radius >= 0.0 && forall i | 0 <= i < |planes| :: Length2(planes[i].n) == 1.0
    ensures Touches(planes, s) <==> forall i | 0 <= i < |planes| :: Meets(planes[i], s)
  {
    hide Meets, Distance, Length2;
    forall i | 0 <= i < |planes| ensures Meets(planes[i], s) <==> Distance(planes[i], s.center) >= -s.radius {
      MeetsIff(planes[i], s);
    }
  }

  lemma MeetsIff(pl: Plane, s: Sphere)
    requires s.radius >= 0.0 && Length2(pl.n) == 1.0
    ensures Meets(pl, s) <==> Distance(pl, s.center) >= -s.radius
  {
    hide Common, Distance, Length2, InSphere;
    SinglePlaneIsExact(pl, s);
    assert [pl][0] == pl;
    assert Touches([pl], s) <==> Distance(pl, s.center) >= -s.radius;
    forall v ensures Common(pl, s, v) <==> InSphere(s, v) && Distance(pl, v) >= 0.0 { CommonIs(pl, s, v); }
  }

  lemma NearestPoint(pl: Plane, s: Sphere)
    requires Length2(pl.n) == 1.0 && s.radius >= 0.0
    ensures var v := s.center.Plus(pl.n.Times(s.radius));
      InSphere(s, v) && Distance(pl, v) == Distance(pl, s.center) + s.radius
  {
    var v := s.center.Plus(pl.n.Times(s.radius));
    var d := Difference(v, s.center);
    assert d == pl.n.Times(s.radius);
    ScaledDot(pl.n, s.radius);
    DistanceMoves(pl, s.center, v);
  }

  lemma ScaledDot(n: Vec3, k: real)
    requires Length2(n) == 1.0
    ensures Length2(n.Times(k)) == k * k
    ensures Dot(n, n.Times(k)) == k
  {
  }

  /** Growing the sphere never turns a hit into a miss. */
  lemma GrowingKeepsHit(planes: seq<Plane>, c: Vec3, r: real, r': real)
    requires r <= r' && Touches(planes, Sphere(c, r))
    ensures Touches(planes, Sphere(c, r'))
  {
  }

  // ----- culling in local coordinates -----

  /** Row vector times column. */
  function PlaneColumn(pl: Plane, c: Vec4): real { pl.n.x * c.x + pl.n.y * c.y + pl.n.z * c.z + pl.p * c.w }

  /** The plane as a row vector times the matrix, before it is normalised. */
  function RawTimes(pl: Plane, m: Mat4): Plane {
    Plane(Vec3(PlaneColumn(pl, m.c0), PlaneColumn(pl, m.c1), PlaneColumn(pl, m.c2)), PlaneColumn(pl, m.c3))
  }

  /** `operator*(plane, matrix)`; `len` is the length of the transformed normal. */
  function PlaneTimes(pl: Plane, m: Mat4, len: real): Plane
    requires len > 0.0 && len * len == Length2(RawTimes(pl, m).n)
  {
    var t, inv := RawTimes(pl, m), 1.0 / len;
    Plane(Vec3(t.n.x * inv, t.n.y * inv, t.n.z * inv), t.p * inv)
  }

  function RowX(m: Mat4): Vec3 { Vec3(m.c0.x, m.c1.x, m.c2.x) }
  function RowY(m: Mat4): Vec3 { Vec3(m.c0.y, m.c1.y, m.c2.y) }
  function RowZ(m: Mat4): Vec3 { Vec3(m.c0.z, m.c1.z, m.c2.z) }

  /** Pairwise orthogonal vectors with squared length k. */
  ghost predicate OrthogonalTriple(x: Vec3, y: Vec3, z: Vec3, k: real) {
    && Dot(x, x) == k && Dot(y, y) == k && Dot(z, z) == k
    && Dot(x, y) == 0.0 && Dot(x, z) == 0.0 && Dot(y, z) == 0.0
  }

  /** An affine map whose linear part has orthogonal rows of length s: a rotation (or reflection), a uniform
      scale and a translation. */
  ghost predicate Similarity(m: Mat4, s: real) {
    s > 0.0 && Affine(m) && OrthogonalTriple(RowX(m), RowY(m), RowZ(m), s * s)
  }

  lemma RawTimesIs(pl: Plane, m: Mat4)
    requires Affine(m)
    ensures RawTimes(pl, m).n.x == pl.n.x * m.c0.x + pl.n.y * m.c0.y + pl.n.z * m.c0.z
    ensures RawTimes(pl, m).n.y == pl.n.x * m.c1.x + pl.n.y * m.c1.y + pl.n.z * m.c1.z
    ensures RawTimes(pl, m).n.z == pl.n.x * m.c2.x + pl.n.y * m.c2.y + pl.n.z * m.c2.z
    ensures RawTimes(pl, m).p == pl.n.x * m.c3.x + pl.n.y * m.c3.y + pl.n.z * m.c3.z + pl.p
  {
  }

  lemma RowThenColumn(a: real, b: real, c: real, p: real, x0: real, x1: real, x2: real, x3: real, y0: real, y1: real,
                      y2: real, y3: real, z0: real, z1: real, z2: real, z3: real, u: real, v: real, w: real,
                      n0: real, n1: real, n2: real, n3: real, t0: real, t1: real, t2: real)
    requires n0 == a * x0 + b * y0 + c * z0 && n1 == a * x1 + b * y1 + c * z1 && n2 == a * x2 + b * y2 + c * z2
    requires n3 == a * x3 + b * y3 + c * z3 + p
    requires t0 == x0 * u + x1 * v + x2 * w + x3 && t1 == y0 * u + y1 * v + y2 * w + y3
    requires t2 == z0 * u + z1 * v + z2 * w + z3
    ensures n0 * u + n1 * v + n2 * w + n3 == a * t0 + b * t1 + c * t2 + p
  {
  }

  lemma DistanceIs(pl: Plane, v: Vec3)
    ensures Distance(pl, v) == pl.n.x * v.x + pl.n.y * v.y + pl.n.z * v.z + pl.p
  {
  }

  lemma WeightIsOne(m: Mat4, v: Vec3)
    requires Affine(m)
    ensures Apply(m, Vec4(v.x, v.y, v.z, 1.0)).w == 1.0
  {
    hide Transform;
    AffineTransform(m, v);
  }

  lemma RawDistance(pl: Plane, m: Mat4, v: Vec3)
    requires Affine(m)
    ensures Distance(RawTimes(pl, m), v) == Distance(pl, Transform(m, v))
  {
    hide Distance, RawTimes, Transform, Affine, Apply;
    WeightIsOne(m, v);
    var raw, t := RawTimes(pl, m), Transform(m, v);
    DistanceIs(raw, v);
    DistanceIs(pl, t);
    RowAndColumn(pl, m, v, raw, t);
  }

  lemma RowAndColumn(pl: Plane, m: Mat4, v: Vec3, raw: Plane, t: Vec3)
    requires Affine(m) && raw == RawTimes(pl, m) && t == Transform(m, v)
    ensures raw.n.x * v.x + raw.n.y * v.y + raw.n.z * v.z + raw.p == pl.n.x * t.x + pl.n.y * t.y + pl.n.z * t.z + pl.p
  {
    hide RawTimes, Transform;
    AffineTransform(m, v);
    RawTimesIs(pl, m);
    RowThenColumn(pl.n.x, pl.n.y, pl.n.z, pl.p, m.c0.x, m.c1.x, m.c2.x, m.c3.x, m.c0.y, m.c1.y, m.c2.y, m.c3.y,
                  m.c0.z, m.c1.z, m.c2.z, m.c3.z, v.x, v.y, v.z, raw.n.x, raw.n.y, raw.n.z, raw.p, t.x, t.y, t.z);
  }

  /** `n` as a row vector times the linear part of `m`. */
  function RowTimes(n: Vec3, m: Mat4): Vec3 {
    Vec3(n.x * m.c0.x + n.y * m.c0.y + n.z * m.c0.z, n.x * m.c1.x + n.y * m.c1.y + n.z * m.c1.z,
         n.x * m.c2.x + n.y * m.c2.y + n.z * m.c2.z)
  }

  lemma RowExpansion(a: Vec3, b: Vec3, m: Mat4, s: Vec3, t: Vec3)
    requires s == RowTimes(a, m) && t == RowTimes(b, m)
    ensures s.x * t.x + s.y * t.y + s.z * t.z
         == a.x * b.x * (m.c0.x * m.c0.x + m.c1.x * m.c1.x + m.c2.x * m.c2.x)
          + a.y * b.y * (m.c0.y * m.c0.y + m.c1.y * m.c1.y + m.c2.y * m.c2.y)
          + a.z * b.z * (m.c0.z * m.c0.z + m.c1.z * m.c1.z + m.c2.z * m.c2.z)
          + (a.x * b.y + a.y * b.x) * (m.c0.x * m.c0.y + m.c1.x * m.c1.y + m.c2.x * m.c2.y)
          + (a.x * b.z + a.z * b.x) * (m.c0.x * m.c0.z + m.c1.x * m.c1.z + m.c2.x * m.c2.z)
          + (a.y * b.z + a.z * b.y) * (m.c0.y * m.c0.z + m.c1.y * m.c1.z + m.c2.y * m.c2.z)
  {
  }

  lemma RowCollection(a: Vec3, b: Vec3, m: Mat4, k: real)
    requires m.c0.x * m.c0.x + m.c1.x * m.c1.x + m.c2.x * m.c2.x == k
    requires m.c0.y * m.c0.y + m.c1.y * m.c1.y + m.c2.y * m.c2.y == k
    requires m.c0.z * m.c0.z + m.c1.z * m.c1.z + m.c2.z * m.c2.z == k
    requires m.c0.x * m.c0.y + m.c1.x * m.c1.y + m.c2.x * m.c2.y == 0.0
    requires m.c0.x * m.c0.z + m.c1.x * m.c1.z + m.c2.x * m.c2.z == 0.0
    requires m.c0.y * m.c0.z + m.c1.y * m.c1.z + m.c2.y * m.c2.z == 0.0
    ensures a.x * b.x * (m.c0.x * m.c0.x + m.c1.x * m.c1.x + m.c2.x * m.c2.x)
          + a.y * b.y * (m.c0.y * m.c0.y + m.c1.y * m.c1.y + m.c2.y * m.c2.y)
          + a.z * b.z * (m.c0.z * m.c0.z + m.c1.z * m.c1.z + m.c2.z * m.c2.z)
          + (a.x * b.y + a.y * b.x) * (m.c0.x * m.c0.y + m.c1.x * m.c1.y + m.c2.x * m.c2.y)
          + (a.x * b.z + a.z * b.x) * (m.c0.x * m.c0.z + m.c1.x * m.c1.z + m.c2.x * m.c2.z)
          + (a.y * b.z + a.z * b.y) * (m.c0.y * m.c0.z + m.c1.y * m.c1.z + m.c2.y * m.c2.z)
         == Dot(a, b) * k
  {
  }

  lemma RowDots(m: Mat4)
    ensures Dot(RowX(m), RowX(m)) == m.c0.x * m.c0.x + m.c1.x * m.c1.x + m.c2.x * m.c2.x
    ensures Dot(RowY(m), RowY(m)) == m.c0.y * m.c0.y + m.c1.y * m.c1.y + m.c2.y * m.c2.y
    ensures Dot(RowZ(m), RowZ(m)) == m.c0.z * m.c0.z + m.c1.z * m.c1.z + m.c2.z * m.c2.z
    ensures Dot(RowX(m), RowY(m)) == m.c0.x * m.c0.y + m.c1.x * m.c1.y + m.c2.x * m.c2.y
    ensures Dot(RowX(m), RowZ(m)) == m.c0.x * m.c0.z + m.c1.x * m.c1.z + m.c2.x * m.c2.z
    ensures Dot(RowY(m), RowZ(m)) == m.c0.y * m.c0.z + m.c1.y * m.c1.z + m.c2.y * m.c2.z
  {
  }

  /** A similarity scales inner products of row vectors by s squared. */
  lemma RowsScaleDots(a: Vec3, b: Vec3, m: Mat4, s: real)
    requires Similarity(m, s)
    ensures Dot(RowTimes(a, m), RowTimes(b, m)) == Dot(a, b) * (s * s)
  {
    RowExpansion(a, b, m, RowTimes(a, m), RowTimes(b, m));
    RowDots(m);
    RowCollection(a, b, m, s * s);
  }

  lemma RawNormal(pl: Plane, m: Mat4)
    requires Affine(m)
    ensures RawTimes(pl, m).n == RowTimes(pl.n, m)
  {
  }

  /** The transformed normal of a unit-normal plane has length s. */
  lemma LengthIsScale(pl: Plane, m: Mat4, s: real, len: real)
    requires Similarity(m, s) && Length2(pl.n) == 1.0
    requires len > 0.0 && len * len == Length2(RawTimes(pl, m).n)
    ensures len == s
  {
    RawNormal(pl, m);
    RowsScaleDots(pl.n, pl.n, m, s);
    assert Dot(pl.n, pl.n) == Length2(pl.n);
    var t := RowTimes(pl.n, m);
    assert Dot(t, t) == Length2(t);
    SquareOrder(len, s);
    SquareOrder(s, len);
  }

  function ScaledPlane(t: Plane, k: real): Plane { Plane(t.n.Times(k), t.p * k) }

  lemma ScaledDistance(t: Plane, inv: real, v: Vec3)
    ensures Distance(ScaledPlane(t, inv), v) == Distance(t, v) * inv
  {
  }

  lemma ScaledComparison(local: real, world: real, s: real, len: real, inv: real, r: real)
    requires s > 0.0 && s == len && len * inv == 1.0 && local == world * inv
    ensures local >= -r <==> world >= -(s * r)
  {
    assert local * s == world * (s * inv);
    if local >= -r { assert (local + r) * s >= 0.0; }
    if world >= -(s * r) && local < -r { Positive(-r - local, s); }
  }

  lemma NormalisedLength(n: Vec3, len: real, inv: real)
    requires len * len == Length2(n) && len * inv == 1.0
    ensures Length2(n.Times(inv)) == 1.0
  {
    ScaledSquares(n.x, n.y, n.z, inv);
    assert (len * len) * (inv * inv) == (len * inv) * (len * inv);
  }

  lemma ScaledSquares(x: real, y: real, z: real, k: real)
    ensures (x * k) * (x * k) + (y * k) * (y * k) + (z * k) * (z * k) == (x * x + y * y + z * z) * (k * k)
  {
  }

  lemma PlaneTimesIs(pl: Plane, m: Mat4, len: real) returns (inv: real)
    requires len > 0.0 && len * len == Length2(RawTimes(pl, m).n)
    ensures len * inv == 1.0 && PlaneTimes(pl, m, len) == ScaledPlane(RawTimes(pl, m), inv)
    ensures PlaneTimes(pl, m, len).n == RawTimes(pl, m).n.Times(inv)
  {
    hide RawTimes, Length2;
    inv := 1.0 / len;
  }

  /** One plane: the local test and the world test agree, and the local plane has a unit normal again. */
  lemma PlaneCommutes(pl: Plane, m: Mat4, s: real, len: real, c: Vec3, r: real)
    requires Similarity(m, s) && Length2(pl.n) == 1.0
    requires len > 0.0 && len * len == Length2(RawTimes(pl, m).n)
    ensures Distance(PlaneTimes(pl, m, len), c) >= -r <==> Distance(pl, Transform(m, c)) >= -(s * r)
    ensures Length2(PlaneTimes(pl, m, len).n) == 1.0
  {
    hide Distance, RawTimes, Transform, Length2, OrthogonalTriple, PlaneTimes, Vec3.Times, ScaledPlane;
    var inv := PlaneTimesIs(pl, m, len);
    NormalisedLength(RawTimes(pl, m).n, len, inv);
    LengthIsScale(pl, m, s, len);
    RawDistance(pl, m, c);
    ScaledDistance(RawTimes(pl, m), inv, c);
    ScaledComparison(Distance(PlaneTimes(pl, m, len), c), Distance(RawTimes(pl, m), c), s, len, inv, r);
  }

  /** `local` are the planes of `world` times the matrix, each divided by the length of its normal. */
  ghost predicate TransformedPlanes(world: seq<Plane>, m: Mat4, local: seq<Plane>, lens: seq<real>) {
    && |local| == |world| == |lens|
    && forall i | 0 <= i < |world| ::
         lens[i] > 0.0 && lens[i] * lens[i] == Length2(RawTimes(world[i], m).n) && local[i] == PlaneTimes(world[i], m, lens[i])
  }

  /** The image of a sphere under a similarity with scale s. */
  function SphereImage(m: Mat4, s: real, b: Sphere): Sphere
    requires Affine(m)
  {
    AffineTransform(m, b.center);
    Sphere(Transform(m, b.center), s * b.radius)
  }

  /** Culling a sphere in local coordinates gives the answer that culling its image in the world gives. */
  lemma CullingCommutes(world: seq<Plane>, m: Mat4, s: real, local: seq<Plane>, lens: seq<real>, b: Sphere)
    requires Similarity(m, s) && forall i | 0 <= i < |world| :: Length2(world[i].n) == 1.0
    requires TransformedPlanes(world, m, local, lens)
    ensures Touches(local, b) <==> Touches(world, SphereImage(m, s, b))
  {
    hide Distance, Transform, Length2, OrthogonalTriple, PlaneTimes, RawTimes;
    forall i | 0 <= i < |world|
      ensures Distance(local[i], b.center) >= -b.radius
        <==> Distance(world[i], SphereImage(m, s, b).center) >= -SphereImage(m, s, b).radius
    {
      PlaneCommutes(world[i], m, s, lens[i], b.center, b.radius);
    }
  }
}
