/** Culling below a stack of nested transforms. */
module NestedCulling {
  import opened Linear
  import opened Rotations
  import opened Culling

  lemma RowXOfProduct(a: Mat4, b: Mat4)
    requires Affine(a) && Affine(b)
    ensures RowX(Mul(a, b)) == RowTimes(RowX(a), b)
  {
  }

  lemma RowYOfProduct(a: Mat4, b: Mat4)
    requires Affine(a) && Affine(b)
    ensures RowY(Mul(a, b)) == RowTimes(RowY(a), b)
  {
  }

  lemma RowZOfProduct(a: Mat4, b: Mat4)
    requires Affine(a) && Affine(b)
    ensures RowZ(Mul(a, b)) == RowTimes(RowZ(a), b)
  {
  }

  lemma AffineProduct(a: Mat4, b: Mat4)
    requires Affine(a) && Affine(b)
    ensures Affine(Mul(a, b))
  {
  }

  lemma ScaledTriple(x: Vec3, y: Vec3, z: Vec3, k: real, m: Mat4, t: real)
    requires OrthogonalTriple(x, y, z, k) && Similarity(m, t)
    ensures OrthogonalTriple(RowTimes(x, m), RowTimes(y, m), RowTimes(z, m), k * (t * t))
  {
    hide Dot, RowTimes, Similarity;
    RowsScaleDots(x, x, m, t);
    RowsScaleDots(y, y, m, t);
    RowsScaleDots(z, z, m, t);
    RowsScaleDots(x, y, m, t);
    RowsScaleDots(x, z, m, t);
    RowsScaleDots(y, z, m, t);
  }

  lemma SimilarityProduct(a: Mat4, s: real, b: Mat4, t: real)
    requires Similarity(a, s) && Similarity(b, t)
    ensures Similarity(Mul(a, b), s * t)
  {
    AffineProduct(a, b);
    Positive(s, t);
    RowXOfProduct(a, b);
    RowYOfProduct(a, b);
    RowZOfProduct(a, b);
    ScaledTriple(RowX(a), RowY(a), RowZ(a), s * s, b, t);
    assert (s * s) * (t * t) == (s * t) * (s * t);
  }

  // ----- transforming by a product -----

  /** The linear part of `m` applied to `v`. */
  function LinearPart(m: Mat4, v: Vec3): Vec3 { Vec3(Dot(RowX(m), v), Dot(RowY(m), v), Dot(RowZ(m), v)) }

  function Origin(m: Mat4): Vec3 { Vec3(m.c3.x, m.c3.y, m.c3.z) }

  lemma TransformByRows(m: Mat4, v: Vec3)
    requires Affine(m)
    ensures Apply(m, Vec4(v.x, v.y, v.z, 1.0)).w == 1.0
    ensures Transform(m, v) == LinearPart(m, v).Plus(Origin(m))
  {
    AffineTransform(m, v);
    RowTransforms(m, v);
  }

  lemma RowTransforms(m: Mat4, v: Vec3)
    ensures LinearPart(m, v).x == m.c0.x * v.x + m.c1.x * v.y + m.c2.x * v.z
    ensures LinearPart(m, v).y == m.c0.y * v.x + m.c1.y * v.y + m.c2.y * v.z
    ensures LinearPart(m, v).z == m.c0.z * v.x + m.c1.z * v.y + m.c2.z * v.z
  {
  }

  /** The row form and the column form of the linear part are adjoint. */
  lemma Adjoint(r: Vec3, m: Mat4, v: Vec3, s: Vec3, t: Vec3)
    requires s == RowTimes(r, m)
    requires t.x == m.c0.x * v.x + m.c1.x * v.y + m.c2.x * v.z
    requires t.y == m.c0.y * v.x + m.c1.y * v.y + m.c2.y * v.z
    requires t.z == m.c0.z * v.x + m.c1.z * v.y + m.c2.z * v.z
    ensures s.x * v.x + s.y * v.y + s.z * v.z == r.x * t.x + r.y * t.y + r.z * t.z
  {
  }

  lemma DotPlus(r: Vec3, u: Vec3, t: Vec3)
    ensures Dot(r, u.Plus(t)) == Dot(r, u) + Dot(r, t)
  {
  }

  lemma ApplyPoint(m: Mat4, v: Vec3)
    requires Affine(m)
    ensures var w := LinearPart(m, v).Plus(Origin(m)); Apply(m, Vec4(v.x, v.y, v.z, 1.0)) == Vec4(w.x, w.y, w.z, 1.0)
  {
    RowTransforms(m, v);
  }

  lemma OriginOfProduct(a: Mat4, b: Mat4)
    requires Affine(a) && Affine(b)
    ensures Origin(Mul(a, b)) == LinearPart(a, Origin(b)).Plus(Origin(a))
  {
    var o := Origin(b);
    assert b.c3 == Vec4(o.x, o.y, o.z, 1.0);
    ApplyPoint(a, o);
  }

  lemma RowOfTransform(r: Vec3, b: Mat4, v: Vec3)
    ensures Dot(r, LinearPart(b, v).Plus(Origin(b))) == Dot(RowTimes(r, b), v) + Dot(r, Origin(b))
  {
    DotPlus(r, LinearPart(b, v), Origin(b));
    RowTransforms(b, v);
    Adjoint(r, b, v, RowTimes(r, b), LinearPart(b, v));
  }

  lemma TransformOfProduct(a: Mat4, b: Mat4, v: Vec3)
    requires Affine(a) && Affine(b)
    ensures Affine(Mul(a, b))
    ensures Apply(b, Vec4(v.x, v.y, v.z, 1.0)).w == 1.0 && Apply(Mul(a, b), Vec4(v.x, v.y, v.z, 1.0)).w == 1.0
    ensures Apply(a, Vec4(Transform(b, v).x, Transform(b, v).y, Transform(b, v).z, 1.0)).w == 1.0
    ensures Transform(Mul(a, b), v) == Transform(a, Transform(b, v))
  {
    AffineProduct(a, b);
    TransformByRows(b, v);
    TransformByRows(Mul(a, b), v);
    TransformByRows(a, Transform(b, v));
    RowXOfProduct(a, b);
    RowYOfProduct(a, b);
    RowZOfProduct(a, b);
    OriginOfProduct(a, b);
    RowOfTransform(RowX(a), b, v);
    RowOfTransform(RowY(a), b, v);
    RowOfTransform(RowZ(a), b, v);
  }

  // ----- spheres -----

  lemma CrossOfCross(a1: real, a2: real, a3: real, b1: real, b2: real, b3: real, c1: real, c2: real, c3: real)
    requires a1 * b1 + a2 * b2 + a3 * b3 == 0.0 && a1 * c1 + a2 * c2 + a3 * c3 == 0.0
    ensures a2 * (b1 * c2 - c1 * b2) - (b3 * c1 - c3 * b1) * a3 == 0.0
  {
    assert a2 * (b1 * c2 - c1 * b2) - (b3 * c1 - c3 * b1) * a3
        == b1 * (a1 * c1 + a2 * c2 + a3 * c3) - c1 * (a1 * b1 + a2 * b2 + a3 * b3);
  }

  /** A vector orthogonal to b and c is parallel to their cross product. */
  lemma Parallel(a: Vec3, b: Vec3, c: Vec3)
    requires Dot(a, b) == 0.0 && Dot(a, c) == 0.0
    ensures Cross(a, Cross(b, c)) == Vec3(0.0, 0.0, 0.0)
  {
    CrossOfCross(a.x, a.y, a.z, b.x, b.y, b.z, c.x, c.y, c.z);
    CrossOfCross(a.y, a.z, a.x, b.y, b.z, b.x, c.y, c.z, c.x);
    CrossOfCross(a.z, a.x, a.y, b.z, b.x, b.y, c.z, c.x, c.y);
  }

  lemma CauchyBinet(a: Vec3, f: Vec3, e: Vec3)
    ensures (a.x * e.x + a.y * e.y + a.z * e.z) * (f.x * f.x + f.y * f.y + f.z * f.z)
         == (a.x * f.x + a.y * f.y + a.z * f.z) * (e.x * f.x + e.y * f.y + e.z * f.z)
          + (a.y * f.z - f.y * a.z) * (e.y * f.z - f.y * e.z) + (a.z * f.x - f.z * a.x) * (e.z * f.x - f.z * e.x)
          + (a.x * f.y - f.x * a.y) * (e.x * f.y - f.x * e.y)
  {
  }

  /** For a vector parallel to f, its product with any other one splits. */
  lemma ParallelDots(a: Vec3, f: Vec3, e: Vec3)
    requires Cross(a, f) == Vec3(0.0, 0.0, 0.0)
    ensures Dot(a, e) * Length2(f) == Dot(a, f) * Dot(e, f)
  {
    CauchyBinet(a, f, e);
    var c := Cross(a, f);
    assert c.x == 0.0 && c.y == 0.0 && c.z == 0.0;
  }

  lemma CrossSquares(b1: real, b2: real, b3: real, c1: real, c2: real, c3: real, x: real, y: real, z: real)
    requires x == b2 * c3 - c2 * b3 && y == b3 * c1 - c3 * b1 && z == b1 * c2 - c1 * b2
    ensures x * x + y * y + z * z == (b1 * b1 + b2 * b2 + b3 * b3) * (c1 * c1 + c2 * c2 + c3 * c3)
      - (b1 * c1 + b2 * c2 + b3 * c3) * (b1 * c1 + b2 * c2 + b3 * c3)
  {
  }

  lemma CrossIs(b: Vec3, c: Vec3)
    ensures Cross(b, c).x == b.y * c.z - c.y * b.z && Cross(b, c).y == b.z * c.x - c.z * b.x
    ensures Cross(b, c).z == b.x * c.y - c.x * b.y
  {
  }

  lemma LengthOfCross(b: Vec3, c: Vec3)
    ensures Length2(Cross(b, c)) == Dot(b, b) * Dot(c, c) - Dot(b, c) * Dot(b, c)
  {
    hide Cross;
    var f := Cross(b, c);
    CrossIs(b, c);
    CrossSquares(b.x, b.y, b.z, c.x, c.y, c.z, f.x, f.y, f.z);
  }

  lemma CrossLength(b: Vec3, c: Vec3, k: real)
    requires Dot(b, b) == k && Dot(c, c) == k && Dot(b, c) == 0.0
    ensures Length2(Cross(b, c)) == k * k
  {
    hide Dot, Cross, Length2;
    LengthOfCross(b, c);
    DotsMultiply(Dot(b, c), Dot(b, b), Dot(c, c), k);
  }

  lemma DotsMultiply(x: real, y: real, z: real, k: real)
    requires x == 0.0 && y == k && z == k
    ensures x * x == 0.0 && y * z == k * k
  {
  }

  lemma ProductPositive(x: real, y: real, k: real)
    requires x > 0.0 && y > 0.0 && k == x * y
    ensures k > 0.0
  {
  }

  lemma Cancel(x: real, y: real)
    requires x != 0.0 && x * y == 0.0
    ensures y == 0.0
  {
    var inv := 1.0 / x;
    assert (x * y) * inv == (x * inv) * y;
  }

  lemma ZeroSquare(x: real)
    requires x * x <= 0.0
    ensures x == 0.0
  {
    SquareNonNegative(x);
    if x != 0.0 { Cancel(x, x); }
  }

  lemma ZeroFactor(aa: real, af: real, ae: real, ef: real, ee: real, ff: real)
    requires aa > 0.0 && ff > 0.0 && ae == 0.0
    requires aa * ff == af * af && ae * ff == af * ef && ee * ff == ef * ef
    ensures ee == 0.0
  {
    ProductPositive(aa, ff, aa * ff);
    Cancel(af, ef);
    Cancel(ff, ee);
  }

  /** No vector but zero is orthogonal to all three vectors of an orthogonal triple. */
  lemma OrthogonalToAll(a: Vec3, b: Vec3, c: Vec3, k: real, e: Vec3)
    requires OrthogonalTriple(a, b, c, k) && k > 0.0
    requires Dot(a, e) == 0.0 && Dot(e, b) == 0.0 && Dot(e, c) == 0.0
    ensures Dot(e, e) == 0.0
  {
    hide Dot, Cross, Length2;
    var f := Cross(b, c);
    CrossLength(b, c, k);
    ProductPositive(k, k, Length2(f));
    Parallel(a, b, c);
    Parallel(e, b, c);
    ParallelDots(a, f, a);
    ParallelDots(a, f, e);
    ParallelDots(e, f, e);
    ZeroFactor(Dot(a, a), Dot(a, f), Dot(a, e), Dot(e, f), Dot(e, e), Length2(f));
  }

  lemma DotWithDifference(r: Vec3, w: Vec3, d: Vec3, k: real)
    ensures Dot(r, Difference(w, d.Times(k))) == Dot(r, w) - k * Dot(r, d)
    ensures Dot(Difference(w, d.Times(k)), r) == Dot(r, w) - k * Dot(r, d)
  {
  }

  lemma ZeroVector(e: Vec3)
    requires Dot(e, e) == 0.0
    ensures e == Vec3(0.0, 0.0, 0.0)
  {
    SquareNonNegative(e.x);
    SquareNonNegative(e.y);
    SquareNonNegative(e.z);
    ZeroSquare(e.x);
    ZeroSquare(e.y);
    ZeroSquare(e.z);
  }

  lemma RowsOfBasis(m: Mat4, u: Vec3)
    ensures RowTimes(Vec3(1.0, 0.0, 0.0), m) == RowX(m) && Dot(Vec3(1.0, 0.0, 0.0), u) == u.x
    ensures RowTimes(Vec3(0.0, 1.0, 0.0), m) == RowY(m) && Dot(Vec3(0.0, 1.0, 0.0), u) == u.y
    ensures RowTimes(Vec3(0.0, 0.0, 1.0), m) == RowZ(m) && Dot(Vec3(0.0, 0.0, 1.0), u) == u.z
  {
  }

  /** The columns of a similarity are orthogonal as its rows are: taking a vector forth by the columns and back
      by the rows scales it by s squared. */
  lemma ForthAndBack(m: Mat4, s: real, d: Vec3)
    requires Similarity(m, s)
    ensures RowTimes(LinearPart(m, d), m) == d.Times(s * s)
  {
    hide Dot, RowTimes, RowX, RowY, RowZ;
    var k, u := s * s, LinearPart(m, d);
    var w := RowTimes(u, m);
    var e := Difference(w, d.Times(k));
    BackForth(m, s, k, u);
    DotWithDifference(RowX(m), w, d, k);
    DotWithDifference(RowY(m), w, d, k);
    DotWithDifference(RowZ(m), w, d, k);
    ProductPositive(s, s, k);
    OrthogonalToAll(RowX(m), RowY(m), RowZ(m), k, e);
    ZeroVector(e);
  }

  lemma BackForth(m: Mat4, s: real, k: real, u: Vec3)
    requires Similarity(m, s) && k == s * s
    ensures var w := RowTimes(u, m);
      Dot(RowX(m), w) == k * u.x && Dot(RowY(m), w) == k * u.y && Dot(RowZ(m), w) == k * u.z
  {
    hide Dot, RowTimes, Similarity, RowX, RowY, RowZ;
    RowsOfBasis(m, u);
    RowsScaleDots(Vec3(1.0, 0.0, 0.0), u, m, s);
    RowsScaleDots(Vec3(0.0, 1.0, 0.0), u, m, s);
    RowsScaleDots(Vec3(0.0, 0.0, 1.0), u, m, s);
  }

  lemma TimesDot(d: Vec3, k: real)
    ensures Dot(d.Times(k), d) == k * Length2(d)
  {
  }

  /** A similarity scales lengths by s. */
  lemma LengthsScale(m: Mat4, s: real, d: Vec3)
    requires Similarity(m, s)
    ensures Length2(LinearPart(m, d)) == s * s * Length2(d)
  {
    var u := LinearPart(m, d);
    ForthAndBack(m, s, d);
    RowTransforms(m, d);
    Adjoint(u, m, d, RowTimes(u, m), u);
    TimesDot(d, s * s);
  }

  lemma DotDifference(r: Vec3, v: Vec3, c: Vec3)
    ensures Dot(r, v) - Dot(r, c) == Dot(r, Difference(v, c))
  {
  }

  lemma DifferencesMove(m: Mat4, v: Vec3, c: Vec3)
    requires Affine(m)
    ensures Apply(m, Vec4(v.x, v.y, v.z, 1.0)).w == Apply(m, Vec4(c.x, c.y, c.z, 1.0)).w == 1.0
    ensures Difference(Transform(m, v), Transform(m, c)) == LinearPart(m, Difference(v, c))
  {
    hide Dot, Transform, Affine;
    TransformByRows(m, v);
    TransformByRows(m, c);
    DotDifference(RowX(m), v, c);
    DotDifference(RowY(m), v, c);
    DotDifference(RowZ(m), v, c);
  }

  lemma Ordered(k: real, a: real, b: real)
    requires k > 0.0
    ensures k * a <= k * b <==> a <= b
  {
    if a > b { ProductPositive(k, a - b, k * (a - b)); }
  }

  lemma ScaledSquare(s: real, l: real, r: real, l': real, r': real)
    requires s > 0.0 && l' == s * s * l && r' == s * r
    ensures l' <= r' * r' <==> l <= r * r
    ensures r' >= 0.0 <==> r >= 0.0
  {
    ProductPositive(s, s, s * s);
    SquareOfProduct(s, r, r');
    Ordered(s * s, l, r * r);
    Ordered(s, 0.0, r);
  }

  lemma SquareOfProduct(s: real, r: real, r': real)
    requires r' == s * r
    ensures r' * r' == s * s * (r * r)
  {
  }

  /** The image of a sphere holds exactly the images of its points. */
  lemma SphereImageIff(m: Mat4, s: real, b: Sphere, v: Vec3)
    requires Similarity(m, s)
    ensures Apply(m, Vec4(v.x, v.y, v.z, 1.0)).w == 1.0
    ensures InSphere(b, v) <==> InSphere(SphereImage(m, s, b), Transform(m, v))
  {
    hide Transform, Length2, Difference, LinearPart;
    var d, image := Difference(v, b.center), SphereImage(m, s, b);
    DifferencesMove(m, v, b.center);
    LengthsScale(m, s, d);
    ScaledSquare(s, Length2(d), b.radius, Length2(Difference(Transform(m, v), image.center)), image.radius);
  }

  // ----- the transforms of the scene graph -----

  lemma TranslationIsSimilarity(v: Vec3)
    ensures Similarity(Translate(v), 1.0)
  {
  }

  lemma TranslationMoves(v: Vec3, p: Vec3)
    ensures Transform(Translate(v), p) == p.Plus(v)
  {
    TranslationApplied(v, p);
    AffineTransform(Translate(v), p);
  }

  lemma TranslationApplied(v: Vec3, p: Vec3)
    ensures Apply(Translate(v), Vec4(p.x, p.y, p.z, 1.0)) == Vec4(p.x + v.x, p.y + v.y, p.z + v.z, 1.0)
  {
  }

  lemma ScaleIsSimilarity(s: real)
    requires s > 0.0
    ensures Similarity(Scale(s), s)
  {
  }

  lemma ScaleStretches(s: real, p: Vec3)
    ensures Transform(Scale(s), p) == p.Times(s)
  {
    ScaleApplied(s, p);
    AffineTransform(Scale(s), p);
  }

  lemma ScaleApplied(s: real, p: Vec3)
    ensures Apply(Scale(s), Vec4(p.x, p.y, p.z, 1.0)) == Vec4(p.x * s, p.y * s, p.z * s, 1.0)
  {
  }

  lemma RotationIsSimilarity(q: Quat)
    requires Unit(q)
    ensures Similarity(Rotate(q), 1.0)
  {
    Orthogonal(q);
    var m := Rotate(q);
    GramMatrix(m);
  }

  lemma GramMatrix(m: Mat4)
    requires Affine(m) && m.c3 == Vec4(0.0, 0.0, 0.0, 1.0) && Mul(m, Transpose(m)) == IDENTITY
    ensures OrthogonalTriple(RowX(m), RowY(m), RowZ(m), 1.0)
  {
    var p := Mul(m, Transpose(m));
    assert p.c0 == Vec4(1.0, 0.0, 0.0, 0.0) && p.c1 == Vec4(0.0, 1.0, 0.0, 0.0) && p.c2 == Vec4(0.0, 0.0, 1.0, 0.0);
    RowDots(m);
  }

  /** One transform of a nested stack, with its scale. */
  datatype Frame = Frame(m: Mat4, s: real) {
    ghost predicate Valid() { Similarity(m, s) }

    function Times(f: Frame): Frame { Frame(Mul(m, f.m), s * f.s) }

    function Image(b: Sphere): Sphere
      requires Affine(m)
    {
      SphereImage(m, s, b)
    }
  }

  const UNIT_FRAME := Frame(IDENTITY, 1.0)

  /** `modelviewMatrixStack.top()`: the product of the matrices, outermost first. */
  function Product(frames: seq<Frame>): Frame {
    if frames == [] then UNIT_FRAME else frames[0].Times(Product(frames[1..]))
  }

  lemma UnitFrame(b: Sphere)
    ensures UNIT_FRAME.Valid() && UNIT_FRAME.Image(b) == b
  {
    IdentityIsSimilarity();
    TransformByRows(IDENTITY, b.center);
    IdentityMoves(b.center);
  }

  lemma IdentityIsSimilarity()
    ensures Similarity(IDENTITY, 1.0)
  {
  }

  lemma IdentityMoves(c: Vec3)
    ensures LinearPart(IDENTITY, c).Plus(Origin(IDENTITY)) == c
  {
  }

  lemma FrameProduct(f: Frame, g: Frame)
    requires f.Valid() && g.Valid()
    ensures f.Times(g).Valid()
  {
    SimilarityProduct(f.m, f.s, g.m, g.s);
  }

  lemma ImageOfProduct(f: Frame, g: Frame, b: Sphere)
    requires f.Valid() && g.Valid()
    ensures f.Times(g).Valid() && f.Times(g).Image(b) == f.Image(g.Image(b))
  {
    FrameProduct(f, g);
    TransformOfProduct(f.m, g.m, b.center);
  }

  lemma {:induction false} ProductIsValid(frames: seq<Frame>)
    requires forall f | f in frames :: f.Valid()
    ensures Product(frames).Valid()
  {
    if frames == [] {
      UnitFrame(Sphere(Vec3(0.0, 0.0, 0.0), 0.0));
    } else {
      ProductIsValid(frames[1..]);
      FrameProduct(frames[0], Product(frames[1..]));
    }
  }

  /** `b` taken outwards through every frame, innermost first. */
  function ToWorld(frames: seq<Frame>, b: Sphere): Sphere
    requires forall f | f in frames :: f.Valid()
  {
    if frames == [] then b else assert frames[0].Valid(); frames[0].Image(ToWorld(frames[1..], b))
  }

  lemma {:induction false} ProductTakesToWorld(frames: seq<Frame>, b: Sphere)
    requires forall f | f in frames :: f.Valid()
    ensures Product(frames).Valid() && Product(frames).Image(b) == ToWorld(frames, b)
  {
    ProductIsValid(frames);
    if frames == [] {
      UnitFrame(b);
    } else {
      ProductTakesToWorld(frames[1..], b);
      ImageOfProduct(frames[0], Product(frames[1..]), b);
    }
  }

  /** Below any stack of rotations, uniform scales and translations, culling with the planes times the
      product of the matrices agrees with culling in the world. */
  lemma NestedCullingCommutes(world: seq<Plane>, frames: seq<Frame>, local: seq<Plane>, lens: seq<real>, b: Sphere)
    requires forall f | f in frames :: f.Valid()
    requires forall i | 0 <= i < |world| :: Length2(world[i].n) == 1.0
    requires TransformedPlanes(world, Product(frames).m, local, lens)
    ensures Touches(local, b) <==> Touches(world, ToWorld(frames, b))
  {
    ProductTakesToWorld(frames, b);
    CullingCommutes(world, Product(frames).m, Product(frames).s, local, lens, b);
  }
}
