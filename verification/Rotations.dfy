/** The laws that make quaternions and matrices interchangeable descriptions of rotations. */
module Rotations {
  import opened Linear

  // ----- a matrix without projective part acts linearly -----

  ghost predicate Affine(m: Mat4) {
    m.c0.w == 0.0 && m.c1.w == 0.0 && m.c2.w == 0.0 && m.c3.w == 1.0
  }

  lemma AffineTransform(m: Mat4, v: Vec3)
    requires Affine(m)
    ensures Apply(m, Vec4(v.x, v.y, v.z, 1.0)).w == 1.0
    ensures Transform(m, v).x == m.c0.x * v.x + m.c1.x * v.y + m.c2.x * v.z + m.c3.x
    ensures Transform(m, v).y == m.c0.y * v.x + m.c1.y * v.y + m.c2.y * v.z + m.c3.y
    ensures Transform(m, v).z == m.c0.z * v.x + m.c1.z * v.y + m.c2.z * v.z + m.c3.z
  {
  }

  // ----- matrix and quaternion rotate alike -----

  // The coordinates of a rotated vector, multiplied out once.

  function XOf(q: Quat, v: Vec3): real {
    v.x + (q.y * v.z - v.y * q.z) * (2.0 * q.w)
      + (q.y * (q.x * v.y - v.x * q.y) - (q.z * v.x - v.z * q.x) * q.z) * 2.0
  }

  function YOf(q: Quat, v: Vec3): real {
    v.y + (q.z * v.x - v.z * q.x) * (2.0 * q.w)
      + (q.z * (q.y * v.z - v.y * q.z) - (q.x * v.y - v.x * q.y) * q.x) * 2.0
  }

  function ZOf(q: Quat, v: Vec3): real {
    v.z + (q.x * v.y - v.x * q.y) * (2.0 * q.w)
      + (q.x * (q.z * v.x - v.z * q.x) - (q.y * v.z - v.y * q.z) * q.y) * 2.0
  }

  lemma CrossX(a: Vec3, b: Vec3)
    ensures Cross(a, b).x == a.y * b.z - b.y * a.z
  {
  }

  lemma SumX(q: Quat, v: Vec3, uv: Vec3, uuv: Vec3)
    requires uv == Cross(Vec3(q.x, q.y, q.z), v) && uuv == Cross(Vec3(q.x, q.y, q.z), uv)
    ensures Rotated(q, v).x == v.x + uv.x * (2.0 * q.w) + uuv.x * 2.0
  {
    hide Cross;
  }

  lemma CrossY(a: Vec3, b: Vec3)
    ensures Cross(a, b).y == a.z * b.x - b.z * a.x
  {
  }

  lemma SumY(q: Quat, v: Vec3, uv: Vec3, uuv: Vec3)
    requires uv == Cross(Vec3(q.x, q.y, q.z), v) && uuv == Cross(Vec3(q.x, q.y, q.z), uv)
    ensures Rotated(q, v).y == v.y + uv.y * (2.0 * q.w) + uuv.y * 2.0
  {
    hide Cross;
  }

  lemma CrossZ(a: Vec3, b: Vec3)
    ensures Cross(a, b).z == a.x * b.y - b.x * a.y
  {
  }

  lemma SumZ(q: Quat, v: Vec3, uv: Vec3, uuv: Vec3)
    requires uv == Cross(Vec3(q.x, q.y, q.z), v) && uuv == Cross(Vec3(q.x, q.y, q.z), uv)
    ensures Rotated(q, v).z == v.z + uv.z * (2.0 * q.w) + uuv.z * 2.0
  {
    hide Cross;
  }

  lemma CoordinateX(vx: real, vy: real, vz: real, qx: real, qy: real, qz: real, qw: real,
                   ux: real, uy: real, uz: real, t: real)
    requires ux == qy * vz - vy * qz && uy == qz * vx - vz * qx && uz == qx * vy - vx * qy
    requires t == qy * uz - uy * qz
    ensures vx + ux * (2.0 * qw) + t * 2.0 == vx + (qy * vz - vy * qz) * (2.0 * qw)
      + (qy * (qx * vy - vx * qy) - (qz * vx - vz * qx) * qz) * 2.0
  {
  }

  lemma RotatedX(q: Quat, v: Vec3)
    ensures Rotated(q, v).x == XOf(q, v)
  {
    hide Rotated, Cross;
    var u := Vec3(q.x, q.y, q.z);
    var uv := Cross(u, v);
    var uuv := Cross(u, uv);
    CrossX(u, v);
    CrossY(u, v);
    CrossZ(u, v);
    CrossX(u, uv);
    SumX(q, v, uv, uuv);
    CoordinateX(v.x, v.y, v.z, q.x, q.y, q.z, q.w, uv.x, uv.y, uv.z, uuv.x);
  }

  lemma CoordinateY(vx: real, vy: real, vz: real, qx: real, qy: real, qz: real, qw: real,
                   ux: real, uy: real, uz: real, t: real)
    requires ux == qy * vz - vy * qz && uy == qz * vx - vz * qx && uz == qx * vy - vx * qy
    requires t == qz * ux - uz * qx
    ensures vy + uy * (2.0 * qw) + t * 2.0 == vy + (qz * vx - vz * qx) * (2.0 * qw)
      + (qz * (qy * vz - vy * qz) - (qx * vy - vx * qy) * qx) * 2.0
  {
  }

  lemma RotatedY(q: Quat, v: Vec3)
    ensures Rotated(q, v).y == YOf(q, v)
  {
    hide Rotated, Cross;
    var u := Vec3(q.x, q.y, q.z);
    var uv := Cross(u, v);
    var uuv := Cross(u, uv);
    CrossX(u, v);
    CrossY(u, v);
    CrossZ(u, v);
    CrossY(u, uv);
    SumY(q, v, uv, uuv);
    CoordinateY(v.x, v.y, v.z, q.x, q.y, q.z, q.w, uv.x, uv.y, uv.z, uuv.y);
  }

  lemma CoordinateZ(vx: real, vy: real, vz: real, qx: real, qy: real, qz: real, qw: real,
                   ux: real, uy: real, uz: real, t: real)
    requires ux == qy * vz - vy * qz && uy == qz * vx - vz * qx && uz == qx * vy - vx * qy
    requires t == qx * uy - ux * qy
    ensures vz + uz * (2.0 * qw) + t * 2.0 == vz + (qx * vy - vx * qy) * (2.0 * qw)
      + (qx * (qz * vx - vz * qx) - (qy * vz - vy * qz) * qy) * 2.0
  {
  }

  lemma RotatedZ(q: Quat, v: Vec3)
    ensures Rotated(q, v).z == ZOf(q, v)
  {
    hide Rotated, Cross;
    var u := Vec3(q.x, q.y, q.z);
    var uv := Cross(u, v);
    var uuv := Cross(u, uv);
    CrossX(u, v);
    CrossY(u, v);
    CrossZ(u, v);
    CrossZ(u, uv);
    SumZ(q, v, uv, uuv);
    CoordinateZ(v.x, v.y, v.z, q.x, q.y, q.z, q.w, uv.x, uv.y, uv.z, uuv.z);
  }

  lemma Entry0XOfRotate(q: Quat)
    ensures Rotate(q).c0.x == 1.0 - 2.0 * (q.y * q.y + q.z * q.z)
  {
  }

  lemma Entry1XOfRotate(q: Quat)
    ensures Rotate(q).c1.x == 2.0 * (q.x * q.y - q.w * q.z)
  {
  }

  lemma Entry2XOfRotate(q: Quat)
    ensures Rotate(q).c2.x == 2.0 * (q.x * q.z + q.w * q.y)
  {
  }

  lemma RowXOfRotate(q: Quat)
    ensures Rotate(q).c0.x == 1.0 - 2.0 * (q.y * q.y + q.z * q.z)
    ensures Rotate(q).c1.x == 2.0 * (q.x * q.y - q.w * q.z)
    ensures Rotate(q).c2.x == 2.0 * (q.x * q.z + q.w * q.y)
  {
    hide Rotate;
    Entry0XOfRotate(q);
    Entry1XOfRotate(q);
    Entry2XOfRotate(q);
  }

  lemma RowXTimes(vx: real, vy: real, vz: real, qx: real, qy: real, qz: real, qw: real, a: real, b: real, c: real)
    requires a == 1.0 - 2.0 * (qy * qy + qz * qz)
    requires b == 2.0 * (qx * qy - qw * qz)
    requires c == 2.0 * (qx * qz + qw * qy)
    ensures a * vx + b * vy + c * vz == vx + (qy * vz - vy * qz) * (2.0 * qw)
      + (qy * (qx * vy - vx * qy) - (qz * vx - vz * qx) * qz) * 2.0
  {
  }

  lemma RotateX(q: Quat, v: Vec3)
    ensures Rotate(q).c0.x * v.x + Rotate(q).c1.x * v.y + Rotate(q).c2.x * v.z == XOf(q, v)
  {
    hide Rotate;
    var m := Rotate(q);
    RowXOfRotate(q);
    RowXTimes(v.x, v.y, v.z, q.x, q.y, q.z, q.w, m.c0.x, m.c1.x, m.c2.x);
  }

  lemma Entry0YOfRotate(q: Quat)
    ensures Rotate(q).c0.y == 2.0 * (q.x * q.y + q.w * q.z)
  {
  }

  lemma Entry1YOfRotate(q: Quat)
    ensures Rotate(q).c1.y == 1.0 - 2.0 * (q.x * q.x + q.z * q.z)
  {
  }

  lemma Entry2YOfRotate(q: Quat)
    ensures Rotate(q).c2.y == 2.0 * (q.y * q.z - q.w * q.x)
  {
  }

  lemma RowYOfRotate(q: Quat)
    ensures Rotate(q).c0.y == 2.0 * (q.x * q.y + q.w * q.z)
    ensures Rotate(q).c1.y == 1.0 - 2.0 * (q.x * q.x + q.z * q.z)
    ensures Rotate(q).c2.y == 2.0 * (q.y * q.z - q.w * q.x)
  {
    hide Rotate;
    Entry0YOfRotate(q);
    Entry1YOfRotate(q);
    Entry2YOfRotate(q);
  }

  lemma RowYTimes(vx: real, vy: real, vz: real, qx: real, qy: real, qz: real, qw: real, a: real, b: real, c: real)
    requires a == 2.0 * (qx * qy + qw * qz)
    requires b == 1.0 - 2.0 * (qx * qx + qz * qz)
    requires c == 2.0 * (qy * qz - qw * qx)
    ensures a * vx + b * vy + c * vz == vy + (qz * vx - vz * qx) * (2.0 * qw)
      + (qz * (qy * vz - vy * qz) - (qx * vy - vx * qy) * qx) * 2.0
  {
  }

  lemma RotateY(q: Quat, v: Vec3)
    ensures Rotate(q).c0.y * v.x + Rotate(q).c1.y * v.y + Rotate(q).c2.y * v.z == YOf(q, v)
  {
    hide Rotate;
    var m := Rotate(q);
    RowYOfRotate(q);
    RowYTimes(v.x, v.y, v.z, q.x, q.y, q.z, q.w, m.c0.y, m.c1.y, m.c2.y);
  }

  lemma Entry0ZOfRotate(q: Quat)
    ensures Rotate(q).c0.z == 2.0 * (q.x * q.z - q.w * q.y)
  {
  }

  lemma Entry1ZOfRotate(q: Quat)
    ensures Rotate(q).c1.z == 2.0 * (q.y * q.z + q.w * q.x)
  {
  }

  lemma Entry2ZOfRotate(q: Quat)
    ensures Rotate(q).c2.z == 1.0 - 2.0 * (q.x * q.x + q.y * q.y)
  {
  }

  lemma RowZOfRotate(q: Quat)
    ensures Rotate(q).c0.z == 2.0 * (q.x * q.z - q.w * q.y)
    ensures Rotate(q).c1.z == 2.0 * (q.y * q.z + q.w * q.x)
    ensures Rotate(q).c2.z == 1.0 - 2.0 * (q.x * q.x + q.y * q.y)
  {
    hide Rotate;
    Entry0ZOfRotate(q);
    Entry1ZOfRotate(q);
    Entry2ZOfRotate(q);
  }

  lemma RowZTimes(vx: real, vy: real, vz: real, qx: real, qy: real, qz: real, qw: real, a: real, b: real, c: real)
    requires a == 2.0 * (qx * qz - qw * qy)
    requires b == 2.0 * (qy * qz + qw * qx)
    requires c == 1.0 - 2.0 * (qx * qx + qy * qy)
    ensures a * vx + b * vy + c * vz == vz + (qx * vy - vx * qy) * (2.0 * qw)
      + (qx * (qz * vx - vz * qx) - (qy * vz - vy * qz) * qy) * 2.0
  {
  }

  lemma RotateZ(q: Quat, v: Vec3)
    ensures Rotate(q).c0.z * v.x + Rotate(q).c1.z * v.y + Rotate(q).c2.z * v.z == ZOf(q, v)
  {
    hide Rotate;
    var m := Rotate(q);
    RowZOfRotate(q);
    RowZTimes(v.x, v.y, v.z, q.x, q.y, q.z, q.w, m.c0.z, m.c1.z, m.c2.z);
  }

  /** For every quaternion, unit or not. */
  lemma MatrixRotatesLikeQuat(q: Quat, v: Vec3)
    ensures Affine(Rotate(q)) && Apply(Rotate(q), Vec4(v.x, v.y, v.z, 1.0)).w == 1.0
    ensures Transform(Rotate(q), v) == Rotated(q, v)
  {
    hide Rotated, XOf, YOf, ZOf;
    RotatedX(q, v);
    RotatedY(q, v);
    RotatedZ(q, v);
    AffineTransform(Rotate(q), v);
    RotateX(q, v);
    RotateY(q, v);
    RotateZ(q, v);
  }

  // ----- quaternion algebra -----

  lemma NormOfProduct(a: Quat, b: Quat, p: Quat)
    requires p == QuatMul(a, b)
    ensures p.x * p.x + p.y * p.y + p.z * p.z + p.w * p.w
         == (a.x * a.x + a.y * a.y + a.z * a.z + a.w * a.w) * (b.x * b.x + b.y * b.y + b.z * b.z + b.w * b.w)
  {
  }

  lemma ProductOfNorms(a: Quat, b: Quat)
    ensures QuatDot(a, a) * QuatDot(b, b)
         == (a.x * a.x + a.y * a.y + a.z * a.z + a.w * a.w) * (b.x * b.x + b.y * b.y + b.z * b.z + b.w * b.w)
  {
  }

  /** Squared norms multiply, for all quaternions. */
  lemma NormsMultiply(a: Quat, b: Quat)
    ensures QuatDot(QuatMul(a, b), QuatMul(a, b)) == QuatDot(a, a) * QuatDot(b, b)
  {
    NormOfProduct(a, b, QuatMul(a, b));
    ProductOfNorms(a, b);
  }

  /** The product of three, multiplied out. */
  function Triple(a: Quat, b: Quat, c: Quat): Quat {
    Quat(c.w * (b.w * a.x + b.x * a.w + b.y * a.z - b.z * a.y) + c.x * (b.w * a.w - b.x * a.x - b.y * a.y - b.z * a.z)
         + c.y * (b.w * a.z + b.x * a.y - b.y * a.x + b.z * a.w) - c.z * (b.w * a.y - b.x * a.z + b.y * a.w + b.z * a.x),
         c.w * (b.w * a.y - b.x * a.z + b.y * a.w + b.z * a.x) - c.x * (b.w * a.z + b.x * a.y - b.y * a.x + b.z * a.w)
         + c.y * (b.w * a.w - b.x * a.x - b.y * a.y - b.z * a.z) + c.z * (b.w * a.x + b.x * a.w + b.y * a.z - b.z * a.y),
         c.w * (b.w * a.z + b.x * a.y - b.y * a.x + b.z * a.w) + c.x * (b.w * a.y - b.x * a.z + b.y * a.w + b.z * a.x)
         - c.y * (b.w * a.x + b.x * a.w + b.y * a.z - b.z * a.y) + c.z * (b.w * a.w - b.x * a.x - b.y * a.y - b.z * a.z),
         c.w * (b.w * a.w - b.x * a.x - b.y * a.y - b.z * a.z) - c.x * (b.w * a.x + b.x * a.w + b.y * a.z - b.z * a.y)
         - c.y * (b.w * a.y - b.x * a.z + b.y * a.w + b.z * a.x) - c.z * (b.w * a.z + b.x * a.y - b.y * a.x + b.z * a.w))
  }

  lemma QuatMulIs(l: Quat, r: Quat)
    ensures QuatMul(l, r).x == r.w * l.x + r.x * l.w + r.y * l.z - r.z * l.y
    ensures QuatMul(l, r).y == r.w * l.y - r.x * l.z + r.y * l.w + r.z * l.x
    ensures QuatMul(l, r).z == r.w * l.z + r.x * l.y - r.y * l.x + r.z * l.w
    ensures QuatMul(l, r).w == r.w * l.w - r.x * l.x - r.y * l.y - r.z * l.z
  {
  }

  /** (a b) c for coordinates; m is the inner product. */
  lemma LeftX(ax: real, ay: real, az: real, aw: real, px: real, py: real, pz: real, pw: real,
                rx: real, ry: real, rz: real, rw: real, mx: real, my: real, mz: real, mw: real)
    requires mx == pw * ax + px * aw + py * az - pz * ay
    requires my == pw * ay - px * az + py * aw + pz * ax
    requires mz == pw * az + px * ay - py * ax + pz * aw
    requires mw == pw * aw - px * ax - py * ay - pz * az
    ensures rw * mx + rx * mw + ry * mz - rz * my ==
      rw * (pw * ax + px * aw + py * az - pz * ay) + rx * (pw * aw - px * ax - py * ay - pz * az)
        + ry * (pw * az + px * ay - py * ax + pz * aw) - rz * (pw * ay - px * az + py * aw + pz * ax)
  {
  }

  lemma LeftY(ax: real, ay: real, az: real, aw: real, px: real, py: real, pz: real, pw: real,
                rx: real, ry: real, rz: real, rw: real, mx: real, my: real, mz: real, mw: real)
    requires mx == pw * ax + px * aw + py * az - pz * ay
    requires my == pw * ay - px * az + py * aw + pz * ax
    requires mz == pw * az + px * ay - py * ax + pz * aw
    requires mw == pw * aw - px * ax - py * ay - pz * az
    ensures rw * my - rx * mz + ry * mw + rz * mx ==
      rw * (pw * ay - px * az + py * aw + pz * ax) - rx * (pw * az + px * ay - py * ax + pz * aw)
        + ry * (pw * aw - px * ax - py * ay - pz * az) + rz * (pw * ax + px * aw + py * az - pz * ay)
  {
  }

  lemma LeftZ(ax: real, ay: real, az: real, aw: real, px: real, py: real, pz: real, pw: real,
                rx: real, ry: real, rz: real, rw: real, mx: real, my: real, mz: real, mw: real)
    requires mx == pw * ax + px * aw + py * az - pz * ay
    requires my == pw * ay - px * az + py * aw + pz * ax
    requires mz == pw * az + px * ay - py * ax + pz * aw
    requires mw == pw * aw - px * ax - py * ay - pz * az
    ensures rw * mz + rx * my - ry * mx + rz * mw ==
      rw * (pw * az + px * ay - py * ax + pz * aw) + rx * (pw * ay - px * az + py * aw + pz * ax)
        - ry * (pw * ax + px * aw + py * az - pz * ay) + rz * (pw * aw - px * ax - py * ay - pz * az)
  {
  }

  lemma LeftW(ax: real, ay: real, az: real, aw: real, px: real, py: real, pz: real, pw: real,
                rx: real, ry: real, rz: real, rw: real, mx: real, my: real, mz: real, mw: real)
    requires mx == pw * ax + px * aw + py * az - pz * ay
    requires my == pw * ay - px * az + py * aw + pz * ax
    requires mz == pw * az + px * ay - py * ax + pz * aw
    requires mw == pw * aw - px * ax - py * ay - pz * az
    ensures rw * mw - rx * mx - ry * my - rz * mz ==
      rw * (pw * aw - px * ax - py * ay - pz * az) - rx * (pw * ax + px * aw + py * az - pz * ay)
        - ry * (pw * ay - px * az + py * aw + pz * ax) - rz * (pw * az + px * ay - py * ax + pz * aw)
  {
  }

  lemma LeftTripleX(a: Quat, b: Quat, c: Quat)
    ensures QuatMul(QuatMul(a, b), c).x == Triple(a, b, c).x
  {
    hide QuatMul;
    var ab := QuatMul(a, b);
    QuatMulIs(a, b);
    QuatMulIs(ab, c);
    LeftX(a.x, a.y, a.z, a.w, b.x, b.y, b.z, b.w, c.x, c.y, c.z, c.w, ab.x, ab.y, ab.z, ab.w);
  }

  lemma LeftTripleY(a: Quat, b: Quat, c: Quat)
    ensures QuatMul(QuatMul(a, b), c).y == Triple(a, b, c).y
  {
    hide QuatMul;
    var ab := QuatMul(a, b);
    QuatMulIs(a, b);
    QuatMulIs(ab, c);
    LeftY(a.x, a.y, a.z, a.w, b.x, b.y, b.z, b.w, c.x, c.y, c.z, c.w, ab.x, ab.y, ab.z, ab.w);
  }

  lemma LeftTripleZ(a: Quat, b: Quat, c: Quat)
    ensures QuatMul(QuatMul(a, b), c).z == Triple(a, b, c).z
  {
    hide QuatMul;
    var ab := QuatMul(a, b);
    QuatMulIs(a, b);
    QuatMulIs(ab, c);
    LeftZ(a.x, a.y, a.z, a.w, b.x, b.y, b.z, b.w, c.x, c.y, c.z, c.w, ab.x, ab.y, ab.z, ab.w);
  }

  lemma LeftTripleW(a: Quat, b: Quat, c: Quat)
    ensures QuatMul(QuatMul(a, b), c).w == Triple(a, b, c).w
  {
    hide QuatMul;
    var ab := QuatMul(a, b);
    QuatMulIs(a, b);
    QuatMulIs(ab, c);
    LeftW(a.x, a.y, a.z, a.w, b.x, b.y, b.z, b.w, c.x, c.y, c.z, c.w, ab.x, ab.y, ab.z, ab.w);
  }

  /** a (b c) for coordinates; m is the inner product. */
  lemma RightX(ax: real, ay: real, az: real, aw: real, px: real, py: real, pz: real, pw: real,
                 rx: real, ry: real, rz: real, rw: real, mx: real, my: real, mz: real, mw: real)
    requires mx == rw * px + rx * pw + ry * pz - rz * py
    requires my == rw * py - rx * pz + ry * pw + rz * px
    requires mz == rw * pz + rx * py - ry * px + rz * pw
    requires mw == rw * pw - rx * px - ry * py - rz * pz
    ensures mw * ax + mx * aw + my * az - mz * ay ==
      rw * (pw * ax + px * aw + py * az - pz * ay) + rx * (pw * aw - px * ax - py * ay - pz * az)
        + ry * (pw * az + px * ay - py * ax + pz * aw) - rz * (pw * ay - px * az + py * aw + pz * ax)
  {
  }

  lemma RightY(ax: real, ay: real, az: real, aw: real, px: real, py: real, pz: real, pw: real,
                 rx: real, ry: real, rz: real, rw: real, mx: real, my: real, mz: real, mw: real)
    requires mx == rw * px + rx * pw + ry * pz - rz * py
    requires my == rw * py - rx * pz + ry * pw + rz * px
    requires mz == rw * pz + rx * py - ry * px + rz * pw
    requires mw == rw * pw - rx * px - ry * py - rz * pz
    ensures mw * ay - mx * az + my * aw + mz * ax ==
      rw * (pw * ay - px * az + py * aw + pz * ax) - rx * (pw * az + px * ay - py * ax + pz * aw)
        + ry * (pw * aw - px * ax - py * ay - pz * az) + rz * (pw * ax + px * aw + py * az - pz * ay)
  {
  }

  lemma RightZ(ax: real, ay: real, az: real, aw: real, px: real, py: real, pz: real, pw: real,
                 rx: real, ry: real, rz: real, rw: real, mx: real, my: real, mz: real, mw: real)
    requires mx == rw * px + rx * pw + ry * pz - rz * py
    requires my == rw * py - rx * pz + ry * pw + rz * px
    requires mz == rw * pz + rx * py - ry * px + rz * pw
    requires mw == rw * pw - rx * px - ry * py - rz * pz
    ensures mw * az + mx * ay - my * ax + mz * aw ==
      rw * (pw * az + px * ay - py * ax + pz * aw) + rx * (pw * ay - px * az + py * aw + pz * ax)
        - ry * (pw * ax + px * aw + py * az - pz * ay) + rz * (pw * aw - px * ax - py * ay - pz * az)
  {
  }

  lemma RightW(ax: real, ay: real, az: real, aw: real, px: real, py: real, pz: real, pw: real,
                 rx: real, ry: real, rz: real, rw: real, mx: real, my: real, mz: real, mw: real)
    requires mx == rw * px + rx * pw + ry * pz - rz * py
    requires my == rw * py - rx * pz + ry * pw + rz * px
    requires mz == rw * pz + rx * py - ry * px + rz * pw
    requires mw == rw * pw - rx * px - ry * py - rz * pz
    ensures mw * aw - mx * ax - my * ay - mz * az ==
      rw * (pw * aw - px * ax - py * ay - pz * az) - rx * (pw * ax + px * aw + py * az - pz * ay)
        - ry * (pw * ay - px * az + py * aw + pz * ax) - rz * (pw * az + px * ay - py * ax + pz * aw)
  {
  }

  lemma RightTripleX(a: Quat, b: Quat, c: Quat)
    ensures QuatMul(a, QuatMul(b, c)).x == Triple(a, b, c).x
  {
    hide QuatMul;
    var bc := QuatMul(b, c);
    QuatMulIs(b, c);
    QuatMulIs(a, bc);
    RightX(a.x, a.y, a.z, a.w, b.x, b.y, b.z, b.w, c.x, c.y, c.z, c.w, bc.x, bc.y, bc.z, bc.w);
  }

  lemma RightTripleY(a: Quat, b: Quat, c: Quat)
    ensures QuatMul(a, QuatMul(b, c)).y == Triple(a, b, c).y
  {
    hide QuatMul;
    var bc := QuatMul(b, c);
    QuatMulIs(b, c);
    QuatMulIs(a, bc);
    RightY(a.x, a.y, a.z, a.w, b.x, b.y, b.z, b.w, c.x, c.y, c.z, c.w, bc.x, bc.y, bc.z, bc.w);
  }

  lemma RightTripleZ(a: Quat, b: Quat, c: Quat)
    ensures QuatMul(a, QuatMul(b, c)).z == Triple(a, b, c).z
  {
    hide QuatMul;
    var bc := QuatMul(b, c);
    QuatMulIs(b, c);
    QuatMulIs(a, bc);
    RightZ(a.x, a.y, a.z, a.w, b.x, b.y, b.z, b.w, c.x, c.y, c.z, c.w, bc.x, bc.y, bc.z, bc.w);
  }

  lemma RightTripleW(a: Quat, b: Quat, c: Quat)
    ensures QuatMul(a, QuatMul(b, c)).w == Triple(a, b, c).w
  {
    hide QuatMul;
    var bc := QuatMul(b, c);
    QuatMulIs(b, c);
    QuatMulIs(a, bc);
    RightW(a.x, a.y, a.z, a.w, b.x, b.y, b.z, b.w, c.x, c.y, c.z, c.w, bc.x, bc.y, bc.z, bc.w);
  }

  lemma Associative(a: Quat, b: Quat, c: Quat)
    ensures QuatMul(QuatMul(a, b), c) == QuatMul(a, QuatMul(b, c))
  {
    hide QuatMul, Triple;
    LeftTripleX(a, b, c);
    LeftTripleY(a, b, c);
    LeftTripleZ(a, b, c);
    LeftTripleW(a, b, c);
    RightTripleX(a, b, c);
    RightTripleY(a, b, c);
    RightTripleZ(a, b, c);
    RightTripleW(a, b, c);
  }

  /** A product of conjugates, c and d, coordinate by coordinate. */
  lemma ConjugateCoordinates(ax: real, ay: real, az: real, aw: real, px: real, py: real, pz: real, pw: real,
                             cx: real, cy: real, cz: real, cw: real, dx: real, dy: real, dz: real, dw: real)
    requires cx == -ax && cy == -ay && cz == -az && cw == aw && dx == -px && dy == -py && dz == -pz && dw == pw
    ensures cw * dx + cx * dw + cy * dz - cz * dy == -(pw * ax + px * aw + py * az - pz * ay)
    ensures cw * dy - cx * dz + cy * dw + cz * dx == -(pw * ay - px * az + py * aw + pz * ax)
    ensures cw * dz + cx * dy - cy * dx + cz * dw == -(pw * az + px * ay - py * ax + pz * aw)
    ensures cw * dw - cx * dx - cy * dy - cz * dz == pw * aw - px * ax - py * ay - pz * az
  {
  }

  lemma ConjugateOfProduct(a: Quat, b: Quat)
    ensures Conjugate(QuatMul(a, b)) == QuatMul(Conjugate(b), Conjugate(a))
  {
    hide QuatMul;
    var c, d := Conjugate(a), Conjugate(b);
    QuatMulIs(a, b);
    QuatMulIs(d, c);
    ConjugateCoordinates(a.x, a.y, a.z, a.w, b.x, b.y, b.z, b.w, c.x, c.y, c.z, c.w, d.x, d.y, d.z, d.w);
  }

  lemma ConjugateCancels(q: Quat)
    ensures QuatMul(Conjugate(q), q) == Quat(0.0, 0.0, 0.0, QuatDot(q, q))
    ensures QuatMul(q, Conjugate(q)) == Quat(0.0, 0.0, 0.0, QuatDot(q, q))
  {
  }

  // ----- turning a vector between a quaternion and its conjugate -----

  function Pure(v: Vec3): Quat { Quat(v.x, v.y, v.z, 0.0) }

  /** The rotation matrix times the squared norm of `q`: every entry is a quadratic form. */
  function Homogeneous(q: Quat): Mat4 {
    Mat4(Vec4(q.w * q.w + q.x * q.x - q.y * q.y - q.z * q.z, 2.0 * (q.x * q.y + q.w * q.z), 2.0 * (q.x * q.z - q.w * q.y), 0.0),
         Vec4(2.0 * (q.x * q.y - q.w * q.z), q.w * q.w - q.x * q.x + q.y * q.y - q.z * q.z, 2.0 * (q.y * q.z + q.w * q.x), 0.0),
         Vec4(2.0 * (q.x * q.z + q.w * q.y), 2.0 * (q.y * q.z - q.w * q.x), q.w * q.w - q.x * q.x - q.y * q.y + q.z * q.z, 0.0),
         Vec4(0.0, 0.0, 0.0, 1.0))
  }

  lemma UnitHomogeneous(q: Quat)
    requires Unit(q)
    ensures Rotate(q) == Homogeneous(q)
  {
  }

  function TurnedX(q: Quat, v: Vec3): real {
    (q.w * q.w + q.x * q.x - q.y * q.y - q.z * q.z) * v.x + 2.0 * (q.x * q.y - q.w * q.z) * v.y + 2.0 * (q.x * q.z + q.w * q.y) * v.z
  }

  function TurnedY(q: Quat, v: Vec3): real {
    2.0 * (q.x * q.y + q.w * q.z) * v.x + (q.w * q.w - q.x * q.x + q.y * q.y - q.z * q.z) * v.y + 2.0 * (q.y * q.z - q.w * q.x) * v.z
  }

  function TurnedZ(q: Quat, v: Vec3): real {
    2.0 * (q.x * q.z - q.w * q.y) * v.x + 2.0 * (q.y * q.z + q.w * q.x) * v.y + (q.w * q.w - q.x * q.x - q.y * q.y + q.z * q.z) * v.z
  }

  /** `Homogeneous(q)` applied to `v`. */
  function Turned(q: Quat, v: Vec3): Vec3 { Vec3(TurnedX(q, v), TurnedY(q, v), TurnedZ(q, v)) }

  lemma RowXTurns(q: Quat, v: Vec3, m: Mat4)
    requires m == Homogeneous(q)
    ensures m.c0.x * v.x + m.c1.x * v.y + m.c2.x * v.z == TurnedX(q, v)
  {
  }

  lemma RowYTurns(q: Quat, v: Vec3, m: Mat4)
    requires m == Homogeneous(q)
    ensures m.c0.y * v.x + m.c1.y * v.y + m.c2.y * v.z == TurnedY(q, v)
  {
  }

  lemma RowZTurns(q: Quat, v: Vec3, m: Mat4)
    requires m == Homogeneous(q)
    ensures m.c0.z * v.x + m.c1.z * v.y + m.c2.z * v.z == TurnedZ(q, v)
  {
  }

  lemma TurnedByMatrix(q: Quat, v: Vec3, m: Mat4)
    requires m == Homogeneous(q)
    ensures m.c0.x * v.x + m.c1.x * v.y + m.c2.x * v.z == Turned(q, v).x
    ensures m.c0.y * v.x + m.c1.y * v.y + m.c2.y * v.z == Turned(q, v).y
    ensures m.c0.z * v.x + m.c1.z * v.y + m.c2.z * v.z == Turned(q, v).z
  {
    hide TurnedX, TurnedY, TurnedZ, Homogeneous;
    RowXTurns(q, v, m);
    RowYTurns(q, v, m);
    RowZTurns(q, v, m);
  }

  lemma UnitTurned(q: Quat, v: Vec3)
    requires Unit(q)
    ensures Rotated(q, v) == Turned(q, v)
  {
    hide Rotated, XOf, YOf, ZOf, Turned;
    RotatedX(q, v);
    RotatedY(q, v);
    RotatedZ(q, v);
    UnitHomogeneous(q);
    TurnedByMatrix(q, v, Rotate(q));
    RotateX(q, v);
    RotateY(q, v);
    RotateZ(q, v);
  }

  /** The half-way product of `Sandwich`. */
  function Half(q: Quat, v: Vec3): Quat {
    Quat(v.x * q.w - v.y * q.z + v.z * q.y, v.y * q.w - v.z * q.x + v.x * q.z, v.z * q.w - v.x * q.y + v.y * q.x,
         v.x * q.x + v.y * q.y + v.z * q.z)
  }

  lemma HalfX(qx: real, qy: real, qz: real, qw: real, cx: real, cy: real, cz: real, cw: real,
              x: real, y: real, z: real, w: real)
    requires cx == -qx && cy == -qy && cz == -qz && cw == qw && w == 0.0
    ensures w * cx + x * cw + y * cz - z * cy == x * qw - y * qz + z * qy
  {
  }

  lemma HalfTurnX(q: Quat, v: Vec3)
    ensures QuatMul(Conjugate(q), Pure(v)).x == Half(q, v).x
  {
    hide QuatMul;
    var c, p := Conjugate(q), Pure(v);
    QuatMulIs(c, p);
    HalfX(q.x, q.y, q.z, q.w, c.x, c.y, c.z, c.w, p.x, p.y, p.z, p.w);
  }

  lemma HalfY(qx: real, qy: real, qz: real, qw: real, cx: real, cy: real, cz: real, cw: real,
              x: real, y: real, z: real, w: real)
    requires cx == -qx && cy == -qy && cz == -qz && cw == qw && w == 0.0
    ensures w * cy - x * cz + y * cw + z * cx == y * qw - z * qx + x * qz
  {
  }

  lemma HalfTurnY(q: Quat, v: Vec3)
    ensures QuatMul(Conjugate(q), Pure(v)).y == Half(q, v).y
  {
    hide QuatMul;
    var c, p := Conjugate(q), Pure(v);
    QuatMulIs(c, p);
    HalfY(q.x, q.y, q.z, q.w, c.x, c.y, c.z, c.w, p.x, p.y, p.z, p.w);
  }

  lemma HalfZ(qx: real, qy: real, qz: real, qw: real, cx: real, cy: real, cz: real, cw: real,
              x: real, y: real, z: real, w: real)
    requires cx == -qx && cy == -qy && cz == -qz && cw == qw && w == 0.0
    ensures w * cz + x * cy - y * cx + z * cw == z * qw - x * qy + y * qx
  {
  }

  lemma HalfTurnZ(q: Quat, v: Vec3)
    ensures QuatMul(Conjugate(q), Pure(v)).z == Half(q, v).z
  {
    hide QuatMul;
    var c, p := Conjugate(q), Pure(v);
    QuatMulIs(c, p);
    HalfZ(q.x, q.y, q.z, q.w, c.x, c.y, c.z, c.w, p.x, p.y, p.z, p.w);
  }

  lemma HalfW(qx: real, qy: real, qz: real, qw: real, cx: real, cy: real, cz: real, cw: real,
              x: real, y: real, z: real, w: real)
    requires cx == -qx && cy == -qy && cz == -qz && cw == qw && w == 0.0
    ensures w * cw - x * cx - y * cy - z * cz == x * qx + y * qy + z * qz
  {
  }

  lemma HalfTurnW(q: Quat, v: Vec3)
    ensures QuatMul(Conjugate(q), Pure(v)).w == Half(q, v).w
  {
    hide QuatMul;
    var c, p := Conjugate(q), Pure(v);
    QuatMulIs(c, p);
    HalfW(q.x, q.y, q.z, q.w, c.x, c.y, c.z, c.w, p.x, p.y, p.z, p.w);
  }

  lemma HalfTurn(q: Quat, v: Vec3)
    ensures QuatMul(Conjugate(q), Pure(v)) == Half(q, v)
  {
    hide QuatMul, Half;
    HalfTurnX(q, v);
    HalfTurnY(q, v);
    HalfTurnZ(q, v);
    HalfTurnW(q, v);
  }

  lemma TurnX(qx: real, qy: real, qz: real, qw: real, vx: real, vy: real, vz: real, x: real, y: real, z: real, w: real)
    requires x == vx * qw - vy * qz + vz * qy && y == vy * qw - vz * qx + vx * qz
    requires z == vz * qw - vx * qy + vy * qx && w == vx * qx + vy * qy + vz * qz
    ensures qw * x + qx * w + qy * z - qz * y ==
      (qw * qw + qx * qx - qy * qy - qz * qz) * vx + 2.0 * (qx * qy - qw * qz) * vy + 2.0 * (qx * qz + qw * qy) * vz
  {
  }

  lemma SandwichX(q: Quat, v: Vec3)
    ensures QuatMul(Half(q, v), q).x == Pure(Turned(q, v)).x
  {
    hide QuatMul, TurnedY, TurnedZ;
    var t := Half(q, v);
    QuatMulIs(t, q);
    TurnX(q.x, q.y, q.z, q.w, v.x, v.y, v.z, t.x, t.y, t.z, t.w);
  }

  lemma TurnY(qx: real, qy: real, qz: real, qw: real, vx: real, vy: real, vz: real, x: real, y: real, z: real, w: real)
    requires x == vx * qw - vy * qz + vz * qy && y == vy * qw - vz * qx + vx * qz
    requires z == vz * qw - vx * qy + vy * qx && w == vx * qx + vy * qy + vz * qz
    ensures qw * y - qx * z + qy * w + qz * x ==
      2.0 * (qx * qy + qw * qz) * vx + (qw * qw - qx * qx + qy * qy - qz * qz) * vy + 2.0 * (qy * qz - qw * qx) * vz
  {
  }

  lemma SandwichY(q: Quat, v: Vec3)
    ensures QuatMul(Half(q, v), q).y == Pure(Turned(q, v)).y
  {
    hide QuatMul, TurnedX, TurnedZ;
    var t := Half(q, v);
    QuatMulIs(t, q);
    TurnY(q.x, q.y, q.z, q.w, v.x, v.y, v.z, t.x, t.y, t.z, t.w);
  }

  lemma TurnZ(qx: real, qy: real, qz: real, qw: real, vx: real, vy: real, vz: real, x: real, y: real, z: real, w: real)
    requires x == vx * qw - vy * qz + vz * qy && y == vy * qw - vz * qx + vx * qz
    requires z == vz * qw - vx * qy + vy * qx && w == vx * qx + vy * qy + vz * qz
    ensures qw * z + qx * y - qy * x + qz * w ==
      2.0 * (qx * qz - qw * qy) * vx + 2.0 * (qy * qz + qw * qx) * vy + (qw * qw - qx * qx - qy * qy + qz * qz) * vz
  {
  }

  lemma SandwichZ(q: Quat, v: Vec3)
    ensures QuatMul(Half(q, v), q).z == Pure(Turned(q, v)).z
  {
    hide QuatMul, TurnedX, TurnedY;
    var t := Half(q, v);
    QuatMulIs(t, q);
    TurnZ(q.x, q.y, q.z, q.w, v.x, v.y, v.z, t.x, t.y, t.z, t.w);
  }

  lemma TurnW(qx: real, qy: real, qz: real, qw: real, vx: real, vy: real, vz: real, x: real, y: real, z: real, w: real)
    requires x == vx * qw - vy * qz + vz * qy && y == vy * qw - vz * qx + vx * qz
    requires z == vz * qw - vx * qy + vy * qx && w == vx * qx + vy * qy + vz * qz
    ensures qw * w - qx * x - qy * y - qz * z ==
      0.0
  {
  }

  lemma SandwichW(q: Quat, v: Vec3)
    ensures QuatMul(Half(q, v), q).w == Pure(Turned(q, v)).w
  {
    hide QuatMul, Turned;
    var t := Half(q, v);
    QuatMulIs(t, q);
    TurnW(q.x, q.y, q.z, q.w, v.x, v.y, v.z, t.x, t.y, t.z, t.w);
  }

  lemma Sandwich(q: Quat, v: Vec3)
    ensures QuatMul(QuatMul(Conjugate(q), Pure(v)), q) == Pure(Turned(q, v))
  {
    hide QuatMul, Turned, Half;
    HalfTurn(q, v);
    SandwichX(q, v);
    SandwichY(q, v);
    SandwichZ(q, v);
    SandwichW(q, v);
  }

  lemma PureNorm(v: Vec3)
    ensures QuatDot(Pure(v), Pure(v)) == Length2(v)
  {
  }

  lemma ConjugateNorm(q: Quat)
    ensures QuatDot(Conjugate(q), Conjugate(q)) == QuatDot(q, q)
  {
  }

  /** Turning scales lengths by the norm of `q`. */
  lemma TurnedLength(q: Quat, v: Vec3, n: real)
    requires n == QuatDot(q, q)
    ensures Length2(Turned(q, v)) == n * Length2(v) * n
  {
    var c, p := Conjugate(q), Pure(v);
    Sandwich(q, v);
    NormsMultiply(QuatMul(c, p), q);
    NormsMultiply(c, p);
    PureNorm(v);
    PureNorm(Turned(q, v));
    ConjugateNorm(q);
  }

  /** Rotation by a unit quaternion keeps lengths. */
  lemma RotationKeepsLength(q: Quat, v: Vec3)
    requires Unit(q)
    ensures Length2(Rotated(q, v)) == Length2(v)
  {
    UnitTurned(q, v);
    TurnedLength(q, v, 1.0);
  }

  /** Turning by a product: first by `a`, then by `b`. */
  lemma TurnedByProduct(a: Quat, b: Quat, v: Vec3)
    ensures Turned(QuatMul(a, b), v) == Turned(b, Turned(a, v))
  {
    var ab, ca, cb, p := QuatMul(a, b), Conjugate(a), Conjugate(b), Pure(v);
    calc {
      Pure(Turned(ab, v));
      { Sandwich(ab, v); ConjugateOfProduct(a, b); }
      QuatMul(QuatMul(QuatMul(cb, ca), p), ab);
      { Associative(cb, ca, p); }
      QuatMul(QuatMul(cb, QuatMul(ca, p)), ab);
      { Associative(QuatMul(cb, QuatMul(ca, p)), a, b); }
      QuatMul(QuatMul(QuatMul(cb, QuatMul(ca, p)), a), b);
      { Associative(cb, QuatMul(ca, p), a); }
      QuatMul(QuatMul(cb, QuatMul(QuatMul(ca, p), a)), b);
      { Sandwich(a, v); }
      QuatMul(QuatMul(cb, Pure(Turned(a, v))), b);
      { Sandwich(b, Turned(a, v)); }
      Pure(Turned(b, Turned(a, v)));
    }
  }

  /** In terms of `q * v`: a unit quaternion rotates a vector by the product with its conjugate. */
  lemma RotatedSandwich(q: Quat, v: Vec3)
    requires Unit(q)
    ensures QuatMul(QuatMul(Conjugate(q), Pure(v)), q) == Pure(Rotated(q, v))
  {
    hide QuatMul, Rotated, Turned;
    Sandwich(q, v);
    UnitTurned(q, v);
  }

  /** Rotating by a product is rotating by its left factor first. */
  lemma RotatedByProduct(a: Quat, b: Quat, v: Vec3)
    requires Unit(a) && Unit(b)
    ensures Rotated(QuatMul(a, b), v) == Rotated(b, Rotated(a, v))
  {
    hide QuatMul, Rotated, Turned;
    NormsMultiply(a, b);
    UnitTurned(a, v);
    UnitTurned(b, Rotated(a, v));
    UnitTurned(QuatMul(a, b), v);
    TurnedByProduct(a, b, v);
  }

  // ----- the matrix of a product -----

  function Axis(m: Mat4, j: nat): Vec3 {
    if j == 0 then Vec3(m.c0.x, m.c0.y, m.c0.z) else if j == 1 then Vec3(m.c1.x, m.c1.y, m.c1.z) else Vec3(m.c2.x, m.c2.y, m.c2.z)
  }

  function Direction(v: Vec3): Vec4 { Vec4(v.x, v.y, v.z, 0.0) }

  function Basis(j: nat): Vec3 {
    if j == 0 then Vec3(1.0, 0.0, 0.0) else if j == 1 then Vec3(0.0, 1.0, 0.0) else Vec3(0.0, 0.0, 1.0)
  }

  lemma AxisIsTurnedBasis(q: Quat, j: nat)
    requires j < 3
    ensures Axis(Homogeneous(q), j) == Turned(q, Basis(j))
  {
    var m := Homogeneous(q);
    TurnedByMatrix(q, Basis(j), m);
    PickColumn(m, j);
  }

  lemma PickColumn(m: Mat4, j: nat)
    requires j < 3
    ensures var v, a := Basis(j), Axis(m, j);
      && m.c0.x * v.x + m.c1.x * v.y + m.c2.x * v.z == a.x
      && m.c0.y * v.x + m.c1.y * v.y + m.c2.y * v.z == a.y
      && m.c0.z * v.x + m.c1.z * v.y + m.c2.z * v.z == a.z
  {
  }

  lemma ApplyHomogeneous(q: Quat, v: Vec3)
    ensures Apply(Homogeneous(q), Direction(v)) == Direction(Turned(q, v))
  {
    hide Turned;
    var m := Homogeneous(q);
    TurnedByMatrix(q, v, m);
    ApplyDirection(m, v);
  }

  lemma ApplyDirection(m: Mat4, v: Vec3)
    requires Affine(m)
    ensures Apply(m, Direction(v)) == Vec4(m.c0.x * v.x + m.c1.x * v.y + m.c2.x * v.z,
                                           m.c0.y * v.x + m.c1.y * v.y + m.c2.y * v.z,
                                           m.c0.z * v.x + m.c1.z * v.y + m.c2.z * v.z, 0.0)
  {
  }

  /** Column by column the product of the matrices is the matrix of the product. */
  lemma HomogeneousOfProduct(a: Quat, b: Quat)
    ensures Homogeneous(QuatMul(a, b)) == Mul(Homogeneous(b), Homogeneous(a))
  {
    var ab := QuatMul(a, b);
    forall j: nat | j < 3
      ensures Apply(Homogeneous(b), Direction(Axis(Homogeneous(a), j))) == Direction(Axis(Homogeneous(ab), j))
    {
      AxisIsTurnedBasis(a, j);
      AxisIsTurnedBasis(ab, j);
      TurnedByProduct(a, b, Basis(j));
      ApplyHomogeneous(b, Axis(Homogeneous(a), j));
    }
    ProductColumns(Homogeneous(ab), Homogeneous(b), Homogeneous(a));
  }

  lemma ProductColumns(p: Mat4, l: Mat4, r: Mat4)
    requires Affine(p) && Affine(l) && Affine(r)
    requires p.c3 == l.c3 == r.c3 == Vec4(0.0, 0.0, 0.0, 1.0)
    requires forall j: nat | j < 3 :: Apply(l, Direction(Axis(r, j))) == Direction(Axis(p, j))
    ensures p == Mul(l, r)
  {
    assert Axis(r, 0) == Vec3(r.c0.x, r.c0.y, r.c0.z) && Axis(r, 1) == Vec3(r.c1.x, r.c1.y, r.c1.z);
    assert Axis(r, 2) == Vec3(r.c2.x, r.c2.y, r.c2.z);
  }

  /** The product of quaternions composes their matrices in the opposite order. */
  lemma RotateOfProduct(a: Quat, b: Quat)
    requires Unit(a) && Unit(b)
    ensures Rotate(QuatMul(a, b)) == Mul(Rotate(b), Rotate(a))
  {
    NormsMultiply(a, b);
    UnitHomogeneous(a);
    UnitHomogeneous(b);
    UnitHomogeneous(QuatMul(a, b));
    HomogeneousOfProduct(a, b);
  }

  lemma TransposeIsConjugate(q: Quat, c: Quat)
    requires c == Conjugate(q)
    ensures Transpose(Rotate(q)) == Rotate(c)
  {
  }

  lemma RotateIdentity()
    ensures Rotate(IDENTITY_QUAT) == IDENTITY
  {
  }

  /** The transpose of a rotation matrix is its inverse. */
  lemma Orthogonal(q: Quat)
    requires Unit(q)
    ensures Mul(Rotate(q), Transpose(Rotate(q))) == IDENTITY
    ensures Mul(Transpose(Rotate(q)), Rotate(q)) == IDENTITY
  {
    var c := Conjugate(q);
    TransposeIsConjugate(q, c);
    ConjugateNorm(q);
    ConjugateCancels(q);
    RotateOfProduct(c, q);
    RotateOfProduct(q, c);
    RotateIdentity();
  }

  // ----- inverse -----

  lemma ScaledConjugate(q: Quat, k: real)
    ensures QuatMul(q, Quat(-q.x * k, -q.y * k, -q.z * k, q.w * k)) == Quat(0.0, 0.0, 0.0, QuatDot(q, q) * k)
    ensures QuatMul(Quat(-q.x * k, -q.y * k, -q.z * k, q.w * k), q) == Quat(0.0, 0.0, 0.0, QuatDot(q, q) * k)
  {
  }

  /** `inverse` divides by the length, not by its square, so the product is `len` instead of 1. */
  lemma InverseProduct(q: Quat, len: real)
    requires len > 0.0 && len * len == QuatDot(q, q)
    ensures QuatMul(q, Inverse(q, len)) == QuatMul(Inverse(q, len), q) == Quat(0.0, 0.0, 0.0, len)
  {
    var k := 1.0 / len;
    assert QuatDot(q, q) * k == len by { assert (len * len) * k == len * (len * k); }
    assert Inverse(q, len) == Quat(-q.x * k, -q.y * k, -q.z * k, q.w * k);
    ScaledConjugate(q, k);
  }

  /** It is an inverse exactly for unit quaternions. */
  lemma InverseIffUnit(q: Quat, len: real)
    requires len > 0.0 && len * len == QuatDot(q, q)
    ensures QuatMul(q, Inverse(q, len)) == IDENTITY_QUAT <==> Unit(q)
  {
    InverseProduct(q, len);
  }

  /** Twice the identity: its `inverse` takes it to twice the identity, not to the identity. */
  lemma InverseOfTwo()
    ensures var two := Quat(0.0, 0.0, 0.0, 2.0);
      QuatDot(two, two) == 2.0 * 2.0 && QuatMul(two, Inverse(two, 2.0)) == two != IDENTITY_QUAT
  {
    hide QuatMul, Inverse;
    InverseProduct(Quat(0.0, 0.0, 0.0, 2.0), 2.0);
  }
}
