/** Vectors, quaternions and 4x4 matrices over the reals, as in include/vsg/maths. */
module Linear {

  datatype Vec3 = Vec3(x: real, y: real, z: real) {
    function Plus(v: Vec3): Vec3 { Vec3(x + v.x, y + v.y, z + v.z) }
    function Times(s: real): Vec3 { Vec3(x * s, y * s, z * s) }
  }

  function Dot(a: Vec3, b: Vec3): real { a.x * b.x + a.y * b.y + a.z * b.z }

  function Length2(a: Vec3): real { a.x * a.x + a.y * a.y + a.z * a.z }

  function Cross(a: Vec3, b: Vec3): Vec3 {
    Vec3(a.y * b.z - b.y * a.z, a.z * b.x - b.z * a.x, a.x * b.y - b.x * a.y)
  }

  datatype Quat = Quat(x: real, y: real, z: real, w: real)

  function QuatDot(a: Quat, b: Quat): real { a.x * b.x + a.y * b.y + a.z * b.z + a.w * b.w }

  ghost predicate Unit(q: Quat) { QuatDot(q, q) == 1.0 }

  const IDENTITY_QUAT := Quat(0.0, 0.0, 0.0, 1.0)

  function Conjugate(q: Quat): Quat { Quat(-q.x, -q.y, -q.z, q.w) }

  /** `operator*(lhs, rhs)`: the Hamilton product with its factors exchanged. */
  function QuatMul(l: Quat, r: Quat): Quat {
    Quat(r.w * l.x + r.x * l.w + r.y * l.z - r.z * l.y,
         r.w * l.y - r.x * l.z + r.y * l.w + r.z * l.x,
         r.w * l.z + r.x * l.y - r.y * l.x + r.z * l.w,
         r.w * l.w - r.x * l.x - r.y * l.y - r.z * l.z)
  }

  /** `inverse(v)`; `len` is `length(v)`, a real whose square is the squared norm. */
  function Inverse(q: Quat, len: real): Quat
    requires len > 0.0 && len * len == QuatDot(q, q)
  {
    var c, inv := Conjugate(q), 1.0 / len;
    Quat(c.x * inv, c.y * inv, c.z * inv, c.w * inv)
  }

  /** `operator*(q, v)`: rotates `v`, step by step as the original does. */
  method RotateVector(q: Quat, v: Vec3) returns (r: Vec3)
    ensures r == Rotated(q, v)
  {
    var qvec := Vec3(q.x, q.y, q.z);
    var uv := Cross(qvec, v);
    var uuv := Cross(qvec, uv);
    uv := uv.Times(2.0 * q.w);
    uuv := uuv.Times(2.0);
    r := v.Plus(uv).Plus(uuv);
  }

  /** `v` rotated by `q`, as one expression. */
  function Rotated(q: Quat, v: Vec3): Vec3 {
    var u := Vec3(q.x, q.y, q.z);
    v.Plus(Cross(u, v).Times(2.0 * q.w)).Plus(Cross(u, Cross(u, v)).Times(2.0))
  }

  datatype Vec4 = Vec4(x: real, y: real, z: real, w: real)

  /** Column-major: `c0` .. `c3` are the columns. */
  datatype Mat4 = Mat4(c0: Vec4, c1: Vec4, c2: Vec4, c3: Vec4)

  const IDENTITY := Mat4(Vec4(1.0, 0.0, 0.0, 0.0), Vec4(0.0, 1.0, 0.0, 0.0), Vec4(0.0, 0.0, 1.0, 0.0), Vec4(0.0, 0.0, 0.0, 1.0))

  /** `m * v` for a column vector. */
  function Apply(m: Mat4, v: Vec4): Vec4 {
    Vec4(m.c0.x * v.x + m.c1.x * v.y + m.c2.x * v.z + m.c3.x * v.w,
         m.c0.y * v.x + m.c1.y * v.y + m.c2.y * v.z + m.c3.y * v.w,
         m.c0.z * v.x + m.c1.z * v.y + m.c2.z * v.z + m.c3.z * v.w,
         m.c0.w * v.x + m.c1.w * v.y + m.c2.w * v.z + m.c3.w * v.w)
  }

  /** `lhs * rhs`: column c of the product is `lhs` applied to column c of `rhs`. */
  function Mul(l: Mat4, r: Mat4): Mat4 {
    Mat4(Apply(l, r.c0), Apply(l, r.c1), Apply(l, r.c2), Apply(l, r.c3))
  }

  /** `m * v` for a position, with the division by the homogeneous coordinate. */
  function Transform(m: Mat4, v: Vec3): Vec3
    requires Apply(m, Vec4(v.x, v.y, v.z, 1.0)).w != 0.0
  {
    var h := Apply(m, Vec4(v.x, v.y, v.z, 1.0));
    var inv := 1.0 / h.w;
    Vec3(h.x * inv, h.y * inv, h.z * inv)
  }

  function Transpose(m: Mat4): Mat4 {
    Mat4(Vec4(m.c0.x, m.c1.x, m.c2.x, m.c3.x), Vec4(m.c0.y, m.c1.y, m.c2.y, m.c3.y),
         Vec4(m.c0.z, m.c1.z, m.c2.z, m.c3.z), Vec4(m.c0.w, m.c1.w, m.c2.w, m.c3.w))
  }

  function Rotate(q: Quat): Mat4 {
    var qxx, qyy, qzz := q.x * q.x, q.y * q.y, q.z * q.z;
    var qxy, qxz, qyz := q.x * q.y, q.x * q.z, q.y * q.z;
    var qwx, qwy, qwz := q.w * q.x, q.w * q.y, q.w * q.z;
    Mat4(Vec4(1.0 - 2.0 * (qyy + qzz), 2.0 * (qxy + qwz), 2.0 * (qxz - qwy), 0.0),
         Vec4(2.0 * (qxy - qwz), 1.0 - 2.0 * (qxx + qzz), 2.0 * (qyz + qwx), 0.0),
         Vec4(2.0 * (qxz + qwy), 2.0 * (qyz - qwx), 1.0 - 2.0 * (qxx + qyy), 0.0),
         Vec4(0.0, 0.0, 0.0, 1.0))
  }

  function Translate(v: Vec3): Mat4 {
    Mat4(Vec4(1.0, 0.0, 0.0, 0.0), Vec4(0.0, 1.0, 0.0, 0.0), Vec4(0.0, 0.0, 1.0, 0.0), Vec4(v.x, v.y, v.z, 1.0))
  }

  function Scale(s: real): Mat4 {
    Mat4(Vec4(s, 0.0, 0.0, 0.0), Vec4(0.0, s, 0.0, 0.0), Vec4(0.0, 0.0, s, 0.0), Vec4(0.0, 0.0, 0.0, 1.0))
  }
}
