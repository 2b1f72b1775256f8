/** Three- and four-component vectors (glm `vec3`/`vec4`). Single-precision
    floats are modelled as mathematical reals throughout the project. */
module Vec {

  datatype Vec3 = Vec3(x: real, y: real, z: real)

  datatype Vec4 = Vec4(x: real, y: real, z: real, w: real)

  const Origin: Vec3 := Vec3(0.0, 0.0, 0.0)

  function Add(a: Vec3, b: Vec3): Vec3 {
    Vec3(a.x + b.x, a.y + b.y, a.z + b.z)
  }

  function Sub(a: Vec3, b: Vec3): Vec3 {
    Vec3(a.x - b.x, a.y - b.y, a.z - b.z)
  }

  function Scale(a: Vec3, s: real): Vec3 {
    Vec3(a.x * s, a.y * s, a.z * s)
  }

  function Add4(a: Vec4, b: Vec4): Vec4 {
    Vec4(a.x + b.x, a.y + b.y, a.z + b.z, a.w + b.w)
  }

  function Scale4(a: Vec4, s: real): Vec4 {
    Vec4(a.x * s, a.y * s, a.z * s, a.w * s)
  }

  const Zero4: Vec4 := Vec4(0.0, 0.0, 0.0, 0.0)

  function Abs(r: real): real {
    if r < 0.0 then -r else r
  }

  function Max(a: real, b: real): real {
    if a < b then b else a
  }

  /** `max(|p.x|, max(|p.y|, |p.z|))`: the largest absolute coordinate. */
  function MaxAbs(p: Vec3): (m: real)
    ensures 0.0 <= m
    ensures Abs(p.x) <= m && Abs(p.y) <= m && Abs(p.z) <= m
    ensures m == Abs(p.x) || m == Abs(p.y) || m == Abs(p.z)
  {
    Max(Abs(p.x), Max(Abs(p.y), Abs(p.z)))
  }
}
