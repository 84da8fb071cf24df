/** Values shared by both driver versions: three-axis vectors, quaternions,
    the MPU_* status codes, and how a callback payload is read. */
module Common {

  /** An axis index into a `float[3]` buffer. */
  type Axis = i: int | 0 <= i < 3

  datatype Vec3 = Vec3(x: real, y: real, z: real) {

    function Get(axis: Axis): real {
      match axis
      case 0 => x
      case 1 => y
      case 2 => z
    }

    /** `v[0] *= k; v[1] *= k; v[2] *= k;` */
    function Scale(k: real): (r: Vec3)
      ensures forall a: Axis :: r.Get(a) == k * Get(a)
    {
      Vec3(k * x, k * y, k * z)
    }
  }

  /** Scaling twice scales by the product. */
  lemma ScaleTwice(v: Vec3, j: real, k: real)
    ensures v.Scale(j).Scale(k) == v.Scale(k * j)
  {
    assert k * (j * v.x) == (k * j) * v.x;
    assert k * (j * v.y) == (k * j) * v.y;
    assert k * (j * v.z) == (k * j) * v.z;
  }

  /** A quaternion stored as `float[4]` in the order (w, x, y, z). */
  datatype Quat = Quat(w: real, x: real, y: real, z: real)

  const ZERO3: Vec3 := Vec3(0.0, 0.0, 0.0)
  const ZERO_QUAT: Quat := Quat(0.0, 0.0, 0.0, 0.0)

  /** The status codes a driver call returns: MPU_SUCCESS, MPU_NOT_ALLOWED, MPU_ERROR. */
  datatype Status = Success | NotAllowed | Error

  /** The first three floats of a callback payload, copied with `memcpy`. */
  function Vec3Of(data: seq<real>): (v: Vec3)
    requires |data| >= 3
    ensures forall a: Axis :: v.Get(a) == data[a]
  {
    Vec3(data[0], data[1], data[2])
  }

  /** The first four floats of a callback payload, read as a quaternion. */
  function QuatOf(data: seq<real>): (q: Quat)
    requires |data| >= 4
    ensures [q.w, q.x, q.y, q.z] == data[..4]
  {
    Quat(data[0], data[1], data[2], data[3])
  }
}
