/** Integer protocol vectors, the floating velocity vector (as reals) and the
    Java narrowing casts and operators the controller relies on.

    The vector classes `IntVector3` and `IntVector2` of the library are not part
    of this model. Their helpers are assumed to act as follows:
    `subtract` and `abs` act component-wise; `greaterThan(n)` and
    `greaterEqualThan(n)` hold when ANY component is above (at least) `n`;
    `equals` compares all components. */
module Vectors {

  datatype Option<T> = None | Some(value: T)

  /** A protocol position: x, y, z in 1/32 block units. */
  datatype IntVector3 = IntVector3(x: int, y: int, z: int) {

    function Subtract(other: IntVector3): (r: IntVector3)
      ensures r.Add(other) == this
    {
      IntVector3(x - other.x, y - other.y, z - other.z)
    }

    function Add(other: IntVector3): IntVector3 {
      IntVector3(x + other.x, y + other.y, z + other.z)
    }

    function Abs(): (r: IntVector3)
      ensures r.x >= 0 && r.y >= 0 && r.z >= 0
      ensures r.x == x || r.x == -x
      ensures r.y == y || r.y == -y
      ensures r.z == z || r.z == -z
    {
      IntVector3(AbsInt(x), AbsInt(y), AbsInt(z))
    }

    /** Some component is strictly above `n` (signed comparison). */
    predicate GreaterThan(n: int) {
      x > n || y > n || z > n
    }

    /** Some component is at least `n` (signed comparison). */
    predicate GreaterEqualThan(n: int) {
      x >= n || y >= n || z >= n
    }
  }

  /** A protocol rotation: x is the yaw and z is the pitch. */
  datatype IntVector2 = IntVector2(x: int, z: int) {

    function Subtract(other: IntVector2): (r: IntVector2)
      ensures r.Add(other) == this
    {
      IntVector2(x - other.x, z - other.z)
    }

    function Add(other: IntVector2): IntVector2 {
      IntVector2(x + other.x, z + other.z)
    }

    function Abs(): (r: IntVector2)
      ensures r.x >= 0 && r.z >= 0
      ensures r.x == x || r.x == -x
      ensures r.z == z || r.z == -z
    {
      IntVector2(AbsInt(x), AbsInt(z))
    }

    predicate GreaterEqualThan(n: int) {
      x >= n || z >= n
    }
  }

  const ZERO3 := IntVector3(0, 0, 0)
  const ZERO2 := IntVector2(0, 0)

  /** A velocity; the library uses doubles, the model uses exact reals. */
  datatype Vec3 = Vec3(x: real, y: real, z: real) {

    function LengthSquared(): real {
      x * x + y * y + z * z
    }

    function DistanceSquared(other: Vec3): real {
      (x - other.x) * (x - other.x) + (y - other.y) * (y - other.y) + (z - other.z) * (z - other.z)
    }
  }

  const ZERO_VELOCITY := Vec3(0.0, 0.0, 0.0)

  function AbsInt(v: int): (r: int)
    ensures r >= 0 && (r == v || r == -v)
  {
    if v < 0 then -v else v
  }

  function AbsReal(v: real): (r: real)
    ensures r >= 0.0 && (r == v || r == -v)
  {
    if v < 0.0 then -v else v
  }

  /** Java's `(byte) v`: keep the low eight bits, read them as two's
      complement, that is, the value in [-128, 127] that `v` is congruent to
      modulo 256. */
  function ToByte(v: int): (b: int)
    ensures -128 <= b <= 127
    ensures -128 <= v <= 127 ==> b == v
    decreases if v > 127 then v else if v < -128 then -v else 0
  {
    if v > 127 then ToByte(v - 256)
    else if v < -128 then ToByte(v + 256)
    else v
  }

  /** The byte keeps `v` modulo 256. */
  lemma {:induction false} ToByteCongruent(v: int)
    ensures (v - ToByte(v)) % 256 == 0
    decreases if v > 127 then v else if v < -128 then -v else 0
  {
    if v > 127 {
      ToByteCongruent(v - 256);
    } else if v < -128 {
      ToByteCongruent(v + 256);
    }
  }

  /** Java's `a % b` on ints: truncated division, so the remainder takes the
      sign of the dividend (Dafny's own `%` is Euclidean). */
  function JavaRem(a: int, b: int): (r: int)
    requires b != 0
    ensures AbsInt(r) < AbsInt(b)
    ensures a >= 0 ==> r == a % AbsInt(b)
    ensures a <= 0 ==> r <= 0
  {
    var m := AbsInt(b);
    if a >= 0 then a % m else -((-a) % m)
  }
}
