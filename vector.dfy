/**
 * Three-component vectors and their componentwise algebra (src/math/vector.rs).
 *
 * The source is generic over the component type; every identity it relies on
 * (and every test it states) is about integer vectors, so the algebra here is
 * stated on `Vec3<int>`.  Rust's integer `/` truncates toward zero, which is
 * written out in `TruncDiv` rather than borrowed from Dafny's Euclidean `/`.
 */
module Vector {

  /** A vector with components of type `T`; `Vec3(x, y, z)` is `Vec3::new`. */
  datatype Vec3<T> = Vec3(x: T, y: T, z: T)

  /** Componentwise `+` (the `Add` instance of the binary-operator macro). */
  function Add(u: Vec3<int>, v: Vec3<int>): Vec3<int>
  {
    Vec3(u.x + v.x, u.y + v.y, u.z + v.z)
  }

  /** Componentwise `-` (the `Sub` instance of the binary-operator macro). */
  function Sub(u: Vec3<int>, v: Vec3<int>): Vec3<int>
  {
    Vec3(u.x - v.x, u.y - v.y, u.z - v.z)
  }

  /** Every component multiplied by the scalar `k` (`Mul<S>`). */
  function Scale(v: Vec3<int>, k: int): Vec3<int>
  {
    Vec3(v.x * k, v.y * k, v.z * k)
  }

  /**
   * Integer division rounding toward zero, as Rust's `/` on signed integers:
   * the quotient's magnitude is |a| / |d| and its sign is negative exactly when
   * the operands' signs differ.
   */
  function TruncDiv(a: int, d: int): (q: int)
    requires d != 0
    ensures Abs(q) == Abs(a) / Abs(d)
    ensures q < 0 ==> (a < 0) != (d < 0)
    ensures q > 0 ==> (a < 0) == (d < 0)
  {
    var m: int := NatDiv(Abs(a), Abs(d));
    if (a < 0) == (d < 0) then m else -m
  }

  function NatDiv(a: nat, d: nat): (m: nat)
    requires d > 0
    ensures m == a / d
  {
    a / d
  }

  function Abs(a: int): nat
  {
    if a < 0 then -a else a
  }

  /** Every component divided by the scalar `k` (`Div<S>`); `k == 0` panics in the source. */
  function Divide(v: Vec3<int>, k: int): Vec3<int>
    requires k != 0
  {
    Vec3(TruncDiv(v.x, k), TruncDiv(v.y, k), TruncDiv(v.z, k))
  }

  /** `dot`: the sum of the componentwise products. */
  function Dot(u: Vec3<int>, v: Vec3<int>): int
  {
    u.x * v.x + u.y * v.y + u.z * v.z
  }

  /** `length_squared`: the sum of the squared components. */
  function LengthSquared(v: Vec3<int>): int
  {
    v.x * v.x + v.y * v.y + v.z * v.z
  }

  // ---------------------------------------------------------------------------
  // Algebraic properties

  lemma AddCommutes(u: Vec3<int>, v: Vec3<int>)
    ensures Add(u, v) == Add(v, u)
  {
  }

  lemma AddAssociates(u: Vec3<int>, v: Vec3<int>, w: Vec3<int>)
    ensures Add(Add(u, v), w) == Add(u, Add(v, w))
  {
  }

  /** Subtraction undoes addition and vice versa. */
  lemma SubUndoesAdd(u: Vec3<int>, v: Vec3<int>)
    ensures Sub(Add(u, v), v) == u
    ensures Add(Sub(u, v), v) == u
  {
  }

  /** Dividing a scaled vector by the same non-zero scalar gives it back. */
  lemma DivideUndoesScale(v: Vec3<int>, k: int)
    requires k != 0
    ensures Divide(Scale(v, k), k) == v
  {
    TruncDivOfMultiple(v.x, k);
    TruncDivOfMultiple(v.y, k);
    TruncDivOfMultiple(v.z, k);
  }

  lemma TruncDivOfMultiple(a: int, k: int)
    requires k != 0
    ensures TruncDiv(a * k, k) == a
  {
    var p := Abs(a) * Abs(k);
    assert Abs(a * k) == p by {
      if a < 0 && k < 0 { assert a * k == (-a) * (-k); }
      else if a < 0 { assert -(a * k) == (-a) * k; }
      else if k < 0 { assert -(a * k) == a * (-k); }
    }
    DivOfProduct(Abs(a), Abs(k));
  }

  lemma DivOfProduct(m: nat, n: nat)
    requires n > 0
    ensures (m * n) / n == m
  {
    var q := (m * n) / n;
    var r := (m * n) % n;
    assert q * n + r == m * n;
    if q < m {
      MulMonotone(m, q + 1, n);
    } else if q > m {
      MulMonotone(q, m + 1, n);
    }
  }

  lemma MulMonotone(a: int, b: int, n: nat)
    requires a >= b
    ensures a * n >= b * n
  {
    assert a * n - b * n == (a - b) * n;
  }

  /** The dot product is symmetric. */
  lemma DotSymmetric(u: Vec3<int>, v: Vec3<int>)
    ensures Dot(u, v) == Dot(v, u)
  {
  }

  /** The dot product is linear in its first argument. */
  lemma DotDistributesOverAdd(u: Vec3<int>, v: Vec3<int>, w: Vec3<int>)
    ensures Dot(Add(u, v), w) == Dot(u, w) + Dot(v, w)
  {
  }

  /** `length_squared(v)` is `v · v` and is never negative. */
  lemma LengthSquaredIsSelfDot(v: Vec3<int>)
    ensures LengthSquared(v) == Dot(v, v)
    ensures LengthSquared(v) >= 0
    ensures LengthSquared(v) == 0 <==> v == Vec3(0, 0, 0)
  {
    if v != Vec3(0, 0, 0) {
      if v.x != 0 { assert v.x * v.x > 0; }
      else if v.y != 0 { assert v.y * v.y > 0; }
      else { assert v.z * v.z > 0; }
    }
  }

  /** The worked values of the operator tests. */
  lemma OperatorExamples()
    ensures Add(Vec3(1, 2, 3), Vec3(4, 7, 11)) == Vec3(5, 9, 14)
    ensures Sub(Vec3(4, 7, 11), Vec3(1, 2, 3)) == Vec3(3, 5, 8)
    ensures Scale(Vec3(4, 7, 11), 2) == Vec3(8, 14, 22)
    ensures Divide(Vec3(8, 14, 22), 2) == Vec3(4, 7, 11)
    ensures Dot(Vec3(3, 4, 5), Vec3(4, 7, 11)) == 95
  {
  }

  /** Rust truncates where Dafny's `/` floors: -7 / 2 is -3, not -4. */
  lemma DivideTruncatesTowardZero()
    ensures Divide(Vec3(-7, 7, -8), 2) == Vec3(-3, 3, -4)
    ensures Divide(Vec3(-7, 7, 0), -2) == Vec3(3, -3, 0)
  {
  }

  // ---------------------------------------------------------------------------
  // In-place forms: `+=`, `-=`, `*=` and `/=` update the receiver's fields.

  class MutableVec3 {
    var x: int
    var y: int
    var z: int

    function Value(): Vec3<int>
      reads this
    {
      Vec3(x, y, z)
    }

    constructor (v: Vec3<int>)
      ensures Value() == v
    {
      x, y, z := v.x, v.y, v.z;
    }

    /** `add_assign`: leaves the receiver equal to `old + other`. */
    method AddAssign(other: Vec3<int>)
      modifies this
      ensures Value() == Add(old(Value()), other)
    {
      x := x + other.x;
      y := y + other.y;
      z := z + other.z;
    }

    /** `sub_assign`: leaves the receiver equal to `old - other`. */
    method SubAssign(other: Vec3<int>)
      modifies this
      ensures Value() == Sub(old(Value()), other)
    {
      x := x - other.x;
      y := y - other.y;
      z := z - other.z;
    }

    /** `mul_assign` with a scalar. */
    method MulAssign(k: int)
      modifies this
      ensures Value() == Scale(old(Value()), k)
    {
      x := x * k;
      y := y * k;
      z := z * k;
    }

    /** `div_assign` with a scalar; the source panics on zero. */
    method DivAssign(k: int)
      requires k != 0
      modifies this
      ensures Value() == Divide(old(Value()), k)
    {
      x := TruncDiv(x, k);
      y := TruncDiv(y, k);
      z := TruncDiv(z, k);
    }
  }
}
