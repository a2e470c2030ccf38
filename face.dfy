/**
 * A triangular face (src/terrain/face.rs, and the identical `Face` of
 * src/icosahedron.rs): three node indices, and three edge indices where
 * `edges[i]` joins `points[i]` and `points[i+1]`.  Slot offsets are taken
 * modulo 3, so `At(v, i + 1)` and `At(v, i + 2)` wrap around.
 */
module MeshFace {
  import opened Vector

  /** An index triple (`Index3` is `Vec3<u32>`). */
  type Index3 = Vec3<nat>

  datatype Face = Face(points: Index3, edges: Index3)

  /** Slot `i mod 3` of a triple. */
  function At(v: Index3, i: int): nat
  {
    var j := i % 3;
    if j == 0 then v.x else if j == 1 then v.y else v.z
  }

  /** The triple with slot `i mod 3` replaced by `value`. */
  function With(v: Index3, i: int, value: nat): (w: Index3)
    ensures At(w, i) == value
  {
    var j := i % 3;
    if j == 0 then Vec3(value, v.y, v.z)
    else if j == 1 then Vec3(v.x, value, v.z)
    else Vec3(v.x, v.y, value)
  }

  /** Writing slot `i mod 3` leaves the two other slots as they were. */
  lemma WithKeepsOthers(v: Index3, i: int, value: nat, k: int)
    requires k % 3 != i % 3
    ensures At(With(v, i, value), k) == At(v, k)
  {
  }

  /** How many of the three slots of `v` hold `n`. */
  function Occurrences(v: Index3, n: nat): (c: nat)
    ensures c <= 3
  {
    (if v.x == n then 1 else 0) + (if v.y == n then 1 else 0) + (if v.z == n then 1 else 0)
  }
}
