/**
 * Three-component vectors over exact reals: the part of gl-matrix's `vec3`
 * that the collision core uses, and the flattened-triple layout in which the
 * repository stores point lists (`number[]` of length 3k).
 */
module Vectors {

  datatype Vec3 = Vec3(x: real, y: real, z: real)

  function Add(a: Vec3, b: Vec3): Vec3 { Vec3(a.x + b.x, a.y + b.y, a.z + b.z) }

  function Sub(a: Vec3, b: Vec3): Vec3 { Vec3(a.x - b.x, a.y - b.y, a.z - b.z) }

  function Neg(a: Vec3): Vec3 { Vec3(-a.x, -a.y, -a.z) }

  function Scale(a: Vec3, k: real): Vec3 { Vec3(k * a.x, k * a.y, k * a.z) }

  /** `vec3.scaleAndAdd(out, a, b, k)`: a + k b. */
  function ScaleAndAdd(a: Vec3, b: Vec3, k: real): Vec3 { Add(a, Scale(b, k)) }

  function Dot(a: Vec3, b: Vec3): real { a.x * b.x + a.y * b.y + a.z * b.z }

  /** `vec3.cross`, also wrapped as `cross` in gjk.ts. */
  function Cross(a: Vec3, b: Vec3): Vec3 {
    Vec3(a.y * b.z - a.z * b.y, a.z * b.x - a.x * b.z, a.x * b.y - a.y * b.x)
  }

  /** The k-th point of a flattened list of triples. */
  function TripleAt(s: seq<real>, k: nat): Vec3
    requires 3 * k + 3 <= |s|
  {
    Vec3(s[3 * k], s[3 * k + 1], s[3 * k + 2])
  }

  /** A point as the three numbers it contributes to a flattened list. */
  function Flat(p: Vec3): seq<real> { [p.x, p.y, p.z] }

  lemma {:induction false} DotSelfNonNegative(a: Vec3)
    ensures Dot(a, a) >= 0.0
  {
  }

  /** The cross product is perpendicular to both of its arguments. */
  lemma {:induction false} CrossPerpendicular(a: Vec3, b: Vec3)
    ensures Dot(Cross(a, b), a) == 0.0 && Dot(Cross(a, b), b) == 0.0
  {
  }

  /** Negation commutes with scaling. */
  lemma {:induction false} NegScale(d: Vec3, c: real)
    ensures Neg(Scale(d, c)) == Scale(Neg(d), c)
  {
  }

  /** Scaling the direction by k scales every dot product by k. */
  lemma {:induction false} DotScale(a: Vec3, d: Vec3, k: real)
    ensures Dot(a, Scale(d, k)) == k * Dot(a, d)
  {
  }

  /** The dot product is linear in its first argument along a ray. */
  lemma {:induction false} DotAlongRay(o: Vec3, dir: Vec3, t: real, a: Vec3, n: Vec3)
    ensures Dot(Sub(ScaleAndAdd(o, dir, t), a), n) == Dot(Sub(o, a), n) + t * Dot(dir, n)
  {
  }

  lemma {:induction false} DotSub(a: Vec3, b: Vec3, d: Vec3)
    ensures Dot(Sub(a, b), d) == Dot(a, d) - Dot(b, d)
  {
  }

  lemma {:induction false} DotNeg(a: Vec3, d: Vec3)
    ensures Dot(a, Neg(d)) == -Dot(a, d) && Dot(Neg(a), d) == -Dot(a, d)
  {
  }
}
