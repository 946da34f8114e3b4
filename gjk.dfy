/**
 * The Gilbert-Johnson-Keerthi boolean intersection test of src/gjk.ts, over
 * exact reals.
 *
 * A point set is a flattened list of triples. The simplex and the search
 * direction, which the source keeps in a local array and a local `vec3` and
 * updates in place, are the two fields of class `Simplex`. The pure function
 * `Evolve` is the reference for one `handleSimplex` call, and `GjkOutcome` the
 * reference for a whole `gjk3d` run; the methods are proved against them and
 * the properties of the algorithm are proved about them.
 */
module Gjk {
  import opened Vectors

  /** The iteration cap of the driver loop. */
  const MaxIterations: nat := 64

  /** A point list `farthestPoint` can scan: at least one whole triple, and whole triples only. */
  predicate IsPointSet(s: seq<real>) { |s| >= 3 && |s| % 3 == 0 }

  /** `tripleCross(a, b, c)`: (a x b) x c, perpendicular to both a x b and c. */
  function TripleCross(a: Vec3, b: Vec3, c: Vec3): (r: Vec3)
    ensures Dot(r, c) == 0.0 && Dot(r, Cross(a, b)) == 0.0
  {
    CrossPerpendicular(Cross(a, b), c);
    Cross(Cross(a, b), c)
  }

  /**
   * (e x v) x e is perpendicular to the edge e and never points away from v:
   * the reason the line and edge cases use it as the next direction.
   */
  lemma {:induction false} TripleCrossTowards(e: Vec3, v: Vec3)
    ensures Dot(TripleCross(e, v, e), e) == 0.0
    ensures Dot(TripleCross(e, v, e), v) == Dot(Cross(e, v), Cross(e, v))
    ensures Dot(TripleCross(e, v, e), v) >= 0.0
  {
    CrossPerpendicular(Cross(e, v), e);
    DotSelfNonNegative(Cross(e, v));
  }

  // ---------------------------------------------------------------------
  // Support function

  /**
   * Index of the triple `farthestPoint` returns among the first n: the scan
   * replaces its candidate only on a strictly larger dot product.
   */
  function FirstFarthest(s: seq<real>, d: Vec3, n: nat): (k: nat)
    requires 1 <= n && 3 * n <= |s|
    ensures k < n
  {
    if n == 1 then 0
    else
      var k := FirstFarthest(s, d, n - 1);
      if Dot(TripleAt(s, n - 1), d) > Dot(TripleAt(s, k), d) then n - 1 else k
  }

  /** The candidate is a maximum along d, and every earlier triple is strictly smaller (ties keep the first). */
  lemma {:induction false} FirstFarthestIsFirstMaximum(s: seq<real>, d: Vec3, n: nat)
    requires 1 <= n && 3 * n <= |s|
    ensures var k := FirstFarthest(s, d, n);
      && (forall j :: 0 <= j < n ==> Dot(TripleAt(s, j), d) <= Dot(TripleAt(s, k), d))
      && (forall j :: 0 <= j < k ==> Dot(TripleAt(s, j), d) < Dot(TripleAt(s, k), d))
  {
    if n > 1 {
      FirstFarthestIsFirstMaximum(s, d, n - 1);
    }
  }

  /** Scaling the direction by a positive factor does not change the triple chosen. */
  lemma {:induction false} FirstFarthestScaleFree(s: seq<real>, d: Vec3, c: real, n: nat)
    requires c > 0.0
    requires 1 <= n && 3 * n <= |s|
    ensures FirstFarthest(s, Scale(d, c), n) == FirstFarthest(s, d, n)
  {
    if n > 1 {
      FirstFarthestScaleFree(s, d, c, n - 1);
      var k := FirstFarthest(s, d, n - 1);
      ScaledComparison(TripleAt(s, n - 1), TripleAt(s, k), d, c);
    }
  }

  /** A positive factor on the direction preserves which of two points lies farther along it. */
  lemma {:induction false} ScaledComparison(p: Vec3, q: Vec3, d: Vec3, c: real)
    requires c > 0.0
    ensures Dot(p, Scale(d, c)) > Dot(q, Scale(d, c)) <==> Dot(p, d) > Dot(q, d)
    ensures Dot(p, Scale(d, c)) < 0.0 <==> Dot(p, d) < 0.0
  {
    DotScale(p, d, c);
    DotScale(q, d, c);
    ProductPreservesOrder(c, Dot(p, d), Dot(q, d));
    ProductPreservesOrder(c, Dot(p, d), 0.0);
  }

  lemma {:induction false} ProductPreservesOrder(c: real, a: real, b: real)
    requires c > 0.0
    ensures c * a > c * b <==> a > b
  {
    assert c * a - c * b == c * (a - b);
  }

  /** The point `farthestPoint` returns: a triple of s that no other triple exceeds along d. */
  function Farthest(s: seq<real>, d: Vec3): (r: Vec3)
    requires IsPointSet(s)
    ensures exists k: nat :: 3 * k + 3 <= |s| && r == TripleAt(s, k)
    ensures forall k: nat :: 3 * k + 3 <= |s| ==> Dot(TripleAt(s, k), d) <= Dot(r, d)
  {
    var k := FirstFarthest(s, d, |s| / 3);
    FirstFarthestIsFirstMaximum(s, d, |s| / 3);
    assert 3 * k + 3 <= |s|;
    TripleAt(s, k)
  }

  /** `supportPoint`: the farthest point of s1 along d minus the farthest point of s2 along -d. */
  function Support(s1: seq<real>, s2: seq<real>, d: Vec3): (r: Vec3)
    requires IsPointSet(s1) && IsPointSet(s2)
    ensures IsMinkowski(s1, s2, r)
  {
    var k1 := FirstFarthest(s1, d, |s1| / 3);
    var k2 := FirstFarthest(s2, Neg(d), |s2| / 3);
    assert 3 * k1 + 3 <= |s1| && 3 * k2 + 3 <= |s2|;
    Sub(TripleAt(s1, k1), TripleAt(s2, k2))
  }

  /** p is a point of the Minkowski difference of the two triple lists. */
  ghost predicate IsMinkowski(s1: seq<real>, s2: seq<real>, p: Vec3) {
    exists i: nat, j: nat :: 3 * i + 3 <= |s1| && 3 * j + 3 <= |s2| && p == Sub(TripleAt(s1, i), TripleAt(s2, j))
  }

  ghost predicate AllMinkowski(s1: seq<real>, s2: seq<real>, ps: seq<Vec3>) {
    forall q :: q in ps ==> IsMinkowski(s1, s2, q)
  }

  /**
   * The support point is a Minkowski-difference point, and no difference of a
   * triple of s1 and a triple of s2 lies farther along d.
   */
  lemma {:induction false} SupportIsMaximal(s1: seq<real>, s2: seq<real>, d: Vec3)
    requires IsPointSet(s1) && IsPointSet(s2)
    ensures IsMinkowski(s1, s2, Support(s1, s2, d))
    ensures forall i: nat, j: nat :: 3 * i + 3 <= |s1| && 3 * j + 3 <= |s2| ==>
      Dot(Sub(TripleAt(s1, i), TripleAt(s2, j)), d) <= Dot(Support(s1, s2, d), d)
  {
    var k1 := FirstFarthest(s1, d, |s1| / 3);
    var k2 := FirstFarthest(s2, Neg(d), |s2| / 3);
    FirstFarthestIsFirstMaximum(s1, d, |s1| / 3);
    FirstFarthestIsFirstMaximum(s2, Neg(d), |s2| / 3);
    forall i: nat, j: nat | 3 * i + 3 <= |s1| && 3 * j + 3 <= |s2|
      ensures Dot(Sub(TripleAt(s1, i), TripleAt(s2, j)), d) <= Dot(Support(s1, s2, d), d)
    {
      DotSub(TripleAt(s1, i), TripleAt(s2, j), d);
      DotSub(TripleAt(s1, k1), TripleAt(s2, k2), d);
      DotNeg(TripleAt(s2, j), d);
      DotNeg(TripleAt(s2, k2), d);
    }
  }

  /**
   * When the support point along d lies behind the origin, d separates the
   * sets: every point of s1 is strictly below every point of s2 along d, so
   * the early `return false` of the driver is a correct answer.
   */
  lemma {:induction false} SeparatedWhenSupportBehind(s1: seq<real>, s2: seq<real>, d: Vec3)
    requires IsPointSet(s1) && IsPointSet(s2)
    requires Dot(Support(s1, s2, d), d) < 0.0
    ensures forall i: nat, j: nat :: 3 * i + 3 <= |s1| && 3 * j + 3 <= |s2| ==>
      Dot(TripleAt(s1, i), d) < Dot(TripleAt(s2, j), d)
  {
    SupportIsMaximal(s1, s2, d);
    forall i: nat, j: nat | 3 * i + 3 <= |s1| && 3 * j + 3 <= |s2|
      ensures Dot(TripleAt(s1, i), d) < Dot(TripleAt(s2, j), d)
    {
      DotSub(TripleAt(s1, i), TripleAt(s2, j), d);
    }
  }

  lemma {:induction false} SupportScaleFree(s1: seq<real>, s2: seq<real>, d: Vec3, c: real)
    requires IsPointSet(s1) && IsPointSet(s2) && c > 0.0
    ensures Support(s1, s2, Scale(d, c)) == Support(s1, s2, d)
  {
    FarthestScaleFree(s1, d, c);
    NegScale(d, c);
    FarthestScaleFree(s2, Neg(d), c);
  }

  lemma {:induction false} FarthestScaleFree(s: seq<real>, d: Vec3, c: real)
    requires IsPointSet(s) && c > 0.0
    ensures Farthest(s, Scale(d, c)) == Farthest(s, d)
  {
    FirstFarthestScaleFree(s, d, c, |s| / 3);
  }

  /** `farthestPoint`: the linear scan with a running maximum. */
  method FarthestPoint(s: seq<real>, d: Vec3) returns (max: Vec3)
    requires IsPointSet(s)
    ensures max == Farthest(s, d)
    ensures exists k: nat :: 3 * k + 3 <= |s| && max == TripleAt(s, k)
    ensures forall k: nat :: 3 * k + 3 <= |s| ==> Dot(TripleAt(s, k), d) <= Dot(max, d)
  {
    max := Vec3(s[0], s[1], s[2]);
    var maxdot := Dot(max, d);
    var i := 3;
    ghost var n := 1;
    ghost var k := 0;
    while i < |s|
      invariant i == 3 * n && 1 <= n && i <= |s|
      invariant k == FirstFarthest(s, d, n) && max == TripleAt(s, k)
      invariant maxdot == Dot(max, d)
    {
      var dot := s[i] * d.x + s[i + 1] * d.y + s[i + 2] * d.z;
      assert dot == Dot(TripleAt(s, n), d);
      if dot > maxdot {
        maxdot := dot;
        max := max.(x := s[i], y := s[i + 1], z := s[i + 2]);
        k := n;
      }
      i := i + 3;
      n := n + 1;
    }
    assert n == |s| / 3;
    FirstFarthestIsFirstMaximum(s, d, n);
    assert 3 * k + 3 <= |s| && max == TripleAt(s, k);
  }

  /** `supportPoint`. */
  method SupportPoint(s1: seq<real>, s2: seq<real>, d: Vec3) returns (res: Vec3)
    requires IsPointSet(s1) && IsPointSet(s2)
    ensures res == Support(s1, s2, d)
    ensures IsMinkowski(s1, s2, res)
  {
    var fs1 := FarthestPoint(s1, d);
    var dNeg := Neg(d);
    var fs2 := FarthestPoint(s2, dNeg);
    res := Sub(fs1, fs2);
    SupportIsMaximal(s1, s2, d);
  }

  // ---------------------------------------------------------------------
  // Simplex evolution: the reference for one `handleSimplex` call

  /** What one `handleSimplex` call leaves behind: the simplex, the direction and its result. */
  datatype Step = Step(points: seq<Vec3>, d: Vec3, contained: bool)

  /**
   * The branch shared by the line case and the triangle case (`STAR`): keep the
   * edge A-B with a direction perpendicular to it, or only the vertex A with
   * the direction A->origin.
   */
  function EdgeOrVertex(a: Vec3, b: Vec3): (r: Step)
    ensures !r.contained && 1 <= |r.points| <= 2 && r.points[0] == a
    ensures Dot(r.d, Neg(a)) >= 0.0
  {
    var ab := Sub(b, a);
    var ao := Neg(a);
    TripleCrossTowards(ab, ao);
    DotSelfNonNegative(ao);
    if Dot(ab, ao) > 0.0 then Step([a, b], TripleCross(ab, ao, ab), false)
    else Step([a], ao, false)
  }

  /** The line case, with A = p[1] the newest point: the `STAR` rule on the edge A-B. */
  function EvolveLine(p: seq<Vec3>): (r: Step)
    requires |p| == 2
    ensures !r.contained && 1 <= |r.points| && r.points[0] == p[1] && Dot(r.d, Neg(p[1])) >= 0.0
  {
    EdgeOrVertex(p[1], p[0])
  }

  /**
   * The triangle case. The points are stored oldest first, so A = p[2] is the
   * newest. When the origin is outside edge AC and in front of AC, only the
   * direction changes: all three points stay where they are.
   */
  function EvolveTriangle(p: seq<Vec3>): (r: Step)
    requires |p| == 3
    ensures !r.contained && 1 <= |r.points| <= 3
    ensures forall q :: q in r.points ==> q in p
  {
    var a, b, c := p[2], p[1], p[0];
    var ab, ac, ao := Sub(b, a), Sub(c, a), Neg(a);
    var abc := Cross(ab, ac);
    if Dot(Cross(abc, ac), ao) > 0.0 then
      if Dot(ac, ao) > 0.0 then Step(p, TripleCross(ac, ao, ac), false)
      else EdgeOrVertex(a, b)
    else if Dot(Cross(ab, abc), ao) > 0.0 then EdgeOrVertex(a, b)
    else if Dot(abc, ao) > 0.0 then Step([a, b, c], abc, false)
    else Step([a, c, b], Neg(abc), false)
  }

  /** n, flipped if it points towards `opposite`, the edge to the vertex not on the face. */
  function Orient(n: Vec3, opposite: Vec3): (r: Vec3)
    ensures r == n || r == Neg(n)
    ensures Dot(r, opposite) <= 0.0
  {
    if Dot(n, opposite) > 0.0 then Neg(n) else n
  }

  /** The outward normals of the faces ABC, ACD and ADB of the tetrahedron p, A = p[3] newest. */
  function FaceNormals(p: seq<Vec3>): (Vec3, Vec3, Vec3)
    requires |p| == 4
  {
    var a, b, c, d := p[3], p[2], p[1], p[0];
    var ab, ac, ad := Sub(b, a), Sub(c, a), Sub(d, a);
    (Orient(Cross(ab, ac), ad), Orient(Cross(ac, ad), ab), Orient(Cross(ad, ab), ac))
  }

  /** No face through the newest vertex faces the origin: the tetrahedron test succeeds. */
  predicate OriginBehindFaces(p: seq<Vec3>)
    requires |p| == 4
  {
    var ao := Neg(p[3]);
    var (abc, acd, adb) := FaceNormals(p);
    Dot(abc, ao) <= 0.0 && Dot(acd, ao) <= 0.0 && Dot(adb, ao) <= 0.0
  }

  /** The tetrahedron case: drop to the first face that faces the origin, or report containment. */
  function EvolveTetrahedron(p: seq<Vec3>, d: Vec3): (r: Step)
    requires |p| == 4
    ensures r.contained <==> OriginBehindFaces(p)
    ensures r.contained ==> r.points == p && r.d == d
    ensures !r.contained ==> |r.points| == 3 && r.points[0] == p[3]
  {
    var a, b, c, d' := p[3], p[2], p[1], p[0];
    var ao := Neg(a);
    var (abc, acd, adb) := FaceNormals(p);
    if Dot(abc, ao) > 0.0 then Step([a, b, c], abc, false)
    else if Dot(acd, ao) > 0.0 then Step([a, c, d'], acd, false)
    else if Dot(adb, ao) > 0.0 then Step([a, d', b], adb, false)
    else Step(p, d, true)
  }

  /**
   * `handleSimplex`: lengths 2, 3 and 4 are the line, triangle and
   * tetrahedron cases; every other length only logs an error and returns
   * false, leaving simplex and direction as they were.
   */
  function Evolve(p: seq<Vec3>, d: Vec3): (r: Step)
    ensures r.contained ==> |p| == 4
    ensures !(2 <= |p| <= 4) ==> r.points == p && r.d == d && !r.contained
  {
    if |p| == 2 then EvolveLine(p)
    else if |p| == 3 then EvolveTriangle(p)
    else if |p| == 4 then EvolveTetrahedron(p, d)
    else Step(p, d, false)
  }

  /**
   * The line case: the simplex becomes [A, B] with a direction perpendicular
   * to AB that does not point away from the origin when the origin is in
   * front of A along AB, and [A] with direction A->origin otherwise.
   */
  lemma {:induction false} LineCase(p: seq<Vec3>, d: Vec3)
    requires |p| == 2
    ensures var st := Evolve(p, d);
      var a, b := p[1], p[0];
      var ab, ao := Sub(b, a), Neg(a);
      && !st.contained
      && (Dot(ab, ao) > 0.0 ==>
            st.points == [a, b] && st.d == TripleCross(ab, ao, ab) && Dot(st.d, ab) == 0.0 && Dot(st.d, ao) >= 0.0)
      && (Dot(ab, ao) <= 0.0 ==> st.points == [a] && st.d == ao)
  {
    TripleCrossTowards(Sub(p[0], p[1]), Neg(p[1]));
  }

  /** The triangle keeps all three points, only turning the direction, exactly in this region. */
  predicate KeepsTriangle(p: seq<Vec3>)
    requires |p| == 3
  {
    var a, c := p[2], p[0];
    var ab, ac, ao := Sub(p[1], a), Sub(c, a), Neg(a);
    Dot(Cross(Cross(ab, ac), ac), ao) > 0.0 && Dot(ac, ao) > 0.0
  }

  /**
   * The triangle case never reports containment. Outside the keep region the
   * newest point A moves to the front and the simplex becomes [A], [A, B],
   * [A, B, C] with direction ABC, or [A, C, B] with direction -ABC; in every
   * case the direction does not point away from the origin as seen from A.
   */
  lemma {:induction false} TriangleCase(p: seq<Vec3>, d: Vec3)
    requires |p| == 3
    ensures var st := Evolve(p, d);
      var a, b, c := p[2], p[1], p[0];
      var ao := Neg(a);
      var abc := Cross(Sub(b, a), Sub(c, a));
      && !st.contained
      && Dot(st.d, ao) >= 0.0
      && (KeepsTriangle(p) ==> st.points == p && Dot(st.d, Sub(c, a)) == 0.0)
      && (!KeepsTriangle(p) ==>
            || st.points == [a]
            || st.points == [a, b]
            || (st.points == [a, b, c] && st.d == abc && Dot(abc, ao) > 0.0)
            || (st.points == [a, c, b] && st.d == Neg(abc) && Dot(abc, ao) <= 0.0))
  {
    var a, b, c := p[2], p[1], p[0];
    TripleCrossTowards(Sub(c, a), Neg(a));
    TripleCrossTowards(Sub(b, a), Neg(a));
    DotSelfNonNegative(Neg(a));
    DotNeg(Cross(Sub(b, a), Sub(c, a)), Neg(a));
  }

  /**
   * The tetrahedron case: every face normal is oriented away from the opposite
   * vertex; the origin is reported enclosed exactly when none of the three
   * faces through A faces it, and otherwise the simplex becomes the first
   * facing face in the order ABC, ACD, ADB with that face's normal as direction.
   */
  lemma {:induction false} TetrahedronCase(p: seq<Vec3>, d: Vec3)
    requires |p| == 4
    ensures var st := Evolve(p, d);
      var a, b, c, d' := p[3], p[2], p[1], p[0];
      var ao := Neg(a);
      var (abc, acd, adb) := FaceNormals(p);
      && Dot(abc, Sub(d', a)) <= 0.0 && Dot(acd, Sub(b, a)) <= 0.0 && Dot(adb, Sub(c, a)) <= 0.0
      && (st.contained <==> OriginBehindFaces(p))
      && (st.contained ==> st.points == p && st.d == d)
      && (Dot(abc, ao) > 0.0 ==> st.points == [a, b, c] && st.d == abc)
      && (Dot(abc, ao) <= 0.0 && Dot(acd, ao) > 0.0 ==> st.points == [a, c, d'] && st.d == acd)
      && (Dot(abc, ao) <= 0.0 && Dot(acd, ao) <= 0.0 && Dot(adb, ao) > 0.0 ==> st.points == [a, d', b] && st.d == adb)
      && (!st.contained ==> Dot(st.d, ao) > 0.0)
  {
  }

  /**
   * What the driver relies on: containment is only reported for a
   * tetrahedron, which is then left untouched; otherwise 1 to 3 points remain,
   * all taken from the input, and, except for the kept triangle, the newest
   * point is first.
   */
  lemma {:induction false} EvolveShape(p: seq<Vec3>, d: Vec3)
    requires 2 <= |p| <= 4
    ensures var st := Evolve(p, d);
      && (st.contained ==> |p| == 4 && st.points == p && st.d == d)
      && (!st.contained ==> 1 <= |st.points| <= 3 && |st.points| <= |p|)
      && (forall q :: q in st.points ==> q in p)
      && (st.contained || st.points[0] == p[|p| - 1] || (|p| == 3 && KeepsTriangle(p) && st.points == p))
  {
    if |p| == 3 {
      TriangleCase(p, d);
    } else if |p| == 4 {
      TetrahedronCase(p, d);
    }
  }

  /** Every non-final step turns the search towards the origin as seen from the newest point. */
  lemma {:induction false} EvolveTowardsOrigin(p: seq<Vec3>, d: Vec3)
    requires 2 <= |p| <= 4
    ensures var st := Evolve(p, d);
      !st.contained ==> Dot(st.d, Neg(p[|p| - 1])) >= 0.0
  {
    if |p| == 2 {
      LineCase(p, d);
      DotSelfNonNegative(Neg(p[1]));
    } else if |p| == 3 {
      TriangleCase(p, d);
    } else {
      TetrahedronCase(p, d);
    }
  }

  /** Only the tetrahedron case reads the incoming direction, and it keeps it only when it reports containment. */
  lemma {:induction false} EvolveIgnoresDirection(p: seq<Vec3>, d1: Vec3, d2: Vec3)
    requires 2 <= |p| <= 3
    ensures Evolve(p, d1) == Evolve(p, d2)
  {
  }

  // ---------------------------------------------------------------------
  // The mutable simplex

  /** The `points` array and the direction `d` that `gjk3d` and `handleSimplex` update in place. */
  class Simplex {
    var points: seq<Vec3>
    var d: Vec3

    /** `const points = [S]` together with the initial direction. */
    constructor (first: Vec3, dir: Vec3)
      ensures points == [first] && d == dir
    {
      points := [first];
      d := dir;
    }

    method Push(p: Vec3)
      modifies this
      ensures points == old(points) + [p] && d == old(d)
    {
      points := points + [p];
    }

    /** `setArr`: shift every element out, then push the arguments in order. */
    method SetArr(args: seq<Vec3>)
      modifies this
      ensures points == args && d == old(d)
    {
      while |points| > 0
        invariant d == old(d)
        decreases |points|
      {
        points := points[1..];
      }
      points := points + args;
    }

    /** `STAR`, the branch shared by the line and triangle cases. */
    method ToEdgeOrVertex(a: Vec3, b: Vec3)
      modifies this
      ensures Step(points, d, false) == EdgeOrVertex(a, b)
    {
      var ab := Sub(b, a);
      var ao := Neg(a);
      if Dot(ab, ao) > 0.0 {
        var t := TripleCross(ab, ao, ab);
        SetArr([a, b]);
        d := t;
      } else {
        SetArr([a]);
        d := ao;
      }
    }

    /** `handleSimplex`. */
    method HandleSimplex() returns (contained: bool)
      modifies this
      ensures Step(points, d, contained) == Evolve(old(points), old(d))
    {
      var n := |points|;
      if n == 2 {
        ToEdgeOrVertex(points[1], points[0]);
        return false;
      } else if n == 3 {
        var a, b, c := points[2], points[1], points[0];
        var ab, ac, ao := Sub(b, a), Sub(c, a), Neg(a);
        var abc := Cross(ab, ac);
        if Dot(Cross(abc, ac), ao) > 0.0 {
          if Dot(ac, ao) > 0.0 {
            d := TripleCross(ac, ao, ac);
          } else {
            ToEdgeOrVertex(a, b);
          }
        } else if Dot(Cross(ab, abc), ao) > 0.0 {
          ToEdgeOrVertex(a, b);
        } else if Dot(abc, ao) > 0.0 {
          SetArr([a, b, c]);
          d := abc;
        } else {
          SetArr([a, c, b]);
          d := Neg(abc);
        }
        return false;
      } else if n == 4 {
        var a, b, c, d' := points[3], points[2], points[1], points[0];
        var ab, ac, ad, ao := Sub(b, a), Sub(c, a), Sub(d', a), Neg(a);
        var abc := Cross(ab, ac);
        var acd := Cross(ac, ad);
        var adb := Cross(ad, ab);
        if Dot(abc, ad) > 0.0 { abc := Neg(abc); }
        if Dot(abc, ao) > 0.0 {
          SetArr([a, b, c]);
          d := abc;
          return false;
        }
        if Dot(acd, ab) > 0.0 { acd := Neg(acd); }
        if Dot(acd, ao) > 0.0 {
          SetArr([a, c, d']);
          d := acd;
          return false;
        }
        if Dot(adb, ac) > 0.0 { adb := Neg(adb); }
        if Dot(adb, ao) > 0.0 {
          SetArr([a, d', b]);
          d := adb;
          return false;
        }
        return true;
      }
      // lengths 0, 1, 5 and 6 log an error; no other length matches a case
      return false;
    }
  }

  // ---------------------------------------------------------------------
  // The driver

  /** The loop of `gjk3d` from iteration i on, with the given simplex and direction. */
  function Run(s1: seq<real>, s2: seq<real>, points: seq<Vec3>, d: Vec3, i: nat): (r: bool)
    requires IsPointSet(s1) && IsPointSet(s2)
    ensures r ==> i < MaxIterations
    decreases MaxIterations - i, 1
  {
    if i >= MaxIterations then false else RunTurn(s1, s2, points, d, i)
  }

  /** Turn i of that loop: the support point, the exit when it lies behind the origin, and `handleSimplex`. */
  function RunTurn(s1: seq<real>, s2: seq<real>, points: seq<Vec3>, d: Vec3, i: nat): bool
    requires IsPointSet(s1) && IsPointSet(s2) && i < MaxIterations
    decreases MaxIterations - i, 0
  {
    var a := Support(s1, s2, d);
    if Dot(a, d) < 0.0 then false
    else
      var st := Evolve(points + [a], d);
      if st.contained then true else Run(s1, s2, st.points, st.d, i + 1)
  }

  /** The simplex the loop of `gjk3d` holds when it stops, following `Run` turn by turn. */
  function RunSimplex(s1: seq<real>, s2: seq<real>, points: seq<Vec3>, d: Vec3, i: nat): seq<Vec3>
    requires IsPointSet(s1) && IsPointSet(s2)
    decreases MaxIterations - i, 1
  {
    if i >= MaxIterations then points else TurnSimplex(s1, s2, points, d, i)
  }

  /** The simplex after turn i, following `RunTurn`. */
  function TurnSimplex(s1: seq<real>, s2: seq<real>, points: seq<Vec3>, d: Vec3, i: nat): seq<Vec3>
    requires IsPointSet(s1) && IsPointSet(s2) && i < MaxIterations
    decreases MaxIterations - i, 0
  {
    var a := Support(s1, s2, d);
    if Dot(a, d) < 0.0 then points
    else
      var st := Evolve(points + [a], d);
      if st.contained then st.points else RunSimplex(s1, s2, st.points, st.d, i + 1)
  }

  /**
   * The answer of `gjk3d`, with `vec3.normalize` of the first direction taken
   * as multiplication by the positive factor `scale`.
   *
   * An empty point list is answered false. There `farthestPoint` reads `s[0]`
   * of an empty array, so every support point and direction is NaN; no
   * comparison with NaN holds, so the `dot(A, d) < 0` exit is never taken,
   * every `handleSimplex` call takes the line case's else branch, and the
   * loop runs out after 64 turns and returns false.
   */
  function GjkOutcome(s1: seq<real>, s2: seq<real>, scale: real): (r: bool)
    ensures |s1| % 3 != 0 || |s2| % 3 != 0 ==> !r
    ensures |s1| == 0 || |s2| == 0 ==> !r
  {
    if |s1| % 3 != 0 || |s2| % 3 != 0 then false
    else if |s1| == 0 || |s2| == 0 then false
    else
      var s := Support(s1, s2, Vec3(1.0, 0.0, 0.0));
      Run(s1, s2, [s], Scale(Neg(s), scale), 0)
  }

  /** The simplex `gjk3d` holds when it stops; empty when it returns before building one. */
  function GjkSimplex(s1: seq<real>, s2: seq<real>, scale: real): seq<Vec3> {
    if |s1| % 3 != 0 || |s2| % 3 != 0 || |s1| == 0 || |s2| == 0 then []
    else
      var s := Support(s1, s2, Vec3(1.0, 0.0, 0.0));
      RunSimplex(s1, s2, [s], Scale(Neg(s), scale), 0)
  }

  /**
   * `gjk3d`. `scale` stands for the factor 1/|S| by which `vec3.normalize`
   * multiplies the first direction -S (any positive value when S is zero,
   * which leaves the direction zero); `GjkScaleFree` shows the answer does
   * not depend on it.
   */
  method Gjk3d(s1: seq<real>, s2: seq<real>, scale: real) returns (r: bool, ghost final: seq<Vec3>)
    requires scale > 0.0
    ensures r == GjkOutcome(s1, s2, scale)
    ensures final == GjkSimplex(s1, s2, scale)
    ensures AllMinkowski(s1, s2, final)
    ensures r ==> |final| == 4 && OriginBehindFaces(final)
  {
    if |s1| % 3 != 0 || |s2| % 3 != 0 {
      return false, [];
    }
    if |s1| == 0 || |s2| == 0 {
      // the NaN run described at GjkOutcome
      return false, [];
    }
    var d := Vec3(1.0, 0.0, 0.0);
    var s := SupportPoint(s1, s2, d);
    var simplex := new Simplex(s, Scale(Neg(s), scale));
    for i := 0 to MaxIterations
      invariant 1 <= |simplex.points| <= 3
      invariant AllMinkowski(s1, s2, simplex.points)
      invariant Run(s1, s2, simplex.points, simplex.d, i) == GjkOutcome(s1, s2, scale)
      invariant RunSimplex(s1, s2, simplex.points, simplex.d, i) == GjkSimplex(s1, s2, scale)
    {
      var a := SupportPoint(s1, s2, simplex.d);
      if Dot(a, simplex.d) < 0.0 {
        return false, simplex.points;
      }
      ghost var before, dir := simplex.points, simplex.d;
      simplex.Push(a);
      assert AllMinkowski(s1, s2, simplex.points);
      ghost var pushed := simplex.points;
      var contained := simplex.HandleSimplex();
      RunAdvance(s1, s2, before, dir, i, Step(simplex.points, simplex.d, contained));
      EvolveShape(pushed, dir);
      if contained {
        RunTrueMeansEnclosing(s1, s2, before, dir, i);
        return true, simplex.points;
      }
    }
    return false, simplex.points;
  }

  /** One turn of the driver loop, as `Run` sees it. */
  lemma {:induction false} RunAdvance(s1: seq<real>, s2: seq<real>, points: seq<Vec3>, d: Vec3, i: nat, st: Step)
    requires IsPointSet(s1) && IsPointSet(s2)
    requires 1 <= |points| <= 3 && i < MaxIterations
    requires Dot(Support(s1, s2, d), d) >= 0.0
    requires st == Evolve(points + [Support(s1, s2, d)], d)
    ensures st.contained ==> Run(s1, s2, points, d, i) && RunSimplex(s1, s2, points, d, i) == st.points
    ensures !st.contained ==> 1 <= |st.points| <= 3 && Run(s1, s2, st.points, st.d, i + 1) == Run(s1, s2, points, d, i)
    ensures !st.contained ==> RunSimplex(s1, s2, st.points, st.d, i + 1) == RunSimplex(s1, s2, points, d, i)
  {
    EvolveShape(points + [Support(s1, s2, d)], d);
  }

  /** The answer does not depend on the factor standing for `vec3.normalize`. */
  lemma {:induction false} GjkScaleFree(s1: seq<real>, s2: seq<real>, k1: real, k2: real)
    requires k1 > 0.0 && k2 > 0.0
    ensures GjkOutcome(s1, s2, k1) == GjkOutcome(s1, s2, k2)
  {
    if |s1| % 3 == 0 && |s2| % 3 == 0 && |s1| > 0 && |s2| > 0 {
      var s := Support(s1, s2, Vec3(1.0, 0.0, 0.0));
      RunScaleFree(s1, s2, [s], Neg(s), k1);
      RunScaleFree(s1, s2, [s], Neg(s), k2);
    }
  }

  /** From a one-point simplex, scaling the direction by a positive factor does not change the run. */
  lemma {:induction false} RunScaleFree(s1: seq<real>, s2: seq<real>, points: seq<Vec3>, d: Vec3, c: real)
    requires IsPointSet(s1) && IsPointSet(s2) && |points| == 1 && c > 0.0
    ensures Run(s1, s2, points, Scale(d, c), 0) == Run(s1, s2, points, d, 0)
  {
    SupportScaleFree(s1, s2, d, c);
    var a := Support(s1, s2, d);
    ScaledComparison(a, a, d, c);
    EvolveIgnoresDirection(points + [a], Scale(d, c), d);
  }

  /** Every simplex the loop holds, and so the one it stops with, consists of Minkowski-difference points. */
  lemma {:induction false} RunKeepsMinkowski(s1: seq<real>, s2: seq<real>, points: seq<Vec3>, d: Vec3, i: nat)
    requires IsPointSet(s1) && IsPointSet(s2)
    requires 1 <= |points| <= 3 && AllMinkowski(s1, s2, points)
    ensures AllMinkowski(s1, s2, RunSimplex(s1, s2, points, d, i))
    decreases MaxIterations - i
  {
    if i >= MaxIterations || Dot(Support(s1, s2, d), d) < 0.0 {
      RunStops(s1, s2, points, d, i);
    } else {
      var st := OneTurn(s1, s2, points, d, i);
      if !st.contained {
        RunKeepsMinkowski(s1, s2, st.points, st.d, i + 1);
      }
    }
  }

  /**
   * Containment is only reported for the tetrahedron the loop holds at that
   * moment, and that tetrahedron passes the face test.
   */
  lemma {:induction false} RunTrueMeansEnclosing(s1: seq<real>, s2: seq<real>, points: seq<Vec3>, d: Vec3, i: nat)
    requires IsPointSet(s1) && IsPointSet(s2)
    requires 1 <= |points| <= 3
    ensures Run(s1, s2, points, d, i) ==>
      |RunSimplex(s1, s2, points, d, i)| == 4 && OriginBehindFaces(RunSimplex(s1, s2, points, d, i))
    decreases MaxIterations - i
  {
    if i >= MaxIterations || Dot(Support(s1, s2, d), d) < 0.0 {
      RunStops(s1, s2, points, d, i);
    } else {
      var st := OneTurn(s1, s2, points, d, i);
      if !st.contained {
        RunTrueMeansEnclosing(s1, s2, st.points, st.d, i + 1);
      }
    }
  }

  /** One turn of the loop that goes on: what it hands to the next turn, or the tetrahedron it stops with. */
  lemma {:induction false} OneTurn(s1: seq<real>, s2: seq<real>, points: seq<Vec3>, d: Vec3, i: nat) returns (st: Step)
    requires IsPointSet(s1) && IsPointSet(s2)
    requires 1 <= |points| <= 3
    requires i < MaxIterations && Dot(Support(s1, s2, d), d) >= 0.0
    ensures AllMinkowski(s1, s2, points) ==> AllMinkowski(s1, s2, st.points)
    ensures st.contained ==> Run(s1, s2, points, d, i) && RunSimplex(s1, s2, points, d, i) == st.points
    ensures st.contained ==> |st.points| == 4 && OriginBehindFaces(st.points)
    ensures !st.contained ==> 1 <= |st.points| <= 3 && Run(s1, s2, st.points, st.d, i + 1) == Run(s1, s2, points, d, i)
    ensures !st.contained ==> RunSimplex(s1, s2, st.points, st.d, i + 1) == RunSimplex(s1, s2, points, d, i)
  {
    st := Evolve(points + [Support(s1, s2, d)], d);
    if AllMinkowski(s1, s2, points) {
      EvolveKeepsMinkowski(s1, s2, points, d);
    }
    EvolveShape(points + [Support(s1, s2, d)], d);
    RunAdvance(s1, s2, points, d, i, st);
  }

  /** Past the cap, or on a support point behind the origin, the loop stops with its simplex and answers false. */
  lemma {:induction false} RunStops(s1: seq<real>, s2: seq<real>, points: seq<Vec3>, d: Vec3, i: nat)
    requires IsPointSet(s1) && IsPointSet(s2)
    requires i >= MaxIterations || Dot(Support(s1, s2, d), d) < 0.0
    ensures !Run(s1, s2, points, d, i) && RunSimplex(s1, s2, points, d, i) == points
  {
  }

  /** One turn keeps every simplex point a Minkowski-difference point. */
  lemma {:induction false} EvolveKeepsMinkowski(s1: seq<real>, s2: seq<real>, points: seq<Vec3>, d: Vec3)
    requires IsPointSet(s1) && IsPointSet(s2)
    requires 1 <= |points| <= 3 && AllMinkowski(s1, s2, points)
    ensures var st := Evolve(points + [Support(s1, s2, d)], d);
      && AllMinkowski(s1, s2, st.points)
      && (!st.contained ==> 1 <= |st.points| <= 3)
      && (st.contained ==> |st.points| == 4 && OriginBehindFaces(st.points))
  {
    var p := points + [Support(s1, s2, d)];
    SupportIsMaximal(s1, s2, d);
    assert AllMinkowski(s1, s2, p);
    EvolveShape(p, d);
  }


  /**
   * The simplex `gjk3d` stops with consists of Minkowski-difference points,
   * and when the answer is true it is the tetrahedron the last
   * `handleSimplex` call kept, with no face through the newest point facing
   * the origin.
   */
  lemma {:induction false} GjkTrueMeansEnclosing(s1: seq<real>, s2: seq<real>, scale: real)
    ensures AllMinkowski(s1, s2, GjkSimplex(s1, s2, scale))
    ensures GjkOutcome(s1, s2, scale) ==>
      var t := GjkSimplex(s1, s2, scale);
      |t| == 4 && OriginBehindFaces(t)
  {
    if |s1| % 3 == 0 && |s2| % 3 == 0 && |s1| > 0 && |s2| > 0 {
      var s := Support(s1, s2, Vec3(1.0, 0.0, 0.0));
      SupportIsMaximal(s1, s2, Vec3(1.0, 0.0, 0.0));
      assert AllMinkowski(s1, s2, [s]);
      RunKeepsMinkowski(s1, s2, [s], Scale(Neg(s), scale), 0);
      RunTrueMeansEnclosing(s1, s2, [s], Scale(Neg(s), scale), 0);
    }
  }
}
