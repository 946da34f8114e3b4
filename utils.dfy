/**
 * The geometric and index helpers of src/utils.ts: world-space transformation
 * of a vertex list, the ray/triangle test, `remap`, and the row-flipping copy
 * that `saveFrame` performs before handing the image to the canvas.
 */
module Utils {
  import opened Vectors
  import opened Wrappers

  /** A gl-matrix `mat4`: sixteen numbers in column-major order. */
  type Mat4 = m: seq<real> | |m| == 16
    witness [1.0, 0.0, 0.0, 0.0, 0.0, 1.0, 0.0, 0.0, 0.0, 0.0, 1.0, 0.0, 0.0, 0.0, 0.0, 1.0]

  const Identity: Mat4 := [1.0, 0.0, 0.0, 0.0, 0.0, 1.0, 0.0, 0.0, 0.0, 0.0, 1.0, 0.0, 0.0, 0.0, 0.0, 1.0]

  // ---------------------------------------------------------------------
  // transformVertices

  /**
   * The first three components of `vec4.transformMat4` applied to (p, 1): the
   * origin goes to the translation column m[12..15].
   */
  function TransformPoint(m: Mat4, p: Vec3): (r: Vec3)
    ensures p == Vec3(0.0, 0.0, 0.0) ==> r == Vec3(m[12], m[13], m[14])
  {
    Vec3(m[0] * p.x + m[4] * p.y + m[8] * p.z + m[12] * 1.0,
         m[1] * p.x + m[5] * p.y + m[9] * p.z + m[13] * 1.0,
         m[2] * p.x + m[6] * p.y + m[10] * p.z + m[14] * 1.0)
  }

  /** The world-space list: every triple of v through m, in order. */
  function Transformed(v: seq<real>, m: Mat4): (r: seq<real>)
    requires |v| % 3 == 0
    ensures |r| == |v|
  {
    if |v| == 0 then []
    else Transformed(v[..|v| - 3], m) + Flat(TransformPoint(m, Vec3(v[|v| - 3], v[|v| - 2], v[|v| - 1])))
  }

  /** Output triple k is input triple k through the matrix, and depends on nothing else. */
  lemma {:induction false} TransformedAt(v: seq<real>, m: Mat4, k: nat)
    requires |v| % 3 == 0 && 3 * k + 3 <= |v|
    ensures TripleAt(Transformed(v, m), k) == TransformPoint(m, TripleAt(v, k))
  {
    var n := |v| / 3;
    var prefix := v[..|v| - 3];
    if k < n - 1 {
      TransformedAt(prefix, m, k);
      assert TripleAt(prefix, k) == TripleAt(v, k);
      var r := Transformed(v, m);
      assert r[3 * k] == Transformed(prefix, m)[3 * k];
      assert r[3 * k + 1] == Transformed(prefix, m)[3 * k + 1];
      assert r[3 * k + 2] == Transformed(prefix, m)[3 * k + 2];
    }
  }

  /** The identity matrix leaves a vertex list unchanged. */
  lemma {:induction false} TransformedIdentity(v: seq<real>)
    requires |v| % 3 == 0
    ensures Transformed(v, Identity) == v
  {
    if |v| > 0 {
      var prefix := v[..|v| - 3];
      TransformedIdentity(prefix);
      var p := Vec3(v[|v| - 3], v[|v| - 2], v[|v| - 1]);
      assert TransformPoint(Identity, p) == p;
      assert Flat(p) == v[|v| - 3..];
      assert v == prefix + v[|v| - 3..];
    }
  }

  /** Any list whose every triple is the image of the matching input triple is the transformed list. */
  lemma {:induction false} TransformedByTriples(v: seq<real>, m: Mat4, out: seq<real>)
    requires |v| % 3 == 0 && |out| == |v|
    requires forall k: nat :: 3 * k + 3 <= |v| ==> TripleAt(out, k) == TransformPoint(m, TripleAt(v, k))
    ensures out == Transformed(v, m)
  {
    var r := Transformed(v, m);
    forall idx | 0 <= idx < |v|
      ensures out[idx] == r[idx]
    {
      var k: nat := idx / 3;
      TransformedAt(v, m, k);
      assert TripleAt(out, k) == TripleAt(r, k);
    }
  }

  /** `transformVertices`: a stride-3 loop that pushes each transformed triple. */
  method TransformVertices(vertices: seq<real>, model: Mat4) returns (out: seq<real>)
    requires |vertices| % 3 == 0
    ensures out == Transformed(vertices, model)
    ensures |out| == |vertices|
  {
    out := [];
    var i := 0;
    while i < |vertices|
      invariant 0 <= i <= |vertices| && i % 3 == 0 && |out| == i
      invariant forall k: nat :: 3 * k + 3 <= i ==> TripleAt(out, k) == TransformPoint(model, TripleAt(vertices, k))
    {
      var v4 := Vec3(vertices[i], vertices[i + 1], vertices[i + 2]);
      var res := TransformPoint(model, v4);
      out := out + [res.x, res.y, res.z];
      i := i + 3;
    }
    TransformedByTriples(vertices, model, out);
  }

  // ---------------------------------------------------------------------
  // rayTriangleIntersection

  datatype Ray = Ray(origin: Vec3, dir: Vec3)

  /** What a hit reports: the (unnormalised) triangle normal and the ray parameter. */
  datatype Hit = Hit(normal: Vec3, t: real)

  /** `EPSILON`, the parallel-ray threshold. */
  const Epsilon: real := 0.000001

  function Abs(r: real): real { if r < 0.0 then -r else r }

  /**
   * `vec3.transformMat4`: (p, 1) through m, divided by w, where a zero w counts
   * as 1. For an affine matrix (bottom row 0, 0, 0, 1) it agrees with the
   * w = 1 transform `transformVertices` uses.
   */
  function TransformCoord(m: Mat4, p: Vec3): (r: Vec3)
    ensures m[3] == 0.0 && m[7] == 0.0 && m[11] == 0.0 && m[15] == 1.0 ==> r == TransformPoint(m, p)
  {
    var w := m[3] * p.x + m[7] * p.y + m[11] * p.z + m[15];
    var w' := if w == 0.0 then 1.0 else w;
    Vec3((m[0] * p.x + m[4] * p.y + m[8] * p.z + m[12]) / w',
         (m[1] * p.x + m[5] * p.y + m[9] * p.z + m[13]) / w',
         (m[2] * p.x + m[6] * p.y + m[10] * p.z + m[14]) / w')
  }

  /** The three corners A, B, C of a nine-number triangle, transformed. */
  function Corners(triangle: seq<real>, m: Mat4): (Vec3, Vec3, Vec3)
    requires |triangle| == 9
  {
    (TransformCoord(m, TripleAt(triangle, 0)), TransformCoord(m, TripleAt(triangle, 1)), TransformCoord(m, TripleAt(triangle, 2)))
  }

  /** The normal AB x AC of a triangle. */
  function Normal(a: Vec3, b: Vec3, c: Vec3): Vec3 { Cross(Sub(b, a), Sub(c, a)) }

  /** The point p is on the inner side of the three directed edges AB, BC, CA (with respect to n). */
  predicate InsideEdges(n: Vec3, a: Vec3, b: Vec3, c: Vec3, p: Vec3) {
    && Dot(n, Cross(Sub(b, a), Sub(p, a))) >= 0.0
    && Dot(n, Cross(Sub(c, b), Sub(p, b))) >= 0.0
    && Dot(n, Cross(Sub(a, c), Sub(p, c))) >= 0.0
  }

  /**
   * `rayTriangleIntersection`. Malformed triangles and rays parallel to the
   * plane miss; a hit lies on the ray at t >= 0, on the triangle's plane, and
   * inside its three edges.
   */
  function RayTriangleIntersection(ray: Ray, triangle: seq<real>, transform: Mat4): (r: Option<Hit>)
    ensures |triangle| != 9 ==> r == None
    ensures |triangle| == 9 ==>
      var (a, b, c) := Corners(triangle, transform);
      var n := Normal(a, b, c);
      && (Abs(Dot(ray.dir, n)) < Epsilon ==> r == None)
      && (r.Some? ==>
            var p := ScaleAndAdd(ray.origin, ray.dir, r.value.t);
            && r.value.normal == n
            && r.value.t >= 0.0
            && Dot(Sub(p, a), n) == 0.0
            && InsideEdges(n, a, b, c, p))
  {
    if |triangle| != 9 then None
    else
      var (a, b, c) := Corners(triangle, transform);
      HitTriangle(ray, a, b, c)
  }

  /** The part of `rayTriangleIntersection` after the corners are transformed. */
  function HitTriangle(ray: Ray, a: Vec3, b: Vec3, c: Vec3): (r: Option<Hit>)
    ensures Abs(Dot(ray.dir, Normal(a, b, c))) < Epsilon ==> r == None
    ensures r.Some? ==>
      var n := Normal(a, b, c);
      var p := ScaleAndAdd(ray.origin, ray.dir, r.value.t);
      && r.value.normal == n
      && r.value.t >= 0.0
      && Dot(Sub(p, a), n) == 0.0
      && InsideEdges(n, a, b, c, p)
  {
    var n := Normal(a, b, c);
    var denom := Dot(ray.dir, n);
    if Abs(denom) < Epsilon then None
    else
      var t := Dot(Sub(a, ray.origin), n) / denom;
      if t < 0.0 then None
      else
        var p := ScaleAndAdd(ray.origin, ray.dir, t);
        if Dot(n, Cross(Sub(b, a), Sub(p, a))) < 0.0 then None
        else if Dot(n, Cross(Sub(c, b), Sub(p, b))) < 0.0 then None
        else if Dot(n, Cross(Sub(a, c), Sub(p, c))) < 0.0 then None
        else
          HitOnPlane(ray, a, n, t);
          Some(Hit(n, t))
  }

  /** The parameter the function computes puts the ray's point on the plane through a with normal n. */
  lemma {:induction false} HitOnPlane(ray: Ray, a: Vec3, n: Vec3, t: real)
    requires Dot(ray.dir, n) != 0.0
    requires t == Dot(Sub(a, ray.origin), n) / Dot(ray.dir, n)
    ensures Dot(Sub(ScaleAndAdd(ray.origin, ray.dir, t), a), n) == 0.0
  {
    DotAlongRay(ray.origin, ray.dir, t, a, n);
    DotSub(a, ray.origin, n);
    DotSub(ray.origin, a, n);
  }

  /** On a non-parallel ray, a point on the plane fixes the parameter: t is the quotient the function computes. */
  lemma {:induction false} PlaneParameter(ray: Ray, a: Vec3, n: Vec3, t: real)
    requires Dot(ray.dir, n) != 0.0
    requires Dot(Sub(ScaleAndAdd(ray.origin, ray.dir, t), a), n) == 0.0
    ensures t == Dot(Sub(a, ray.origin), n) / Dot(ray.dir, n)
  {
    DotAlongRay(ray.origin, ray.dir, t, a, n);
    DotSub(a, ray.origin, n);
    DotSub(ray.origin, a, n);
    DivideBack(t, Dot(ray.dir, n), Dot(Sub(a, ray.origin), n));
  }

  lemma {:induction false} DivideBack(t: real, d: real, x: real)
    requires d != 0.0 && t * d == x
    ensures t == x / d
  {
  }

  /** Whenever the ray meets the plane at some t >= 0 inside the three edges, HitTriangle reports exactly that hit. */
  lemma {:induction false} HitTriangleFinds(ray: Ray, a: Vec3, b: Vec3, c: Vec3, t: real)
    requires var n := Normal(a, b, c);
      && Abs(Dot(ray.dir, n)) >= Epsilon
      && t >= 0.0
      && Dot(Sub(ScaleAndAdd(ray.origin, ray.dir, t), a), n) == 0.0
      && InsideEdges(n, a, b, c, ScaleAndAdd(ray.origin, ray.dir, t))
    ensures HitTriangle(ray, a, b, c) == Some(Hit(Normal(a, b, c), t))
  {
    PlaneParameter(ray, a, Normal(a, b, c), t);
  }

  /**
   * The converse: whenever the ray meets the plane at some t >= 0 inside the
   * three edges of a non-parallel, well-formed triangle, the function reports
   * exactly that hit.
   */
  lemma {:induction false} RayTriangleFindsHit(ray: Ray, triangle: seq<real>, transform: Mat4, t: real)
    requires |triangle| == 9
    requires var (a, b, c) := Corners(triangle, transform);
      var n := Normal(a, b, c);
      && Abs(Dot(ray.dir, n)) >= Epsilon
      && t >= 0.0
      && Dot(Sub(ScaleAndAdd(ray.origin, ray.dir, t), a), n) == 0.0
      && InsideEdges(n, a, b, c, ScaleAndAdd(ray.origin, ray.dir, t))
    ensures var (a, b, c) := Corners(triangle, transform);
      RayTriangleIntersection(ray, triangle, transform) == Some(Hit(Normal(a, b, c), t))
  {
    var (a, b, c) := Corners(triangle, transform);
    HitTriangleFinds(ray, a, b, c, t);
  }

  // ---------------------------------------------------------------------
  // remap

  /** `remap`: the affine map sending inMin to outMin and inMax to outMax. */
  function Remap(v: real, inMin: real, inMax: real, outMin: real, outMax: real): (r: real)
    requires inMin != inMax
    ensures v == inMin ==> r == outMin
    ensures v == inMax ==> r == outMax
  {
    var t := (v - inMin) / (inMax - inMin);
    assert v == inMax ==> t == 1.0 by {
      if v == inMax {
        DivSelf(inMax - inMin);
      }
    }
    outMin + t * (outMax - outMin)
  }

  lemma {:induction false} DivSelf(d: real)
    requires d != 0.0
    ensures d / d == 1.0
  {
  }

  /** Remapping back with the ranges swapped recovers the input. */
  lemma {:induction false} RemapRoundTrip(v: real, inMin: real, inMax: real, outMin: real, outMax: real)
    requires inMin != inMax && outMin != outMax
    ensures Remap(Remap(v, inMin, inMax, outMin, outMax), outMin, outMax, inMin, inMax) == v
  {
    var t := (v - inMin) / (inMax - inMin);
    var r := outMin + t * (outMax - outMin);
    assert (r - outMin) / (outMax - outMin) == t;
    assert inMin + t * (inMax - inMin) == v;
  }

  /** Remap preserves affine combinations: it is affine in v. */
  lemma {:induction false} RemapAffine(v1: real, v2: real, s: real, inMin: real, inMax: real, outMin: real, outMax: real)
    requires inMin != inMax
    ensures Remap(s * v1 + (1.0 - s) * v2, inMin, inMax, outMin, outMax)
         == s * Remap(v1, inMin, inMax, outMin, outMax) + (1.0 - s) * Remap(v2, inMin, inMax, outMin, outMax)
  {
    var k := inMax - inMin;
    var t1, t2 := (v1 - inMin) / k, (v2 - inMin) / k;
    assert (s * v1 + (1.0 - s) * v2 - inMin) / k == s * t1 + (1.0 - s) * t2;
  }

  // ---------------------------------------------------------------------
  // The row flip inside saveFrame

  /** Byte offset of pixel (x, y) in a w-pixel-wide RGBA image. */
  function PixelOffset(w: nat, x: nat, y: nat): nat { (y * w + x) * 4 }

  /** Multiplication by a natural number is monotonic. */
  lemma {:induction false} MulMonotonic(a: nat, b: nat, w: nat)
    requires a <= b
    ensures a * w <= b * w
    decreases b - a
  {
    if a < b {
      MulMonotonic(a + 1, b, w);
      assert (a + 1) * w == a * w + w;
    }
  }

  /** Pixels are laid out in row-major order: an earlier pixel's four bytes end before a later one starts. */
  lemma {:induction false} PixelBefore(w: nat, x1: nat, y1: nat, x2: nat, y2: nat)
    requires x1 < w && x2 < w
    requires y1 < y2 || (y1 == y2 && x1 < x2)
    ensures PixelOffset(w, x1, y1) + 4 <= PixelOffset(w, x2, y2)
  {
    if y1 < y2 {
      MulMonotonic(y1 + 1, y2, w);
      assert (y1 + 1) * w == y1 * w + w;
    }
  }

  /** Every pixel of a w x h image lies inside its w * h * 4 bytes. */
  lemma {:induction false} PixelInside(w: nat, h: nat, x: nat, y: nat)
    requires x < w && y < h
    ensures PixelOffset(w, x, y) + 4 <= w * h * 4
  {
    MulMonotonic(y + 1, h, w);
    assert (y + 1) * w == y * w + w;
    assert h * w == w * h;
  }

  /** Distinct pixels occupy disjoint bytes, so each destination pixel is written once. */
  lemma {:induction false} PixelsDisjoint(w: nat, x1: nat, y1: nat, x2: nat, y2: nat)
    requires x1 < w && x2 < w && (x1, y1) != (x2, y2)
    ensures PixelOffset(w, x1, y1) + 4 <= PixelOffset(w, x2, y2) || PixelOffset(w, x2, y2) + 4 <= PixelOffset(w, x1, y1)
  {
    if y1 < y2 || (y1 == y2 && x1 < x2) {
      PixelBefore(w, x1, y1, x2, y2);
    } else {
      PixelBefore(w, x2, y2, x1, y1);
    }
  }

  /** A four-byte window that avoids the four bytes at dst reads the same in two images that differ only there. */
  lemma {:induction false} SliceOutside(a: seq<bv8>, b: seq<bv8>, lo: nat, dst: nat)
    requires |a| == |b| && lo + 4 <= |a|
    requires forall k :: 0 <= k < |a| && (k < dst || dst + 4 <= k) ==> a[k] == b[k]
    requires lo + 4 <= dst || dst + 4 <= lo
    ensures a[lo..lo + 4] == b[lo..lo + 4]
  {
  }

  /** Rewriting the four bytes of pixel (x, y) leaves every other pixel as it was. */
  lemma {:induction false} OtherPixelsKept(a: seq<bv8>, b: seq<bv8>, w: nat, h: nat, x: nat, y: nat)
    requires |a| == w * h * 4 && |b| == w * h * 4 && x < w && y < h
    requires forall k :: 0 <= k < |a| && (k < PixelOffset(w, x, y) || PixelOffset(w, x, y) + 4 <= k) ==> a[k] == b[k]
    ensures forall xx: nat, yy: nat :: xx < w && yy < h && (xx, yy) != (x, y) ==>
      Pixel(a, w, h, xx, yy) == Pixel(b, w, h, xx, yy)
  {
    forall xx: nat, yy: nat | xx < w && yy < h && (xx, yy) != (x, y)
      ensures Pixel(a, w, h, xx, yy) == Pixel(b, w, h, xx, yy)
    {
      PixelsDisjoint(w, xx, yy, x, y);
      PixelInside(w, h, xx, yy);
      SliceOutside(a, b, PixelOffset(w, xx, yy), PixelOffset(w, x, y));
    }
  }

  /** The four RGBA bytes of pixel (x, y). */
  function Pixel(img: seq<bv8>, w: nat, h: nat, x: nat, y: nat): seq<bv8>
    requires |img| == w * h * 4 && x < w && y < h
  {
    PixelInside(w, h, x, y);
    img[PixelOffset(w, x, y)..PixelOffset(w, x, y) + 4]
  }

  /**
   * The copy loop of `saveFrame`: destination pixel (x, y) receives the four
   * bytes of source pixel (x, h - 1 - y), turning the bottom-up rows of
   * `readPixels` into the top-down rows of an image.
   */
  method FlipRows(pixels: array<bv8>, w: nat, h: nat) returns (data: array<bv8>)
    requires pixels.Length == w * h * 4
    ensures data.Length == w * h * 4
    ensures forall x: nat, y: nat :: x < w && y < h ==>
      Pixel(data[..], w, h, x, y) == Pixel(pixels[..], w, h, x, h - 1 - y)
  {
    data := new bv8[w * h * 4](_ => 0);
    for y := 0 to h
      invariant forall xx: nat, yy: nat :: xx < w && yy < y ==>
        Pixel(data[..], w, h, xx, yy) == Pixel(pixels[..], w, h, xx, h - 1 - yy)
    {
      for x := 0 to w
        invariant forall xx: nat, yy: nat :: xx < w && yy < y ==>
          Pixel(data[..], w, h, xx, yy) == Pixel(pixels[..], w, h, xx, h - 1 - yy)
        invariant forall xx: nat :: xx < x ==>
          Pixel(data[..], w, h, xx, y) == Pixel(pixels[..], w, h, xx, h - 1 - y)
      {
        CopyPixel(pixels, data, w, h, x, y);
      }
    }
  }

  /** `img.data.set(pixels.subarray(src, src + 4), dst)` for one pixel. */
  method CopyPixel(pixels: array<bv8>, data: array<bv8>, w: nat, h: nat, x: nat, y: nat)
    requires pixels.Length == w * h * 4 && data.Length == w * h * 4 && pixels != data
    requires x < w && y < h
    modifies data
    ensures Pixel(data[..], w, h, x, y) == Pixel(pixels[..], w, h, x, h - 1 - y)
    ensures forall xx: nat, yy: nat :: xx < w && yy < h && (xx, yy) != (x, y) ==>
      Pixel(data[..], w, h, xx, yy) == Pixel(old(data[..]), w, h, xx, yy)
  {
    var src := PixelOffset(w, x, h - y - 1);
    var dst := PixelOffset(w, x, y);
    PixelInside(w, h, x, h - y - 1);
    PixelInside(w, h, x, y);
    ghost var before := data[..];
    data[dst], data[dst + 1], data[dst + 2], data[dst + 3] := pixels[src], pixels[src + 1], pixels[src + 2], pixels[src + 3];
    assert data[dst..dst + 4] == pixels[src..src + 4];
    assert forall k :: 0 <= k < data.Length && (k < dst || dst + 4 <= k) ==> data[k] == before[k];
    OtherPixelsKept(data[..], before, w, h, x, y);
  }
}
