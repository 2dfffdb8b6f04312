/** The triangle–triangle test (core/collision/triangle.js): two triangles
    intersect when a vertex of one lies inside the other, "inside" being
    decided by barycentric coordinates in the other triangle's plane. */
module Triangle {
  import opened Numbers
  import opened Vectors

  /** The tolerance of the degeneracy test and of the barycentric bounds. */
  const Eps: real := 1.0e-9

  datatype Tri = Tri(a: Vec3, b: Vec3, c: Vec3)

  function Vertices(t: Tri): seq<Vec3> {
    [t.a, t.b, t.c]
  }

  /** The two edge vectors the test measures from vertex `a`. */
  function EdgeC(t: Tri): Vec3 { Sub(t.c, t.a) }
  function EdgeB(t: Tri): Vec3 { Sub(t.b, t.a) }

  /** The Gram determinant of the two edges: zero exactly when the triangle
      is degenerate (`CollinearHasNoArea`). */
  function Denom(t: Tri): real {
    Dot(EdgeC(t), EdgeC(t)) * Dot(EdgeB(t), EdgeB(t)) - Dot(EdgeC(t), EdgeB(t)) * Dot(EdgeC(t), EdgeB(t))
  }

  /** The barycentric test on the five dot products `pointInTri3D` forms:
      `d00 = v0.v0`, `d01 = v0.v1`, `d11 = v1.v1`, `d20 = v2.v0` and
      `d21 = v2.v1`, where `v0`, `v1` are the edges from `a` to `c` and to
      `b` and `v2` runs from `a` to the point. A determinant below `Eps` in
      magnitude means a degenerate triangle, which contains nothing;
      otherwise the weights `u`, `v`, `w` of `a`, `c`, `b` must all be at
      least `-Eps`. */
  predicate InsideFromDots(d00: real, d01: real, d11: real, d20: real, d21: real)
    ensures InsideFromDots(d00, d01, d11, d20, d21) ==> Abs(d00 * d11 - d01 * d01) >= Eps
  {
    var denom := d00 * d11 - d01 * d01;
    if Abs(denom) < Eps then false
    else
      var v := (d11 * d20 - d01 * d21) / denom;
      var w := (d00 * d21 - d01 * d20) / denom;
      var u := 1.0 - v - w;
      u >= -Eps && v >= -Eps && w >= -Eps
  }

  /** `pointInTri3D`. A degenerate triangle contains no point. */
  predicate PointInTri(p: Vec3, t: Tri)
    ensures PointInTri(p, t) ==> Abs(Denom(t)) >= Eps
  {
    var v0, v1, v2 := EdgeC(t), EdgeB(t), Sub(p, t.a);
    assert Denom(t) == Dot(v0, v0) * Dot(v1, v1) - Dot(v0, v1) * Dot(v0, v1);
    InsideFromDots(Dot(v0, v0), Dot(v0, v1), Dot(v1, v1), Dot(v2, v0), Dot(v2, v1))
  }

  /** `triangleTriangleIntersect`: some vertex of `ta` lies in `tb`, or some
      vertex of `tb` lies in `ta`, checked in vertex order. */
  function TriangleTriangleIntersect(ta: Tri, tb: Tri): (r: bool)
    ensures r <==> (exists p :: p in Vertices(ta) && PointInTri(p, tb))
                   || (exists p :: p in Vertices(tb) && PointInTri(p, ta))
  {
    assert ta.a in Vertices(ta) && ta.b in Vertices(ta) && ta.c in Vertices(ta);
    assert tb.a in Vertices(tb) && tb.b in Vertices(tb) && tb.c in Vertices(tb);
    (PointInTri(ta.a, tb) || PointInTri(ta.b, tb) || PointInTri(ta.c, tb))
    || (PointInTri(tb.a, ta) || PointInTri(tb.b, ta) || PointInTri(tb.c, ta))
  }

  /** The test does not depend on the order of its arguments. */
  lemma IntersectSymmetric(ta: Tri, tb: Tri)
    ensures TriangleTriangleIntersect(ta, tb) == TriangleTriangleIntersect(tb, ta)
  {
  }

  /** Lagrange's identity: the Gram determinant of two vectors is the squared
      length of their cross product. */
  lemma Lagrange(x: Vec3, y: Vec3)
    ensures Dot(x, x) * Dot(y, y) - Dot(x, y) * Dot(x, y) == Dot(Cross(x, y), Cross(x, y))
  {
  }

  /** A triangle whose edges are parallel (its vertices are collinear, or two
      of them coincide) has determinant zero and so contains no point. */
  lemma CollinearHasNoArea(t: Tri, p: Vec3)
    requires Cross(EdgeC(t), EdgeB(t)) == Zero
    ensures Denom(t) == 0.0
    ensures !PointInTri(p, t)
  {
    Lagrange(EdgeC(t), EdgeB(t));
  }

  /** A cross product is orthogonal to both of its factors. */
  lemma CrossOrthogonal(x: Vec3, y: Vec3)
    ensures Dot(Cross(x, y), x) == 0.0 && Dot(Cross(x, y), y) == 0.0
  {
  }

  /** The test projects onto the triangle's plane: moving `p` along the
      triangle's normal, by any amount, does not change the answer. */
  lemma NormalShiftInvariant(t: Tri, p: Vec3, k: real)
    ensures PointInTri(Add(p, Scale(Cross(EdgeC(t), EdgeB(t)), k)), t) == PointInTri(p, t)
  {
    var n := Cross(EdgeC(t), EdgeB(t));
    var q := Add(p, Scale(n, k));
    CrossOrthogonal(EdgeC(t), EdgeB(t));
    assert Dot(Sub(q, t.a), EdgeC(t)) == Dot(Sub(p, t.a), EdgeC(t)) + k * Dot(n, EdgeC(t));
    assert Dot(Sub(q, t.a), EdgeB(t)) == Dot(Sub(p, t.a), EdgeB(t)) + k * Dot(n, EdgeB(t));
  }

  /** In barycentric terms the three vertices are (1,0,0), (0,0,1) and
      (0,1,0): for `a` the point vector is zero, for `b` it is `v1`, for `c`
      it is `v0`. */
  lemma VertexWeights(d00: real, d01: real, d11: real)
    requires Abs(d00 * d11 - d01 * d01) >= Eps
    ensures InsideFromDots(d00, d01, d11, 0.0, 0.0)
    ensures InsideFromDots(d00, d01, d11, d01, d11)
    ensures InsideFromDots(d00, d01, d11, d00, d01)
  {
    var denom := d00 * d11 - d01 * d01;
    assert denom != 0.0;
    assert (d11 * d01 - d01 * d11) / denom == 0.0;
    assert (d00 * d11 - d01 * d01) / denom == 1.0;
    assert (d11 * d00 - d01 * d01) / denom == 1.0;
    assert (d00 * d01 - d01 * d00) / denom == 0.0;
  }

  /** Every vertex of a non-degenerate triangle lies inside it. */
  lemma VerticesInside(t: Tri)
    requires Abs(Denom(t)) >= Eps
    ensures PointInTri(t.a, t) && PointInTri(t.b, t) && PointInTri(t.c, t)
  {
    var v0, v1 := EdgeC(t), EdgeB(t);
    var d00, d01, d11 := Dot(v0, v0), Dot(v0, v1), Dot(v1, v1);
    assert Denom(t) == d00 * d11 - d01 * d01;
    assert Abs(d00 * d11 - d01 * d01) >= Eps;
    VertexWeights(d00, d01, d11);
    assert Sub(t.a, t.a) == Zero;
    PointInTriDots(t.a, t, d00, d01, d11, 0.0, 0.0);
    assert Sub(t.b, t.a) == v1;
    PointInTriDots(t.b, t, d00, d01, d11, d01, d11);
    assert Sub(t.c, t.a) == v0;
    PointInTriDots(t.c, t, d00, d01, d11, d00, d01);
  }

  /** So a non-degenerate triangle intersects itself. */
  lemma IntersectsItself(t: Tri)
    requires Abs(Denom(t)) >= Eps
    ensures TriangleTriangleIntersect(t, t)
  {
    VerticesInside(t);
  }

  /** The test as `PointInTri` applies it, once the five dot products are
      known. */
  lemma PointInTriDots(p: Vec3, t: Tri, d00: real, d01: real, d11: real, d20: real, d21: real)
    requires Dot(EdgeC(t), EdgeC(t)) == d00 && Dot(EdgeC(t), EdgeB(t)) == d01
    requires Dot(EdgeB(t), EdgeB(t)) == d11
    requires Dot(Sub(p, t.a), EdgeC(t)) == d20 && Dot(Sub(p, t.a), EdgeB(t)) == d21
    ensures PointInTri(p, t) == InsideFromDots(d00, d01, d11, d20, d21)
  {
  }

  /** For orthonormal edges the weights are the point's two offsets and one
      minus their sum. */
  lemma OrthonormalWeights(d20: real, d21: real)
    ensures InsideFromDots(1.0, 0.0, 1.0, d20, d21)
            == (d20 >= -Eps && d21 >= -Eps && 1.0 - d20 - d21 >= -Eps)
  {
  }

  /** A triangle whose edges from `a` are the unit vectors along Y and X:
      a point is inside it when its offsets from `a` along Y and X are,
      within `Eps`, non-negative with a sum of at most one. */
  lemma UnitTriangle(t: Tri, p: Vec3)
    requires EdgeC(t) == Vec3(0.0, 1.0, 0.0) && EdgeB(t) == Vec3(1.0, 0.0, 0.0)
    ensures PointInTri(p, t)
            == (p.y - t.a.y >= -Eps && p.x - t.a.x >= -Eps
                && 1.0 - (p.y - t.a.y) - (p.x - t.a.x) >= -Eps)
  {
    var v2 := Sub(p, t.a);
    assert Dot(v2, Vec3(0.0, 1.0, 0.0)) == p.y - t.a.y;
    assert Dot(v2, Vec3(1.0, 0.0, 0.0)) == p.x - t.a.x;
    PointInTriDots(p, t, 1.0, 0.0, 1.0, p.y - t.a.y, p.x - t.a.x);
    OrthonormalWeights(p.y - t.a.y, p.x - t.a.x);
  }

  /** Two unit right triangles in the plane z = 0, the second moved by
      (0.2, 0.2): the second's corner (0.2, 0.2, 0) lies inside the first. */
  lemma OverlappingExample()
    ensures TriangleTriangleIntersect(
              Tri(Vec3(0.0, 0.0, 0.0), Vec3(1.0, 0.0, 0.0), Vec3(0.0, 1.0, 0.0)),
              Tri(Vec3(0.2, 0.2, 0.0), Vec3(1.2, 0.2, 0.0), Vec3(0.2, 1.2, 0.0)))
  {
    var ta := Tri(Vec3(0.0, 0.0, 0.0), Vec3(1.0, 0.0, 0.0), Vec3(0.0, 1.0, 0.0));
    var tb := Tri(Vec3(0.2, 0.2, 0.0), Vec3(1.2, 0.2, 0.0), Vec3(0.2, 1.2, 0.0));
    assert EdgeC(ta) == Vec3(0.0, 1.0, 0.0) && EdgeB(ta) == Vec3(1.0, 0.0, 0.0);
    UnitTriangle(ta, tb.a);
    assert PointInTri(tb.a, ta);
  }

  /** Two triangles whose edges from `a` are the unit vectors along Y and
      X, the second's corner at least two units further along both X and Y
      (the unit triangle at the origin and its copy moved by (5, 5), say):
      neither has a vertex inside the other, so they do not intersect. */
  lemma SeparatedExample(ta: Tri, tb: Tri)
    requires EdgeC(ta) == Vec3(0.0, 1.0, 0.0) && EdgeB(ta) == Vec3(1.0, 0.0, 0.0)
    requires EdgeC(tb) == Vec3(0.0, 1.0, 0.0) && EdgeB(tb) == Vec3(1.0, 0.0, 0.0)
    requires tb.a.x - ta.a.x >= 2.0 && tb.a.y - ta.a.y >= 2.0
    ensures !TriangleTriangleIntersect(ta, tb)
  {
    UnitTriangle(ta, tb.a);
    UnitTriangle(ta, tb.b);
    UnitTriangle(ta, tb.c);
    UnitTriangle(tb, ta.a);
    UnitTriangle(tb, ta.b);
    UnitTriangle(tb, ta.c);
  }
}
