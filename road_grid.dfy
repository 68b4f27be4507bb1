/**
 * GenNormalsAndIndices (road.cpp): one surface of a block of road is a
 * grid of `(xres+1) * (yres+1)` vertices, vertex `(x, y)` at
 * `start + xstride*x + ystride*y` in the vertex list. The function appends
 * one estimated normal per grid vertex, row by row, and two triangles per
 * grid square, and counts the triangles in the global `triangle_count`.
 */
module RoadGrid {
  import opened Vectors
  import opened Models

  /** Multiplying by a positive factor keeps order with a gap of at least the factor. */
  lemma MulMono(n: int, a: int, b: int)
    requires n > 0 && a < b
    ensures n * a + n <= n * b
  {
    assert n * b - n * a == n * (b - a);
    MulAtLeast(n, b - a);
  }

  lemma MulAtLeast(n: int, k: int)
    requires n > 0 && k >= 1
    ensures n * k >= n
  {
  }

  /** Division by `n` recovers row and column of `n*q + r`. */
  lemma DivMod(q: int, r: int, n: int)
    requires n > 0 && 0 <= r < n
    ensures (n * q + r) / n == q && (n * q + r) % n == r
  {
    var a := n * q + r;
    var q', r' := a / n, a % n;
    assert a == n * q' + r' && 0 <= r' < n;
    if q' < q {
      MulMono(n, q', q);
    } else if q < q' {
      MulMono(n, q, q');
    }
  }

  /** Row-major positions of an `n`-wide grid of `m` rows stay below `n*m`. */
  lemma RowMajorBound(x: int, y: int, n: int, m: int)
    requires 0 <= x < n && 0 <= y < m
    ensures 0 <= n * y + x < n * m
  {
    MulMono(n, y, m);
    if y > 0 { MulAtLeast(n, y); }
  }

  /** One surface: where vertex (0,0) is, the strides along x and y, and the resolution. */
  datatype Grid = Grid(start: int, xstride: int, ystride: int, xres: int, yres: int)
  {
    predicate Valid()
    {
      xres >= 1 && yres >= 1
    }

    /** The vertex index of grid point `(x, y)`. */
    function At(x: int, y: int): int
    {
      start + xstride * x + ystride * y
    }

    /** Every grid point names one of `n` vertices. */
    predicate Within(n: int)
    {
      forall x, y :: 0 <= x <= xres && 0 <= y <= yres ==> 0 <= At(x, y) < n
    }
  }

  /**
   * The two grid lines the derivative along one axis is taken between: the
   * neighbours of `i`, or at an edge the edge line and the one next to it.
   */
  function Span(i: int, res: int): (r: (int, int))
    requires 0 <= i <= res && res >= 1
    ensures 0 <= r.0 < r.1 <= res && r.0 <= i <= r.1 && r.1 - r.0 <= 2
    ensures 0 < i < res ==> r == (i - 1, i + 1)
    ensures i == 0 ==> r == (0, 1)
    ensures i == res ==> r == (res - 1, res)
  {
    if i == 0 then (0, 1)
    else if i == res then (res - 1, res)
    else (i - 1, i + 1)
  }

  /**
   * The normal estimated for grid point `(x, y)`: the cross product of the
   * difference along x and the difference along y (not yet unit length).
   */
  function GridNormal(vs: seq<Vec3>, g: Grid, x: int, y: int): Vec3
    requires g.Valid() && g.Within(|vs|) && 0 <= x <= g.xres && 0 <= y <= g.yres
  {
    var (a0, a1) := Span(x, g.xres);
    var (b0, b1) := Span(y, g.yres);
    assert 0 <= g.At(a0, y) < |vs| && 0 <= g.At(a1, y) < |vs|;
    assert 0 <= g.At(x, b0) < |vs| && 0 <= g.At(x, b1) < |vs|;
    Cross(Sub(vs[g.At(a1, y)], vs[g.At(a0, y)]), Sub(vs[g.At(x, b1)], vs[g.At(x, b0)]))
  }

  /** Position `k` of a row-major grid `n` wide and `m` tall is column `k % n` of row `k / n`. */
  lemma Unrow(k: int, n: int, m: int)
    requires n > 0 && 0 <= k < n * m
    ensures 0 <= k % n < n && 0 <= k / n < m
  {
    if k / n >= m {
      MulMono(n, m - 1, k / n);
    }
  }

  /** The normal appended `k`-th: that of grid point `(k % (xres+1), k / (xres+1))`. */
  function NormalAt(vs: seq<Vec3>, g: Grid, k: int): Vec3
    requires g.Valid() && g.Within(|vs|) && 0 <= k < (g.xres + 1) * (g.yres + 1)
  {
    Unrow(k, g.xres + 1, g.yres + 1);
    GridNormal(vs, g, k % (g.xres + 1), k / (g.xres + 1))
  }

  /** The corner at grid point `(x, y)`: its vertex, texcoord 0, and the normal made for that point. */
  function GridCorner(g: Grid, nstart: int, x: int, y: int): Corner
  {
    Corner(g.At(x, y), 0, nstart + x + (g.xres + 1) * y)
  }

  /**
   * The triangles of square `(x, y)` with corners a=(x,y), b=(x+1,y),
   * c=(x,y+1), d=(x+1,y+1): (a,b,c) first, then (b,d,c).
   */
  function SquareTriangle(g: Grid, nstart: int, x: int, y: int, second: bool): Triangle
  {
    if !second then Triangle(GridCorner(g, nstart, x, y), GridCorner(g, nstart, x + 1, y), GridCorner(g, nstart, x, y + 1))
    else Triangle(GridCorner(g, nstart, x + 1, y), GridCorner(g, nstart, x + 1, y + 1), GridCorner(g, nstart, x, y + 1))
  }

  /** `ns` holds the first `|ns|` normals of the surface, in the order they are made. */
  ghost predicate NormalsSoFar(vs: seq<Vec3>, g: Grid, ns: seq<Vec3>)
    requires g.Valid() && g.Within(|vs|)
  {
    forall k :: 0 <= k < |ns| ==> k < (g.xres + 1) * (g.yres + 1) && ns[k] == NormalAt(vs, g, k)
  }

  /** Making the normal of point `(x, y)` next extends the normals made so far. */
  lemma NormalStep(vs: seq<Vec3>, g: Grid, ns: seq<Vec3>, x: int, y: int)
    requires g.Valid() && g.Within(|vs|) && 0 <= x <= g.xres && 0 <= y <= g.yres
    requires |ns| == (g.xres + 1) * y + x && NormalsSoFar(vs, g, ns)
    ensures NormalsSoFar(vs, g, ns + [GridNormal(vs, g, x, y)])
  {
    DivMod(y, x, g.xres + 1);
    RowMajorBound(x, y, g.xres + 1, g.yres + 1);
    assert NormalAt(vs, g, |ns|) == GridNormal(vs, g, x, y);
  }

  /** The first loop: one normal per grid point, row after row. */
  method Grid_Normals(vs: seq<Vec3>, g: Grid) returns (ns: seq<Vec3>)
    requires g.Valid() && g.Within(|vs|)
    ensures |ns| == (g.xres + 1) * (g.yres + 1)
    ensures forall k :: 0 <= k < |ns| ==> ns[k] == NormalAt(vs, g, k)
  {
    ns := [];
    for y := 0 to g.yres + 1
      invariant |ns| == (g.xres + 1) * y && NormalsSoFar(vs, g, ns)
    {
      for x := 0 to g.xres + 1
        invariant |ns| == (g.xres + 1) * y + x && NormalsSoFar(vs, g, ns)
      {
        NormalStep(vs, g, ns, x, y);
        ns := ns + [GridNormal(vs, g, x, y)];
      }
    }
  }

  /** `ts` holds the first `|ts|` triangles of the surface, in the order they are made. */
  ghost predicate TrianglesSoFar(g: Grid, nstart: int, ts: seq<Triangle>)
    requires g.Valid()
  {
    forall k :: 0 <= k < |ts| ==> ts[k] == SquareTriangle(g, nstart, (k / 2) % g.xres, (k / 2) / g.xres, k % 2 == 1)
  }

  /** Making the two triangles of square `(x, y)` next extends the triangles made so far. */
  lemma TriangleStep(g: Grid, nstart: int, ts: seq<Triangle>, x: int, y: int)
    requires g.Valid() && 0 <= x < g.xres && 0 <= y < g.yres
    requires |ts| == 2 * (g.xres * y + x) && TrianglesSoFar(g, nstart, ts)
    ensures TrianglesSoFar(g, nstart, ts + [SquareTriangle(g, nstart, x, y, false), SquareTriangle(g, nstart, x, y, true)])
  {
    var q := g.xres * y + x;
    DivMod(y, x, g.xres);
    DivMod(q, 0, 2);
    DivMod(q, 1, 2);
  }

  /** The second loop: two triangles per square, row after row. */
  method Grid_Triangles(g: Grid, nstart: int) returns (ts: seq<Triangle>)
    requires g.Valid()
    ensures |ts| == 2 * (g.xres * g.yres)
    ensures forall k :: 0 <= k < |ts| ==> ts[k] == SquareTriangle(g, nstart, (k / 2) % g.xres, (k / 2) / g.xres, k % 2 == 1)
  {
    ts := [];
    for y := 0 to g.yres
      invariant |ts| == 2 * (g.xres * y) && TrianglesSoFar(g, nstart, ts)
    {
      for x := 0 to g.xres
        invariant |ts| == 2 * (g.xres * y + x) && TrianglesSoFar(g, nstart, ts)
      {
        TriangleStep(g, nstart, ts, x, y);
        ts := ts + [SquareTriangle(g, nstart, x, y, false), SquareTriangle(g, nstart, x, y, true)];
      }
    }
  }

  /** The triangles of a whole surface, two per square, row after row. */
  function SurfaceTriangles(g: Grid, nstart: int): (ts: seq<Triangle>)
    requires g.Valid()
  {
    seq(2 * (g.xres * g.yres), k => SquareTriangle(g, nstart, (k / 2) % g.xres, (k / 2) / g.xres, k % 2 == 1))
  }

  /** Square `(x, y)` owns triangles `2*(xres*y + x)` and the one after it. */
  lemma SquareAt(g: Grid, nstart: int, ts: seq<Triangle>, x: int, y: int)
    requires g.Valid() && |ts| == 2 * (g.xres * g.yres)
    requires forall k :: 0 <= k < |ts| ==> ts[k] == SquareTriangle(g, nstart, (k / 2) % g.xres, (k / 2) / g.xres, k % 2 == 1)
    requires 0 <= x < g.xres && 0 <= y < g.yres
    ensures 2 * (g.xres * y + x) + 1 < |ts|
    ensures ts[2 * (g.xres * y + x)] == SquareTriangle(g, nstart, x, y, false)
    ensures ts[2 * (g.xres * y + x) + 1] == SquareTriangle(g, nstart, x, y, true)
  {
    var q := g.xres * y + x;
    RowMajorBound(x, y, g.xres, g.yres);
    DivMod(y, x, g.xres);
    DivMod(q, 0, 2);
    DivMod(q, 1, 2);
  }

  /**
   * The normal a corner names is the one made for the corner's own grid
   * point, and it lies among the normals this surface appended.
   */
  lemma CornerNormal(vs: seq<Vec3>, g: Grid, nstart: int, ns: seq<Vec3>, x: int, y: int)
    requires g.Valid() && g.Within(|vs|) && 0 <= x <= g.xres && 0 <= y <= g.yres
    requires |ns| == (g.xres + 1) * (g.yres + 1)
    requires forall k :: 0 <= k < |ns| ==> ns[k] == NormalAt(vs, g, k)
    ensures var c := GridCorner(g, nstart, x, y);
      nstart <= c.n < nstart + |ns| && ns[c.n - nstart] == GridNormal(vs, g, x, y) && 0 <= c.v < |vs|
  {
    RowMajorBound(x, y, g.xres + 1, g.yres + 1);
    DivMod(y, x, g.xres + 1);
  }

  /** The corners of every grid square lie on the grid. */
  lemma SquareOnGrid(g: Grid, nstart: int, n: int, x: int, y: int, second: bool)
    requires g.Valid() && g.Within(n) && 0 <= x < g.xres && 0 <= y < g.yres
    ensures TriIn(SquareTriangle(g, nstart, x, y, second), n)
  {
  }

  /** Every corner of every triangle of the surface lies on the grid, so its vertex exists. */
  lemma TrianglesOnGrid(g: Grid, nstart: int, ts: seq<Triangle>, n: int)
    requires g.Valid() && g.Within(n) && |ts| == 2 * (g.xres * g.yres)
    requires forall k :: 0 <= k < |ts| ==> ts[k] == SquareTriangle(g, nstart, (k / 2) % g.xres, (k / 2) / g.xres, k % 2 == 1)
    ensures forall k :: 0 <= k < |ts| ==> TriIn(ts[k], n)
  {
    forall k | 0 <= k < |ts|
      ensures TriIn(ts[k], n)
    {
      var q := k / 2;
      assert 0 <= q < g.xres * g.yres;
      Unrow(q, g.xres, g.yres);
      SquareOnGrid(g, nstart, n, q % g.xres, q / g.xres, k % 2 == 1);
    }
  }

  /**
   * GenNormalsAndIndices: appends the surface's normals and its triangles
   * to material `mat`, and adds two to the triangle count per square.
   * Everything else in the model is left as it was.
   */
  method Gen_Normals_And_Indices(model: Model, mat: nat, g: Grid, count: int) returns (count': int)
    requires mat < |model.materials| && g.Valid() && g.Within(|model.vertices|)
    modifies model`normals, model`materials
    ensures count' == count + 2 * (g.xres * g.yres)
    ensures |model.normals| == |old(model.normals)| + (g.xres + 1) * (g.yres + 1)
    ensures model.normals[..|old(model.normals)|] == old(model.normals)
    ensures NormalsSoFar(model.vertices, g, model.normals[|old(model.normals)|..])
    ensures |model.materials| == |old(model.materials)|
    ensures |model.materials[mat].triangles| == |old(model.materials[mat].triangles)| + 2 * (g.xres * g.yres)
    ensures forall m :: 0 <= m < |model.materials| && m != mat ==> model.materials[m] == old(model.materials[m])
    ensures model.materials[mat] == old(model.materials[mat]).(triangles := old(model.materials[mat].triangles) + SurfaceTriangles(g, |old(model.normals)|))
    ensures VerticesIn(old(model.materials), |model.vertices|) ==> VerticesIn(model.materials, |model.vertices|)
  {
    var nstart := |model.normals|;
    var ns := Grid_Normals(model.vertices, g);
    model.normals := model.normals + ns;
    var ts := Grid_Triangles(g, nstart);
    var m := model.materials[mat];
    model.materials := model.materials[mat := m.(triangles := m.triangles + ts)];
    assert model.materials[mat].triangles[|m.triangles|..] == ts;
    assert ts == SurfaceTriangles(g, nstart);
    TrianglesOnGrid(g, nstart, ts, |model.vertices|);
    AppendedIn(old(model.materials), model.materials, mat, |model.vertices|);
    count' := count + 2 * (g.xres * g.yres);
  }

  /** Appending triangles that name existing vertices to one material keeps every triangle in range. */
  lemma AppendedIn(ms: seq<ModelMaterial>, ms': seq<ModelMaterial>, mat: nat, n: int)
    requires mat < |ms| == |ms'|
    requires forall m :: 0 <= m < |ms| && m != mat ==> ms'[m] == ms[m]
    requires |ms[mat].triangles| <= |ms'[mat].triangles| && ms'[mat].triangles[..|ms[mat].triangles|] == ms[mat].triangles
    requires forall k :: |ms[mat].triangles| <= k < |ms'[mat].triangles| ==> TriIn(ms'[mat].triangles[k], n)
    ensures VerticesIn(ms, n) ==> VerticesIn(ms', n)
  {
    if VerticesIn(ms, n) {
      forall j, k | 0 <= j < |ms'| && 0 <= k < |ms'[j].triangles|
        ensures TriIn(ms'[j].triangles[k], n)
      {
        if j == mat && k < |ms[mat].triangles| {
          assert ms'[j].triangles[k] == ms[mat].triangles[k];
        }
      }
    }
  }
}
