/**
 * Model_Mesh (model_mesh.cpp): the collision trimesh built from a loaded
 * Model. Model::Create_Mesh flattens the triangles of every material into
 * one index array, material after material, and records for each
 * non-empty material the index one past its last triangle; the geom
 * handed this mesh looks materials up by those boundaries.
 */
module ModelMeshes {
  import opened Wrappers
  import opened Vectors
  import opened MeshTypes
  import opened Models
  import opened Contacts
  import opened Objects
  import opened Geoms

  /** `INT_MAX`: ODE counts vertices and indices in an `int`. */
  const INT_MAX: int := 0x7FFF_FFFF

  /** Number of triangles over all materials. */
  function Tris(ms: seq<ModelMaterial>): (r: nat)
  {
    if ms == [] then 0 else Tris(ms[..|ms| - 1]) + |ms[|ms| - 1].triangles|
  }

  /** Number of materials that have triangles. */
  function Mats(ms: seq<ModelMaterial>): (r: nat)
    ensures r <= |ms|
  {
    if ms == [] then 0
    else Mats(ms[..|ms| - 1]) + (if |ms[|ms| - 1].triangles| > 0 then 1 else 0)
  }

  /** The triangles of every material, in material order. */
  function Flat(ms: seq<ModelMaterial>): (r: seq<Triangle>)
    ensures |r| == Tris(ms)
  {
    if ms == [] then [] else Flat(ms[..|ms| - 1]) + ms[|ms| - 1].triangles
  }

  /** The three vertex indices of a triangle, as they go into the index array. */
  function Corners(t: Triangle): seq<int>
  {
    [t.c0.v, t.c1.v, t.c2.v]
  }

  /** The index array of a triangle list: three vertex indices per triangle. */
  function Idx(ts: seq<Triangle>): (r: seq<int>)
    ensures |r| == 3 * |ts|
  {
    if ts == [] then [] else Idx(ts[..|ts| - 1]) + Corners(ts[|ts| - 1])
  }

  /**
   * The mesh's material list: for each non-empty material its name and the
   * number of triangles up to and including it.
   */
  function Bounds(ms: seq<ModelMaterial>): (r: seq<Material>)
    ensures |r| == Mats(ms)
  {
    if ms == [] then []
    else
      var last := ms[|ms| - 1];
      Bounds(ms[..|ms| - 1]) + (if |last.triangles| > 0 then [Material(last.name, Tris(ms))] else [])
  }

  /** The unit normal of a triangle: `unit` scales the cross product to length 1. */
  function NormalOf(t: Triangle, vs: seq<Vec3>, unit: Vec3 -> Vec3): Vec3
    requires TriIn(t, |vs|)
  {
    var v1, v2, v3 := vs[t.c0.v], vs[t.c1.v], vs[t.c2.v];
    unit(Cross(Sub(v2, v1), Sub(v3, v1)))
  }

  /** The size check Create_Mesh means to make: vertex and index counts must fit an `int`. */
  predicate TooBig(verts: int, tris: int)
  {
    verts > INT_MAX || 3 * tris > INT_MAX
  }

  /** The size check as written: `tris*3` is computed in 32-bit unsigned arithmetic. */
  predicate TooBigAsWritten(verts: int, tris: int)
  {
    verts > INT_MAX || (tris * 3) % U32 > INT_MAX
  }

  /** Below the wrap-around point the check as written is the intended one. */
  lemma TooBigAgreesWithoutWrap(verts: int, tris: nat)
    requires 3 * tris < U32
    ensures TooBigAsWritten(verts, tris) <==> TooBig(verts, tris)
  {
  }

  /**
   * With `tris = 0x55555556` the product wraps to 2: the check as written
   * lets through a mesh whose index count does not fit an `int`, and the
   * index array is then allocated with 2 entries instead of `3*tris`.
   */
  lemma TooBigAsWrittenMisses()
    ensures !TooBigAsWritten(0, 0x5555_5556) && TooBig(0, 0x5555_5556)
    ensures (0x5555_5556 * 3) % U32 == 2
  {
  }

  /** The flattened list splits at a material boundary. */
  lemma FlatSnoc(ms: seq<ModelMaterial>, j: nat)
    requires j < |ms|
    ensures Flat(ms[..j + 1]) == Flat(ms[..j]) + ms[j].triangles
    ensures Tris(ms[..j + 1]) == Tris(ms[..j]) + |ms[j].triangles|
  {
    assert ms[..j + 1][..j] == ms[..j];
  }

  /** The triangles of the first `j` materials are a prefix of all of them. */
  lemma {:induction false} FlatPrefix(ms: seq<ModelMaterial>, j: nat)
    requires j <= |ms|
    ensures Tris(ms[..j]) <= Tris(ms) && Flat(ms)[..Tris(ms[..j])] == Flat(ms[..j])
    decreases |ms|
  {
    if j == |ms| {
      assert ms[..j] == ms;
    } else {
      var init := ms[..|ms| - 1];
      FlatPrefix(init, j);
      assert init[..j] == ms[..j];
    }
  }

  /** Triangle `k` of material `j` is triangle `Tris(ms[..j]) + k` of the flattened list. */
  lemma FlatAt(ms: seq<ModelMaterial>, j: nat, k: nat)
    requires j < |ms| && k < |ms[j].triangles|
    ensures Tris(ms[..j]) + k < Tris(ms)
    ensures Flat(ms)[Tris(ms[..j]) + k] == ms[j].triangles[k]
  {
    FlatPrefix(ms, j + 1);
    FlatSnoc(ms, j);
    var f := Flat(ms[..j + 1]);
    assert f[Tris(ms[..j]) + k] == ms[j].triangles[k];
  }

  /** Triangle `t` occupies entries `3t`, `3t+1`, `3t+2` of the index array. */
  lemma {:induction false} IdxAt(ts: seq<Triangle>, t: nat)
    requires t < |ts|
    ensures Idx(ts)[3 * t] == ts[t].c0.v
    ensures Idx(ts)[3 * t + 1] == ts[t].c1.v
    ensures Idx(ts)[3 * t + 2] == ts[t].c2.v
    decreases |ts|
  {
    if t < |ts| - 1 {
      IdxAt(ts[..|ts| - 1], t);
    }
  }

  /** Vertex indices within range stay within range once flattened. */
  lemma FlatVerticesIn(ms: seq<ModelMaterial>, verts: int)
    requires VerticesIn(ms, verts)
    ensures forall k :: 0 <= k < Tris(ms) ==> TriIn(Flat(ms)[k], verts)
  {
    forall k | 0 <= k < Tris(ms)
      ensures TriIn(Flat(ms)[k], verts)
    {
      var j, i := MaterialOf(ms, k);
      FlatAt(ms, j, i);
    }
  }

  /** The material and position within it of flattened triangle `k`. */
  lemma {:induction false} MaterialOf(ms: seq<ModelMaterial>, k: nat) returns (j: nat, i: nat)
    requires k < Tris(ms)
    ensures j < |ms| && i < |ms[j].triangles| && k == Tris(ms[..j]) + i
    decreases |ms|
  {
    var init := ms[..|ms| - 1];
    if k < Tris(init) {
      j, i := MaterialOf(init, k);
      assert init[..j] == ms[..j];
    } else {
      j, i := |ms| - 1, k - Tris(init);
    }
  }

  /**
   * The material list has one entry per non-empty material; its ends
   * strictly increase, are positive, and the last one is the triangle count:
   * exactly what the geom's material lookup needs.
   */
  lemma {:induction false} BoundsShape(ms: seq<ModelMaterial>)
    ensures Ascending(Ends(Bounds(ms)))
    ensures forall m :: 0 <= m < |Bounds(ms)| ==> 0 < Bounds(ms)[m].end <= Tris(ms)
    ensures |Bounds(ms)| > 0 ==> Bounds(ms)[|Bounds(ms)| - 1].end == Tris(ms)
    ensures Tris(ms) > 0 <==> |Bounds(ms)| > 0
    decreases |ms|
  {
    if ms != [] {
      BoundsShape(ms[..|ms| - 1]);
    }
  }

  /** The material list of the first `j` materials is a prefix of the whole one. */
  lemma {:induction false} BoundsPrefix(ms: seq<ModelMaterial>, j: nat)
    requires j <= |ms|
    ensures Mats(ms[..j]) <= Mats(ms) && Bounds(ms)[..Mats(ms[..j])] == Bounds(ms[..j])
    decreases |ms|
  {
    BoundsShape(ms);
    BoundsShape(ms[..j]);
    if j == |ms| {
      assert ms[..j] == ms;
    } else {
      var init := ms[..|ms| - 1];
      BoundsPrefix(init, j);
      BoundsShape(init);
      assert init[..j] == ms[..j];
    }
  }

  /** The entry a non-empty material `j` contributes. */
  lemma BoundsAt(ms: seq<ModelMaterial>, j: nat)
    requires j < |ms| && |ms[j].triangles| > 0
    ensures Mats(ms[..j]) < Mats(ms)
    ensures Bounds(ms)[Mats(ms[..j])] == Material(ms[j].name, Tris(ms[..j + 1]))
  {
    BoundsPrefix(ms, j + 1);
    BoundsShape(ms[..j + 1]);
    assert ms[..j + 1][..j] == ms[..j];
  }

  /** The material count steps over empty materials. */
  lemma MatsSnoc(ms: seq<ModelMaterial>, j: nat)
    requires j < |ms|
    ensures Mats(ms[..j + 1]) == Mats(ms[..j]) + (if |ms[j].triangles| > 0 then 1 else 0)
  {
    assert ms[..j + 1][..j] == ms[..j];
  }

  /** Model_Mesh: the arrays handed to ODE plus the triangle count and material list. */
  class ModelMesh {
    const name: string
    const vertices: array<Vec3>
    const indices: array<int>
    const normals: array<Vec3>
    var triangleCount: int
    /** `materials`, `material_count` entries. */
    var materials: seq<Material>

    constructor (name: string, v: array<Vec3>, i: array<int>, n: array<Vec3>, tris: int, m: seq<Material>)
      ensures this.name == name && vertices == v && indices == i && normals == n
      ensures triangleCount == tris && materials == m
    {
      this.name := name;
      vertices, indices, normals := v, i, n;
      triangleCount, materials := tris, m;
    }
  }

  /** The mesh Create_Mesh builds from these materials and vertices. */
  ghost predicate Built(mesh: ModelMesh, ms: seq<ModelMaterial>, vs: seq<Vec3>, unit: Vec3 -> Vec3)
    reads mesh, mesh.vertices, mesh.indices, mesh.normals
  {
    mesh.vertices[..] == vs &&
    mesh.triangleCount == Tris(ms) &&
    mesh.materials == Bounds(ms) &&
    mesh.indices.Length == 3 * Tris(ms) &&
    mesh.normals.Length == Tris(ms) &&
    Copied(mesh.indices, mesh.normals, Flat(ms), vs, unit, Tris(ms))
  }

  /**
   * Model::Create_Mesh. An existing mesh of that name is returned as is;
   * a model without triangles, or one whose vertex or index count does not
   * fit an `int`, yields none; otherwise the mesh is Built from the model.
   * `unit` scales a vector to length 1 (the source divides by its square
   * root length).
   */
  method Create_Mesh(name: string, model: Model, existing: Option<ModelMesh>, unit: Vec3 -> Vec3)
    returns (r: Option<ModelMesh>)
    requires existing.None? ==> VerticesIn(model.materials, |model.vertices|)
    ensures existing.Some? ==> r == existing
    ensures existing.None? && (Tris(model.materials) == 0 || TooBig(|model.vertices|, Tris(model.materials))) ==> r.None?
    ensures existing.None? && Tris(model.materials) > 0 && !TooBig(|model.vertices|, Tris(model.materials)) ==>
      r.Some? && fresh(r.value) && fresh(r.value.vertices) && fresh(r.value.indices) && fresh(r.value.normals) &&
      Built(r.value, model.materials, model.vertices, unit)
  {
    if existing.Some? {
      return existing;
    }
    var ms := model.materials;
    var tris, mats := Count(ms);
    if tris == 0 {
      return None;
    }
    var verts := |model.vertices|;
    if TooBig(verts, tris) {
      return None;
    }
    var v := Copy_Vertices(model.vertices);
    var i := new int[3 * tris];
    var n := new Vec3[tris];
    var m := new Material[mats](_ => Material([], 0));
    Fill(ms, model.vertices, unit, i, n, m);
    var mesh := new ModelMesh(name, v, i, n, tris, m[..]);
    return Some(mesh);
  }

  /** The first loop of Create_Mesh: triangles in total and materials that have any. */
  method Count(ms: seq<ModelMaterial>) returns (tris: nat, mats: nat)
    ensures tris == Tris(ms) && mats == Mats(ms)
  {
    tris, mats := 0, 0;
    var mat := 0;
    while mat < |ms|
      invariant mat <= |ms| && tris == Tris(ms[..mat]) && mats == Mats(ms[..mat])
    {
      FlatSnoc(ms, mat);
      MatsSnoc(ms, mat);
      var tmp := |ms[mat].triangles|;
      if tmp > 0 {
        tris := tris + tmp;
        mats := mats + 1;
      }
      mat := mat + 1;
    }
    assert ms[..mat] == ms;
  }

  /** Vertices are copied unchanged, index by index. */
  method Copy_Vertices(vs: seq<Vec3>) returns (v: array<Vec3>)
    ensures fresh(v) && v[..] == vs
  {
    v := new Vec3[|vs|](_ => Zero);
    var loop := 0;
    while loop < |vs|
      invariant loop <= |vs| && v.Length == |vs|
      invariant forall k :: 0 <= k < loop ==> v[k] == vs[k]
    {
      v[loop] := vs[loop];
      loop := loop + 1;
    }
  }

  /** The first `k` triangles of `ts` are in the index array `i` and the normal array `n`. */
  ghost predicate Copied(i: array<int>, n: array<Vec3>, ts: seq<Triangle>, vs: seq<Vec3>, unit: Vec3 -> Vec3, k: int)
    reads i, n
  {
    0 <= k <= |ts| && 3 * k <= i.Length && k <= n.Length &&
    (forall j :: 0 <= j < 3 * k ==> i[j] == Idx(ts)[j]) &&
    forall j :: 0 <= j < k ==> TriIn(ts[j], |vs|) && n[j] == NormalOf(ts[j], vs, unit)
  }

  /** The first `k` entries of `m` are those of `bs`. */
  ghost predicate Recorded(m: array<Material>, bs: seq<Material>, k: int)
    reads m
  {
    0 <= k <= |bs| && k <= m.Length && forall j :: 0 <= j < k ==> m[j] == bs[j]
  }

  /**
   * The material loop of Create_Mesh: triangles go to `i` and `n` in
   * flattened order, and each non-empty material's boundary to `m`.
   */
  method Fill(ms: seq<ModelMaterial>, vs: seq<Vec3>, unit: Vec3 -> Vec3, i: array<int>, n: array<Vec3>, m: array<Material>)
    requires VerticesIn(ms, |vs|)
    requires i.Length == 3 * Tris(ms) && n.Length == Tris(ms) && m.Length == Mats(ms)
    requires i != n as object && i != m as object && n != m as object
    modifies i, n, m
    ensures Copied(i, n, Flat(ms), vs, unit, Tris(ms))
    ensures m[..] == Bounds(ms)
  {
    ghost var all := Flat(ms);
    ghost var bs := Bounds(ms);
    var tcount, mcount := 0, 0;
    var mloop := 0;
    while mloop < |ms|
      invariant mloop <= |ms| && tcount == Tris(ms[..mloop]) && mcount == Mats(ms[..mloop])
      invariant Copied(i, n, all, vs, unit, tcount) && Recorded(m, bs, mcount)
    {
      FlatSnoc(ms, mloop);
      MatsSnoc(ms, mloop);
      FlatPrefix(ms, mloop + 1);
      BoundsPrefix(ms, mloop + 1);
      if |ms[mloop].triangles| > 0 {
        tcount := Copy_Triangles(ms, mloop, vs, unit, i, n, tcount);
        BoundsAt(ms, mloop);
        Record(m, bs, mcount, Material(ms[mloop].name, tcount));
        mcount := mcount + 1;
      }
      mloop := mloop + 1;
    }
    assert ms[..mloop] == ms;
  }

  /** `m[mcount] = ...`: the next material boundary. */
  method Record(m: array<Material>, ghost bs: seq<Material>, k: nat, b: Material)
    requires Recorded(m, bs, k) && k < |bs| && k < m.Length && bs[k] == b
    modifies m
    ensures Recorded(m, bs, k + 1)
  {
    m[k] := b;
  }

  /** The triangle loop of one material: its triangles take the next slots of `i` and `n`. */
  method Copy_Triangles(ms: seq<ModelMaterial>, mloop: nat, vs: seq<Vec3>, unit: Vec3 -> Vec3,
                        i: array<int>, n: array<Vec3>, start: nat) returns (tcount: nat)
    requires VerticesIn(ms, |vs|) && mloop < |ms| && start == Tris(ms[..mloop])
    requires start + |ms[mloop].triangles| <= Tris(ms)
    requires i.Length == 3 * Tris(ms) && n.Length == Tris(ms) && i != n as object
    requires Copied(i, n, Flat(ms), vs, unit, start)
    modifies i, n
    ensures tcount == start + |ms[mloop].triangles|
    ensures Copied(i, n, Flat(ms), vs, unit, tcount)
  {
    ghost var all := Flat(ms);
    var ts := ms[mloop].triangles;
    tcount := start;
    var tloop := 0;
    while tloop < |ts|
      invariant tloop <= |ts| && tcount == start + tloop
      invariant Copied(i, n, all, vs, unit, tcount)
    {
      FlatAt(ms, mloop, tloop);
      assert TriIn(ts[tloop], |vs|);
      Put_Triangle(i, n, all, vs, unit, tcount, ts[tloop]);
      tcount := tcount + 1;
      tloop := tloop + 1;
    }
  }

  /** The body of the triangle loop: indices and normal of triangle `k`. */
  method Put_Triangle(i: array<int>, n: array<Vec3>, ghost ts: seq<Triangle>, vs: seq<Vec3>, unit: Vec3 -> Vec3, k: nat, t: Triangle)
    requires Copied(i, n, ts, vs, unit, k) && k < |ts| && ts[k] == t && TriIn(t, |vs|)
    requires i != n as object && 3 * k + 3 <= i.Length && k < n.Length
    modifies i, n
    ensures Copied(i, n, ts, vs, unit, k + 1)
  {
    IdxAt(ts, k);
    i[3 * k] := t.c0.v;
    i[3 * k + 1] := t.c1.v;
    i[3 * k + 2] := t.c2.v;
    n[k] := NormalOf(t, vs, unit);
  }

  /** Triangle `k` of the built mesh occupies index entries `3k..3k+2`. */
  lemma EmittedAt(mesh: ModelMesh, ms: seq<ModelMaterial>, vs: seq<Vec3>, unit: Vec3 -> Vec3, k: nat)
    requires Built(mesh, ms, vs, unit) && k < mesh.triangleCount
    ensures mesh.indices[3 * k..3 * k + 3] == Corners(Flat(ms)[k])
  {
    IdxAt(Flat(ms), k);
  }

  /** Whether a mesh's material list fits its triangles the way the geom lookup needs. */
  ghost predicate Shaped(mesh: ModelMesh)
    reads mesh
  {
    mesh.triangleCount >= 0 && Ascending(Ends(mesh.materials)) &&
    (|mesh.materials| > 0 ==> mesh.materials[|mesh.materials| - 1].end == mesh.triangleCount)
  }

  /** A built mesh has the shape the geom lookup needs. */
  lemma BuiltShaped(mesh: ModelMesh, ms: seq<ModelMaterial>, vs: seq<Vec3>, unit: Vec3 -> Vec3)
    requires Built(mesh, ms, vs, unit)
    ensures Shaped(mesh) && (mesh.triangleCount > 0 <==> |mesh.materials| > 0)
  {
    BoundsShape(ms);
  }

  /**
   * Model_Mesh::Create_Mesh(Object*): a new geom for the object, given the
   * mesh's triangle count, a fresh flag per triangle and the mesh's
   * material list; it is then a Valid geom.
   */
  method Create_Geom(mesh: ModelMesh, list: GeomList, obj: Object) returns (g: Geom)
    requires list.Linked() && obj.Valid() && Shaped(mesh)
    modifies list`head, list`nodes, list.Members()`prev, obj`activity, obj`components
    ensures fresh(g) && fresh(g.triangleColliding) && g.Valid() && g.owner == obj
    ensures g.triangleCount == mesh.triangleCount && g.triangleColliding.Length == mesh.triangleCount
    ensures g.materials == mesh.materials && g.materialSurfaces == [] && g.surface == DefaultSurface
    ensures obj.activity == old(obj.activity) + 1 && obj.components == [g] + old(obj.components) && obj.Valid()
    ensures list.Linked() && list.nodes == [g] + old(list.nodes)
  {
    g := new Geom(list, obj);
    g.triangleCount := mesh.triangleCount;
    g.triangleColliding := new bool[mesh.triangleCount];
    g.materials := mesh.materials;
  }
}
