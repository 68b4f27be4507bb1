/**
 * Model::Load_OBJ and Model::Load_MTL (obj.cpp): the Wavefront OBJ and MTL
 * loaders. A file arrives as the lines Text_File::Read_Line produced, each
 * the non-empty list of its words; a file that could not be opened is
 * `None`. `atof`, the two `sscanf` patterns, Relative_Path and
 * Load_Material are parameters.
 */
module ObjLoader {
  import opened Wrappers
  import opened Vectors
  import opened Models

  /**
   * What `sscanf(word, "%u/%u/%u", &vi, &ti, &ni)` reports: the number of
   * conversions made (-1, EOF, when the word ends before the first one)
   * and the three values read; only the first `count` are stored.
   */
  datatype Scanned = Scanned(count: int, v: int, t: int, n: int)

  /**
   * The two scans of an index word: `slashes` is `"%u/%u/%u"`, `normalOnly`
   * is `"%*u//%u"` (the normal of a `v//n` word, when it matched).
   */
  datatype Scanners = Scanners(slashes: string -> Scanned, normalOnly: string -> Option<int>)

  /** The value `%u` stores in an `unsigned int`: the number read, modulo 2^32. */
  function Stored(x: int): (r: int)
    ensures IsU32(r) && (IsU32(x) ==> r == x)
  {
    x % U32
  }

  // ---------------------------------------------------------------- faces

  /**
   * The corner an index word of an `f` line gives, or None when the scan
   * converted nothing and the face stops there. Indices are 1-based in the
   * file and 0-based in the model; a missing texcoord is 0 and a missing
   * normal INDEX_ERROR.
   */
  function ParseCorner(w: string, sc: Scanners): (r: Option<Corner>)
    ensures r.Some? <==> sc.slashes(w).count >= 1
    ensures r.Some? ==> IsU32(r.value.v) && IsU32(r.value.t) && IsU32(r.value.n)
    ensures r.Some? && 1 <= sc.slashes(w).v < U32 ==> r.value.v == sc.slashes(w).v - 1
    ensures r.Some? && sc.slashes(w).count < 2 ==> r.value.t == 0
    ensures r.Some? && 2 <= sc.slashes(w).count <= 3 && 1 <= sc.slashes(w).t < U32 ==> r.value.t == sc.slashes(w).t - 1
    ensures r.Some? && sc.slashes(w).count == 3 && 1 <= sc.slashes(w).n < U32 ==> r.value.n == sc.slashes(w).n - 1
    ensures r.Some? && sc.slashes(w).count == 2 ==> r.value.n == INDEX_ERROR
    ensures r.Some? && sc.slashes(w).count == 1 ==>
      match sc.normalOnly(w)
      case None => r.value.n == INDEX_ERROR
      case Some(n) => 1 <= n < U32 ==> r.value.n == n - 1
  {
    var s := sc.slashes(w);
    if s.count <= 0 then None
    else CornerOf(w, s, sc)
  }

  /** The corner of a word whose scan converted at least the vertex index. */
  function CornerOf(w: string, s: Scanned, sc: Scanners): (r: Option<Corner>)
    ensures r.Some?
  {
    var v := Dec(Stored(s.v));
    if s.count == 3 then Some(Corner(v, Dec(Stored(s.t)), Dec(Stored(s.n))))
    else if s.count == 2 then Some(Corner(v, Dec(Stored(s.t)), INDEX_ERROR))
    else match sc.normalOnly(w)
      case Some(n) => Some(Corner(v, 0, Dec(Stored(n))))
      case None => Some(Corner(v, 0, INDEX_ERROR))
  }

  /**
   * The corner as obj.cpp:97-99 computes it: only a count of 0 stops the
   * face, so a word the scan reports as EOF (-1) passes, and its vertex
   * index is `vi` -- the previous word's vertex index -- decremented again.
   */
  function CornerAsWritten(w: string, vi: int, sc: Scanners): (r: Option<Corner>)
    requires IsU32(vi)
    ensures sc.slashes(w).count >= 0 ==> r == ParseCorner(w, sc)
    ensures sc.slashes(w).count < 0 ==> r == Some(Corner(Dec(vi), 0, INDEX_ERROR))
  {
    var s := sc.slashes(w);
    if s.count == 0 then None
    else if s.count < 0 then Some(Corner(Dec(vi), 0, INDEX_ERROR))
    else CornerOf(w, s, sc)
  }

  /** The corners of the index words, up to the first word that converts nothing. */
  function Corners(ws: seq<string>, sc: Scanners): (cs: seq<Corner>)
    ensures |cs| <= |ws|
    ensures forall i :: 0 <= i < |cs| ==> ParseCorner(ws[i], sc) == Some(cs[i])
    ensures |cs| < |ws| ==> ParseCorner(ws[|cs|], sc).None?
    decreases |ws|
  {
    if ws == [] then []
    else match ParseCorner(ws[0], sc)
      case None => []
      case Some(c) => [c] + Corners(ws[1..], sc)
  }

  /**
   * The fan of a polygon, built as the face loop builds it: each corner
   * after the second closes a triangle with the first corner and the
   * corner before it.
   */
  function Fan(cs: seq<Corner>): (r: seq<Triangle>)
    ensures |r| == if |cs| < 3 then 0 else |cs| - 2
    ensures forall k :: 0 <= k < |r| ==> r[k] == Triangle(cs[0], cs[k + 1], cs[k + 2])
  {
    if |cs| < 3 then []
    else Fan(cs[..|cs| - 1]) + [Triangle(cs[0], cs[|cs| - 2], cs[|cs| - 1])]
  }

  /** Closing one more corner appends one triangle to the fan. */
  lemma FanSnoc(cs: seq<Corner>, i: nat)
    requires 2 <= i < |cs|
    ensures Fan(cs[..i + 1]) == Fan(cs[..i]) + [Triangle(cs[0], cs[i - 1], cs[i])]
  {
    assert cs[..i + 1][..i] == cs[..i];
  }

  /** Consecutive fan triangles share the edge from the first corner. */
  lemma FanSharesEdges(cs: seq<Corner>, k: nat)
    requires k + 1 < |Fan(cs)|
    ensures Fan(cs)[k].c0 == Fan(cs)[k + 1].c0 == cs[0]
    ensures Fan(cs)[k].c2 == Fan(cs)[k + 1].c1
  {
  }

  /**
   * A face whose k index words all parse gives k - 2 triangles, and a
   * malformed word keeps the triangles of the corners before it.
   */
  lemma {:induction false} FaceTriangleCount(ws: seq<string>, sc: Scanners)
    requires |ws| >= 3 && forall i :: 0 <= i < |ws| ==> sc.slashes(ws[i]).count >= 1
    ensures |Fan(Corners(ws, sc))| == |ws| - 2
  {
    var cs := Corners(ws, sc);
    if |cs| < |ws| {
      assert false;
    }
  }

  /**
   * The `f` line loop (obj.cpp:90-150) over the index words `ws`: a
   * reused triangle slides its last two corners, and from the third word
   * on each word closes a triangle that is appended to material `mat`.
   */
  method Face(model: Model, mat: nat, ws: seq<string>, sc: Scanners)
    requires mat < |model.materials|
    modifies model`materials
    ensures model.materials == old(model.materials)[mat :=
      old(model.materials)[mat].(triangles := old(model.materials)[mat].triangles + Fan(Corners(ws, sc)))]
  {
    ghost var cs := Corners(ws, sc);
    ghost var ms0 := model.materials;
    ghost var ts := ms0[mat].triangles;
    var triangle := Triangle(Corner(0, 0, 0), Corner(0, 0, 0), Corner(0, 0, 0));
    var i := 0;
    assert ms0[mat].(triangles := ts) == ms0[mat];
    while i < |ws|
      invariant i <= |cs|
      invariant ts == ms0[mat].triangles + Fan(cs[..i])
      invariant model.materials == ms0[mat := ms0[mat].(triangles := ts)]
      invariant i >= 1 ==> triangle.c0 == cs[0]
      invariant i >= 2 ==> triangle.c2 == cs[i - 1]
    {
      var c := ParseCorner(ws[i], sc);
      if c.None? {
        break;
      }
      assert c.value == cs[i];
      if i >= 2 {
        triangle := triangle.(c1 := triangle.c2, c2 := c.value);
        FanSnoc(cs, i);
        model.materials := model.materials[mat := model.materials[mat].(triangles := model.materials[mat].triangles + [triangle])];
        ts := ts + [triangle];
        assert model.materials == ms0[mat := ms0[mat].(triangles := ts)];
      } else if i == 1 {
        triangle := triangle.(c2 := c.value);
      } else {
        triangle := triangle.(c0 := c.value);
      }
      i := i + 1;
    }
    assert cs[..i] == cs;
  }

  /**
   * The face loop as written, with the vertex index `vi` carried over from
   * word to word: a word scanned as EOF gives a corner from the stale index.
   */
  function CornersAsWritten(ws: seq<string>, vi: int, sc: Scanners): (cs: seq<Corner>)
    requires IsU32(vi)
    ensures |cs| <= |ws|
    decreases |ws|
  {
    if ws == [] then []
    else match CornerAsWritten(ws[0], vi, sc)
      case None => []
      case Some(c) => [c] + CornersAsWritten(ws[1..], c.v, sc)
  }

  /**
   * `f 1 2 3 ""` (w1, w2, w3 are the words "1", "2", "3"): the empty last
   * word (a quoted empty word) scans as EOF.
   * As written it still yields a corner, from vertex index 2 decremented
   * again, and so a second triangle (0, 2, 1); the intended reading stops
   * at that word and keeps only triangle (0, 1, 2).
   */
  lemma EmptyWordAsWritten(sc: Scanners, vi0: int, w1: string, w2: string, w3: string)
    requires IsU32(vi0)
    requires sc.slashes(w1) == Scanned(1, 1, 0, 0) && sc.normalOnly(w1).None?
    requires sc.slashes(w2) == Scanned(1, 2, 0, 0) && sc.normalOnly(w2).None?
    requires sc.slashes(w3) == Scanned(1, 3, 0, 0) && sc.normalOnly(w3).None?
    requires sc.slashes("").count == -1
    ensures Fan(Corners([w1, w2, w3, ""], sc)) ==
      [Triangle(Corner(0, 0, INDEX_ERROR), Corner(1, 0, INDEX_ERROR), Corner(2, 0, INDEX_ERROR))]
    ensures Fan(CornersAsWritten([w1, w2, w3, ""], vi0, sc)) ==
      Fan(Corners([w1, w2, w3, ""], sc)) + [Triangle(Corner(0, 0, INDEX_ERROR), Corner(2, 0, INDEX_ERROR), Corner(1, 0, INDEX_ERROR))]
  {
    var ws := [w1, w2, w3, ""];
    assert ws[1..] == [w2, w3, ""] && ws[1..][1..] == [w3, ""] && ws[1..][1..][1..] == [""] && [""][1..] == [];
    var a, b, c := Corner(0, 0, INDEX_ERROR), Corner(1, 0, INDEX_ERROR), Corner(2, 0, INDEX_ERROR);
    assert ParseCorner(w1, sc) == Some(a) && ParseCorner(w2, sc) == Some(b) && ParseCorner(w3, sc) == Some(c);
    assert ParseCorner("", sc).None? && Corners([""], sc) == [];
    assert Corners([w3, ""], sc) == [c];
    assert Corners([w2, w3, ""], sc) == [b, c];
    assert Corners(ws, sc) == [a, b, c];
    assert CornerAsWritten("", 2, sc) == Some(b) && CornersAsWritten([""], 2, sc) == [b];
    assert CornersAsWritten([w3, ""], 1, sc) == [c, b];
    assert CornersAsWritten([w2, w3, ""], 0, sc) == [b, c, b];
    assert CornersAsWritten(ws, vi0, sc) == [a, b, c, b];
    assert [a, b, c, b][..3] == [a, b, c];
    assert [a, b, c][..2] == [a, b];
  }

  // ---------------------------------------------------------------- lines

  predicate IsVertex(words: seq<string>) { |words| == 4 && words[0] == "v" }
  predicate IsNormal(words: seq<string>) { |words| == 4 && words[0] == "vn" }
  predicate IsTexcoord(words: seq<string>) { |words| >= 3 && words[0] == "vt" }
  predicate IsFace(words: seq<string>) { |words| > 3 && words[0] == "f" }
  predicate IsUseMtl(words: seq<string>) { |words| == 2 && words[0] == "usemtl" }
  predicate IsMtlLib(words: seq<string>) { |words| == 2 && words[0] == "mtllib" }

  /** The vector a `v` or `vn` line gives. */
  function Triple(words: seq<string>, atof: string -> real): Vec3
    requires |words| == 4
  {
    Vec3(atof(words[1]), atof(words[2]), atof(words[3]))
  }

  /** The vertex a line adds: one for a `v` line, none otherwise. */
  function VertexOf(words: seq<string>, atof: string -> real): seq<Vec3>
  {
    if IsVertex(words) then [Triple(words, atof)] else []
  }

  function NormalOf(words: seq<string>, atof: string -> real): seq<Vec3>
  {
    if IsNormal(words) then [Triple(words, atof)] else []
  }

  /** A `vt` line's texture coordinate, with y negated. */
  function TexcoordOf(words: seq<string>, atof: string -> real): seq<Vec2>
  {
    if IsTexcoord(words) then [Vec2(atof(words[1]), -atof(words[2]))] else []
  }

  /** The vertices of the `v` lines, in order. */
  function Vertices(lines: seq<seq<string>>, atof: string -> real): (r: seq<Vec3>)
    ensures |r| <= |lines|
    decreases |lines|
  {
    if lines == [] then []
    else
      var last := lines[|lines| - 1];
      Vertices(lines[..|lines| - 1], atof) + VertexOf(last, atof)
  }

  /** The normals of the `vn` lines, in order. */
  function Normals(lines: seq<seq<string>>, atof: string -> real): (r: seq<Vec3>)
    ensures |r| <= |lines|
    decreases |lines|
  {
    if lines == [] then []
    else
      var last := lines[|lines| - 1];
      Normals(lines[..|lines| - 1], atof) + NormalOf(last, atof)
  }

  /** The texture coordinates of the `vt` lines, in order, with y negated. */
  function Texcoords(lines: seq<seq<string>>, atof: string -> real): (r: seq<Vec2>)
    ensures |r| <= |lines|
    decreases |lines|
  {
    if lines == [] then []
    else
      var last := lines[|lines| - 1];
      Texcoords(lines[..|lines| - 1], atof) + TexcoordOf(last, atof)
  }

  /** The current material index: none yet, or a material of the model. */
  predicate Current(matnr: int, ms: seq<ModelMaterial>)
  {
    matnr == INDEX_ERROR || 0 <= matnr < |ms|
  }

  /**
   * The effect of an `f` line on the materials: with no current material
   * the default is appended and material 0 becomes current (the default
   * only when it is the sole material); the face's fan goes to the current
   * material.
   */
  ghost predicate FaceAdded(ms0: seq<ModelMaterial>, matnr: int, words: seq<string>, sc: Scanners, fallback: ModelMaterial,
                            ms: seq<ModelMaterial>, matnr': int)
    requires |words| > 0
  {
    var mat := if matnr == INDEX_ERROR then 0 else matnr;
    var ms1 := if matnr == INDEX_ERROR then ms0 + [fallback] else ms0;
    matnr' == mat && 0 <= mat < |ms1| &&
    ms == ms1[mat := ms1[mat].(triangles := ms1[mat].triangles + Fan(Corners(words[1..], sc)))]
  }

  /** One `f` line (obj.cpp:80-151). */
  method Face_Line(model: Model, matnr: int, words: seq<string>, sc: Scanners, fallback: ModelMaterial) returns (matnr': int)
    requires IsFace(words) && Current(matnr, model.materials)
    modifies model`materials
    ensures FaceAdded(old(model.materials), matnr, words, sc, fallback, model.materials, matnr')
  {
    matnr' := matnr;
    if matnr' == INDEX_ERROR {
      model.materials := model.materials + [fallback];
      matnr' := 0;
    }
    Face(model, matnr', words[1..], sc);
  }

  /**
   * The effect of one OBJ line on the materials and the current material:
   * `f` adds a face, `usemtl` switches to a material found by name (an
   * unknown name is ignored), `mtllib` loads the named file's materials as
   * MaterialsLoaded says; other lines leave both alone.
   */
  ghost predicate ObjStepped(ms0: seq<ModelMaterial>, matnr: int, words: seq<string>, sc: Scanners,
                             library: string -> seq<ModelMaterial>, fallback: ModelMaterial, ms: seq<ModelMaterial>, matnr': int)
    requires |words| > 0
  {
    && (IsFace(words) ==> FaceAdded(ms0, matnr, words, sc, fallback, ms, matnr'))
    && (IsUseMtl(words) ==>
          && ms == ms0
          && matnr' == (var found := FindMaterial(ms0, words[1]); if found == INDEX_ERROR then matnr else found))
    && (IsMtlLib(words) ==> ms == MaterialsLoaded(ms0, library(words[1])) && matnr' == matnr)
    && (!IsFace(words) && !IsUseMtl(words) && !IsMtlLib(words) ==> ms == ms0 && matnr' == matnr)
  }

  /**
   * One line of Load_OBJ (obj.cpp:56-167): `v`, `vn` and `vt` append to
   * their lists, and the materials change as ObjStepped says.
   */
  method Obj_Line(model: Model, matnr: int, words: seq<string>, atof: string -> real, sc: Scanners,
                  library: string -> seq<ModelMaterial>, fallback: ModelMaterial) returns (matnr': int)
    requires |words| > 0 && Current(matnr, model.materials)
    modifies model`vertices, model`normals, model`texcoords, model`materials
    ensures Current(matnr', model.materials)
    ensures model.vertices == old(model.vertices) + VertexOf(words, atof)
    ensures model.normals == old(model.normals) + NormalOf(words, atof)
    ensures model.texcoords == old(model.texcoords) + TexcoordOf(words, atof)
    ensures ObjStepped(old(model.materials), matnr, words, sc, library, fallback, model.materials, matnr')
  {
    matnr' := matnr;
    if IsVertex(words) {
      model.vertices := model.vertices + [Triple(words, atof)];
    } else if IsNormal(words) {
      model.normals := model.normals + [Triple(words, atof)];
    } else if IsTexcoord(words) {
      model.texcoords := model.texcoords + [Vec2(atof(words[1]), -atof(words[2]))];
    } else if IsFace(words) {
      matnr' := Face_Line(model, matnr, words, sc, fallback);
    } else if IsUseMtl(words) {
      var found := FindMaterial(model.materials, words[1]);
      if found != INDEX_ERROR {
        matnr' := found;
      }
    } else if IsMtlLib(words) {
      Load_Material(model, library(words[1]));
    }
  }

  /** The materials and current material after one OBJ line: the state ObjStepped allows. */
  function ObjNext(ms: seq<ModelMaterial>, matnr: int, words: seq<string>, sc: Scanners,
                   library: string -> seq<ModelMaterial>, fallback: ModelMaterial): (r: (seq<ModelMaterial>, int))
    requires |words| > 0 && Current(matnr, ms)
    ensures Current(r.1, r.0)
    ensures ObjStepped(ms, matnr, words, sc, library, fallback, r.0, r.1)
  {
    if IsFace(words) then
      var mat := if matnr == INDEX_ERROR then 0 else matnr;
      var ms1 := if matnr == INDEX_ERROR then ms + [fallback] else ms;
      (ms1[mat := ms1[mat].(triangles := ms1[mat].triangles + Fan(Corners(words[1..], sc)))], mat)
    else if IsUseMtl(words) then
      var found := FindMaterial(ms, words[1]);
      (ms, if found == INDEX_ERROR then matnr else found)
    else if IsMtlLib(words) then (MaterialsLoaded(ms, library(words[1])), matnr)
    else (ms, matnr)
  }

  /** The materials and current material after a run of OBJ lines, taken in order. */
  function ObjFold(ms: seq<ModelMaterial>, matnr: int, lines: seq<seq<string>>, sc: Scanners,
                   library: string -> seq<ModelMaterial>, fallback: ModelMaterial): (r: (seq<ModelMaterial>, int))
    requires Current(matnr, ms) && forall l :: 0 <= l < |lines| ==> |lines[l]| > 0
    ensures Current(r.1, r.0)
    decreases |lines|
  {
    if lines == [] then (ms, matnr)
    else
      var before := ObjFold(ms, matnr, lines[..|lines| - 1], sc, library, fallback);
      ObjNext(before.0, before.1, lines[|lines| - 1], sc, library, fallback)
  }

  /** A state ObjStepped allows is the one ObjNext computes: a line has one effect. */
  lemma ObjSteppedUnique(ms: seq<ModelMaterial>, matnr: int, words: seq<string>, sc: Scanners,
                         library: string -> seq<ModelMaterial>, fallback: ModelMaterial, ms': seq<ModelMaterial>, matnr': int)
    requires |words| > 0 && Current(matnr, ms)
    requires ObjStepped(ms, matnr, words, sc, library, fallback, ms', matnr')
    ensures (ms', matnr') == ObjNext(ms, matnr, words, sc, library, fallback)
  {
  }

  /**
   * Reading OBJ lines never removes a material or a triangle, and never
   * renames or retextures a material: the materials before keep their names
   * and textures and their triangles as a prefix, and their colours change
   * at most by the ambient fix an `mtllib` line applies.
   */
  lemma {:induction false} ObjFoldOnlyAppends(ms: seq<ModelMaterial>, matnr: int, lines: seq<seq<string>>, sc: Scanners,
                                              library: string -> seq<ModelMaterial>, fallback: ModelMaterial)
    requires Current(matnr, ms) && forall l :: 0 <= l < |lines| ==> |lines[l]| > 0
    ensures var r := ObjFold(ms, matnr, lines, sc, library, fallback).0;
            |ms| <= |r| && forall j :: 0 <= j < |ms| ==> Extends(ms[j], r[j])
    decreases |lines|
  {
    if lines != [] {
      var init := lines[..|lines| - 1];
      ObjFoldOnlyAppends(ms, matnr, init, sc, library, fallback);
      var before := ObjFold(ms, matnr, init, sc, library, fallback);
      var r := ObjNext(before.0, before.1, lines[|lines| - 1], sc, library, fallback).0;
      assert |before.0| <= |r|;
      forall j | 0 <= j < |ms|
        ensures Extends(ms[j], r[j])
      {
        assert Extends(ms[j], before.0[j]) && Extends(before.0[j], r[j]);
      }
    }
  }

  /** `m` is `m0` with triangles possibly appended and its ambient colour possibly fixed. */
  predicate Extends(m0: ModelMaterial, m: ModelMaterial)
  {
    m.name == m0.name && m.diffusetex == m0.diffusetex && m0.triangles <= m.triangles &&
    (m.colours == m0.colours || m.colours == FixAmbient(m0).colours)
  }

  // ---------------------------------------------------------------- repair

  /** `x` is below `length`: the unsigned comparison `x < length` of an index. */
  predicate InRange(x: int, length: int)
  {
    0 <= x < length
  }

  /** A normal index is valid when it names a normal or is INDEX_ERROR (a normal to generate). */
  predicate NormalOk(n: int, nl: int)
  {
    InRange(n, nl) || n == INDEX_ERROR
  }

  predicate VerticesOk(t: Triangle, vl: int)
  {
    InRange(t.c0.v, vl) && InRange(t.c1.v, vl) && InRange(t.c2.v, vl)
  }

  predicate TexcoordsOk(t: Triangle, tl: int)
  {
    InRange(t.c0.t, tl) && InRange(t.c1.t, tl) && InRange(t.c2.t, tl)
  }

  predicate NormalsOk(t: Triangle, nl: int)
  {
    NormalOk(t.c0.n, nl) && NormalOk(t.c1.n, nl) && NormalOk(t.c2.n, nl)
  }

  /** Every index of the triangle is usable with the given list lengths. */
  predicate TriangleValid(t: Triangle, vl: int, tl: int, nl: int)
  {
    VerticesOk(t, vl) && TexcoordsOk(t, tl) && NormalsOk(t, nl)
  }

  /** Every triangle of every material is valid. */
  predicate AllValid(ms: seq<ModelMaterial>, vl: int, tl: int, nl: int)
  {
    forall j, k :: 0 <= j < |ms| && 0 <= k < |ms[j].triangles| ==> TriangleValid(ms[j].triangles[k], vl, tl, nl)
  }

  function Fix(c: Corner, badV: bool, badT: bool, badN: bool): Corner
  {
    Corner(if badV then 0 else c.v, if badT then 0 else c.t, if badN then INDEX_ERROR else c.n)
  }

  /**
   * The index check of one triangle (obj.cpp:204-228): an out-of-range
   * vertex index sets all three to 0, likewise texcoords, and an
   * out-of-range normal that is not INDEX_ERROR sets all three normals to
   * INDEX_ERROR. With at least one vertex and one texcoord the result is
   * valid, and a triangle is left as it is exactly when it was valid.
   */
  function RepairTriangle(t: Triangle, vl: int, tl: int, nl: int): (r: Triangle)
    ensures vl >= 1 && tl >= 1 ==> TriangleValid(r, vl, tl, nl)
    ensures vl >= 1 && tl >= 1 ==> (r == t <==> TriangleValid(t, vl, tl, nl))
    ensures VerticesOk(t, vl) ==> r.c0.v == t.c0.v && r.c1.v == t.c1.v && r.c2.v == t.c2.v
    ensures !VerticesOk(t, vl) ==> r.c0.v == r.c1.v == r.c2.v == 0
    ensures TexcoordsOk(t, tl) ==> r.c0.t == t.c0.t && r.c1.t == t.c1.t && r.c2.t == t.c2.t
    ensures !TexcoordsOk(t, tl) ==> r.c0.t == r.c1.t == r.c2.t == 0
    ensures NormalsOk(t, nl) ==> r.c0.n == t.c0.n && r.c1.n == t.c1.n && r.c2.n == t.c2.n
    ensures !NormalsOk(t, nl) ==> r.c0.n == r.c1.n == r.c2.n == INDEX_ERROR
  {
    var badV, badT, badN := !VerticesOk(t, vl), !TexcoordsOk(t, tl), !NormalsOk(t, nl);
    Triangle(Fix(t.c0, badV, badT, badN), Fix(t.c1, badV, badT, badN), Fix(t.c2, badV, badT, badN))
  }

  /** `ms` is `ms0` with every triangle checked, and nothing else changed. */
  ghost predicate Repaired(ms0: seq<ModelMaterial>, ms: seq<ModelMaterial>, vl: int, tl: int, nl: int)
  {
    |ms| == |ms0| &&
    forall j :: 0 <= j < |ms| ==> RepairedMaterial(ms0[j], ms[j], vl, tl, nl)
  }

  ghost predicate RepairedMaterial(m0: ModelMaterial, m: ModelMaterial, vl: int, tl: int, nl: int)
  {
    m.name == m0.name && m.colours == m0.colours && m.diffusetex == m0.diffusetex &&
    |m.triangles| == |m0.triangles| &&
    forall k :: 0 <= k < |m.triangles| ==> m.triangles[k] == RepairTriangle(m0.triangles[k], vl, tl, nl)
  }

  /** After the check every index is usable, and in particular every vertex index names a vertex. */
  lemma RepairedValid(ms0: seq<ModelMaterial>, ms: seq<ModelMaterial>, vl: int, tl: int, nl: int)
    requires Repaired(ms0, ms, vl, tl, nl) && vl >= 1 && tl >= 1
    ensures AllValid(ms, vl, tl, nl) && VerticesIn(ms, vl)
  {
    forall j, k | 0 <= j < |ms| && 0 <= k < |ms[j].triangles|
      ensures TriangleValid(ms[j].triangles[k], vl, tl, nl)
    {
      assert RepairedMaterial(ms0[j], ms[j], vl, tl, nl);
    }
  }

  /** The check of one material's triangles (obj.cpp:198-229), in place. */
  method Repair_Material(model: Model, mat: nat, vl: int, tl: int, nl: int)
    requires mat < |model.materials|
    modifies model`materials
    ensures |model.materials| == |old(model.materials)|
    ensures RepairedMaterial(old(model.materials)[mat], model.materials[mat], vl, tl, nl)
    ensures forall j :: 0 <= j < |model.materials| && j != mat ==> model.materials[j] == old(model.materials)[j]
  {
    var tris := model.materials[mat].triangles;
    var tri := 0;
    while tri < |tris|
      invariant tri <= |tris| == |old(model.materials)[mat].triangles|
      invariant forall k :: 0 <= k < tri ==> tris[k] == RepairTriangle(old(model.materials)[mat].triangles[k], vl, tl, nl)
      invariant forall k :: tri <= k < |tris| ==> tris[k] == old(model.materials)[mat].triangles[k]
    {
      tris := tris[tri := RepairTriangle(tris[tri], vl, tl, nl)];
      tri := tri + 1;
    }
    model.materials := model.materials[mat := model.materials[mat].(triangles := tris)];
  }

  /** The index check over all materials (obj.cpp:196-231). */
  method Repair(model: Model, vl: int, tl: int, nl: int)
    modifies model`materials
    ensures Repaired(old(model.materials), model.materials, vl, tl, nl)
  {
    var mat := 0;
    while mat < |model.materials|
      invariant mat <= |model.materials| == |old(model.materials)|
      invariant forall j :: 0 <= j < mat ==> RepairedMaterial(old(model.materials)[j], model.materials[j], vl, tl, nl)
      invariant forall j :: mat <= j < |model.materials| ==> model.materials[j] == old(model.materials)[j]
    {
      Repair_Material(model, mat, vl, tl, nl);
      mat := mat + 1;
    }
  }

  /**
   * Model::Load_OBJ (obj.cpp:29-239). Every line goes through Obj_Line.
   * The load fails when no material or no vertex was read; otherwise a
   * (0,0) texcoord is added when there is none, every triangle's indices
   * are checked, and every index the model then holds is usable -- the
   * vertex indices satisfy what Create_Mesh requires. Normalize_Normals and
   * Generate_Missing_Normals are not part of this model.
   */
  method Load_OBJ(model: Model, file: Option<seq<seq<string>>>, atof: string -> real, sc: Scanners,
                  library: string -> seq<ModelMaterial>, fallback: ModelMaterial) returns (ok: bool)
    requires file.Some? ==> forall l :: 0 <= l < |file.value| ==> |file.value[l]| > 0
    modifies model
    ensures file.None? ==> !ok && unchanged(model)
    ensures file.Some? ==> model.vertices == old(model.vertices) + Vertices(file.value, atof)
    ensures file.Some? ==> model.normals == old(model.normals) + Normals(file.value, atof)
    ensures file.Some? ==> (ok <==> |model.materials| > 0 && |model.vertices| > 0)
    ensures ok ==> (model.texcoords ==
      var ts := old(model.texcoords) + Texcoords(file.value, atof); if ts == [] then [Vec2(0.0, 0.0)] else ts)
    ensures ok ==> AllValid(model.materials, |model.vertices|, |model.texcoords|, |model.normals|)
    ensures ok ==> VerticesIn(model.materials, |model.vertices|)
    ensures file.Some? && !ok ==> model.texcoords == old(model.texcoords) + Texcoords(file.value, atof)
    ensures file.Some? && !ok ==> model.materials == ObjFold(old(model.materials), INDEX_ERROR, file.value, sc, library, fallback).0
    ensures ok ==> Repaired(ObjFold(old(model.materials), INDEX_ERROR, file.value, sc, library, fallback).0, model.materials,
                            |model.vertices|, |model.texcoords|, |model.normals|)
  {
    if file.None? {
      return false;
    }
    Parse_OBJ(model, file.value, atof, sc, library, fallback);
    if |model.materials| == 0 || |model.vertices| == 0 {
      return false;
    }
    Check_Indices(model);
    return true;
  }

  /** The three lists are the starting lists with the items of `lines` appended. */
  ghost predicate ListsAfter(vs: seq<Vec3>, ns: seq<Vec3>, ts: seq<Vec2>, vs0: seq<Vec3>, ns0: seq<Vec3>, ts0: seq<Vec2>,
                             lines: seq<seq<string>>, atof: string -> real)
  {
    vs == vs0 + Vertices(lines, atof) && ns == ns0 + Normals(lines, atof) && ts == ts0 + Texcoords(lines, atof)
  }

  /** One more line appends that line's items. */
  lemma ListsSnoc(vs: seq<Vec3>, ns: seq<Vec3>, ts: seq<Vec2>, vs0: seq<Vec3>, ns0: seq<Vec3>, ts0: seq<Vec2>,
                  lines: seq<seq<string>>, l: nat, atof: string -> real)
    requires l < |lines| && ListsAfter(vs, ns, ts, vs0, ns0, ts0, lines[..l], atof)
    ensures ListsAfter(vs + VertexOf(lines[l], atof), ns + NormalOf(lines[l], atof), ts + TexcoordOf(lines[l], atof),
                       vs0, ns0, ts0, lines[..l + 1], atof)
  {
    assert lines[..l + 1][..l] == lines[..l];
  }

  /** The line loop of Load_OBJ (obj.cpp:54-168). */
  method Parse_OBJ(model: Model, lines: seq<seq<string>>, atof: string -> real, sc: Scanners,
                   library: string -> seq<ModelMaterial>, fallback: ModelMaterial)
    requires forall l :: 0 <= l < |lines| ==> |lines[l]| > 0
    modifies model`vertices, model`normals, model`texcoords, model`materials
    ensures ListsAfter(model.vertices, model.normals, model.texcoords,
                       old(model.vertices), old(model.normals), old(model.texcoords), lines, atof)
    ensures model.materials == ObjFold(old(model.materials), INDEX_ERROR, lines, sc, library, fallback).0
  {
    ghost var vs0, ns0, ts0, ms0 := model.vertices, model.normals, model.texcoords, model.materials;
    var matnr := INDEX_ERROR;
    var l := 0;
    while l < |lines|
      invariant l <= |lines|
      invariant Current(matnr, model.materials)
      invariant ListsAfter(model.vertices, model.normals, model.texcoords, vs0, ns0, ts0, lines[..l], atof)
      invariant (model.materials, matnr) == ObjFold(ms0, INDEX_ERROR, lines[..l], sc, library, fallback)
    {
      ListsSnoc(model.vertices, model.normals, model.texcoords, vs0, ns0, ts0, lines, l, atof);
      ghost var ms := model.materials;
      var matnr' := Obj_Line(model, matnr, lines[l], atof, sc, library, fallback);
      ObjSteppedUnique(ms, matnr, lines[l], sc, library, fallback, model.materials, matnr');
      assert lines[..l + 1][..l] == lines[..l];
      matnr := matnr';
      l := l + 1;
    }
    assert lines[..l] == lines;
  }

  /**
   * The checks after a successful parse (obj.cpp:179-231): a (0,0)
   * texcoord when there is none, then every triangle's indices checked.
   */
  method Check_Indices(model: Model)
    requires |model.vertices| > 0
    modifies model`texcoords, model`materials
    ensures model.texcoords == if old(model.texcoords) == [] then [Vec2(0.0, 0.0)] else old(model.texcoords)
    ensures Repaired(old(model.materials), model.materials, |model.vertices|, |model.texcoords|, |model.normals|)
    ensures AllValid(model.materials, |model.vertices|, |model.texcoords|, |model.normals|)
    ensures VerticesIn(model.materials, |model.vertices|)
  {
    if |model.texcoords| == 0 {
      model.texcoords := model.texcoords + [Vec2(0.0, 0.0)];
    }
    ghost var ms0 := model.materials;
    Repair(model, |model.vertices|, |model.texcoords|, |model.normals|);
    RepairedValid(ms0, model.materials, |model.vertices|, |model.texcoords|, |model.normals|);
  }

  // ---------------------------------------------------------------- MTL

  predicate IsNewMtl(words: seq<string>) { |words| == 2 && words[0] == "newmtl" }

  /** The names of the `newmtl` lines, in order. */
  function NewNames(lines: seq<seq<string>>): (r: seq<string>)
    ensures |r| <= |lines|
    ensures r == [] <==> forall l :: 0 <= l < |lines| ==> !IsNewMtl(lines[l])
    decreases |lines|
  {
    if lines == [] then []
    else
      var last := lines[|lines| - 1];
      NewNames(lines[..|lines| - 1]) + (if IsNewMtl(last) then [last[1]] else [])
  }

  /** The shininess came from the default material or was read, and so is at most 128. */
  predicate ShininessOk(m: ModelMaterial, fallback: ModelMaterial)
  {
    m.colours.shininess <= 128.0 || m.colours.shininess == fallback.colours.shininess
  }

  /**
   * A property line of the current material (obj.cpp:273-325): `K` with a
   * second letter `a`, `d`, `s` or `e` and three values sets that colour
   * (only the first two letters are looked at), `N` with `s` and one value
   * sets the shininess, clamped to 128, and `map_Kd` sets the diffuse
   * texture. Name and triangles are never touched.
   */
  function Property(m: ModelMaterial, words: seq<string>, atof: string -> real, relPath: string -> string): (r: ModelMaterial)
    requires |words| > 0
    ensures r.name == m.name && r.triangles == m.triangles
    ensures r.colours.shininess != m.colours.shininess ==> r.colours.shininess <= 128.0
    ensures r.colours.ambient != m.colours.ambient ==> |words| == 4 && |words[0]| >= 2 && words[0][..2] == "Ka"
    ensures r.colours.diffuse != m.colours.diffuse ==> |words| == 4 && |words[0]| >= 2 && words[0][..2] == "Kd"
    ensures r.diffusetex != m.diffusetex ==> |words| == 2 && words[0] == "map_Kd"
  {
    var w, c := words[0], m.colours;
    if |w| >= 1 && w[0] == 'K' then
      if |words| != 4 || |w| < 2 then m
      else if w[1] == 'a' then m.(colours := c.(ambient := Triple(words, atof)))
      else if w[1] == 'd' then m.(colours := c.(diffuse := Triple(words, atof)))
      else if w[1] == 's' then m.(colours := c.(specular := Triple(words, atof)))
      else if w[1] == 'e' then m.(colours := c.(emission := Triple(words, atof)))
      else m
    else if |w| >= 1 && w[0] == 'N' then
      if |w| >= 2 && w[1] == 's' && |words| == 2 then
        var s := atof(words[1]);
        m.(colours := c.(shininess := if s > 128.0 then 128.0 else s))
      else m
    else if w == "map_Kd" && |words| == 2 then m.(diffusetex := relPath(words[1]))
    else m
  }

  /**
   * The effect of one MTL line on the materials and the current material:
   * `newmtl` appends the default material under the given name and makes
   * it current; before the first one, other lines are ignored; after it
   * they set properties of the current material.
   */
  ghost predicate MtlStepped(ms: seq<ModelMaterial>, matnr: int, words: seq<string>, atof: string -> real, relPath: string -> string,
                             fallback: ModelMaterial, ms': seq<ModelMaterial>, matnr': int)
    requires |words| > 0 && Current(matnr, ms)
  {
    (IsNewMtl(words) ==> ms' == ms + [fallback.(name := words[1])] && matnr' == |ms|) &&
    (!IsNewMtl(words) && matnr == INDEX_ERROR ==> ms' == ms && matnr' == matnr) &&
    (!IsNewMtl(words) && matnr != INDEX_ERROR ==> ms' == ms[matnr := Property(ms[matnr], words, atof, relPath)] && matnr' == matnr)
  }

  /** The materials and current material after one MTL line: the state MtlStepped allows. */
  function MtlNext(ms: seq<ModelMaterial>, matnr: int, words: seq<string>, atof: string -> real, relPath: string -> string,
                   fallback: ModelMaterial): (r: (seq<ModelMaterial>, int))
    requires |words| > 0 && Current(matnr, ms)
    ensures Current(r.1, r.0)
    ensures MtlStepped(ms, matnr, words, atof, relPath, fallback, r.0, r.1)
  {
    if IsNewMtl(words) then (ms + [fallback.(name := words[1])], |ms|)
    else if matnr == INDEX_ERROR then (ms, matnr)
    else (ms[matnr := Property(ms[matnr], words, atof, relPath)], matnr)
  }

  /** The materials and current material after a run of MTL lines, taken in order. */
  function MtlFold(ms: seq<ModelMaterial>, matnr: int, lines: seq<seq<string>>, atof: string -> real,
                   relPath: string -> string, fallback: ModelMaterial): (r: (seq<ModelMaterial>, int))
    requires Current(matnr, ms) && forall l :: 0 <= l < |lines| ==> |lines[l]| > 0
    ensures Current(r.1, r.0)
    decreases |lines|
  {
    if lines == [] then (ms, matnr)
    else
      var before := MtlFold(ms, matnr, lines[..|lines| - 1], atof, relPath, fallback);
      MtlNext(before.0, before.1, lines[|lines| - 1], atof, relPath, fallback)
  }

  /** A state MtlStepped allows is the one MtlNext computes. */
  lemma MtlSteppedUnique(ms: seq<ModelMaterial>, matnr: int, words: seq<string>, atof: string -> real,
                         relPath: string -> string, fallback: ModelMaterial, ms': seq<ModelMaterial>, matnr': int)
    requires |words| > 0 && Current(matnr, ms)
    requires MtlStepped(ms, matnr, words, atof, relPath, fallback, ms', matnr')
    ensures (ms', matnr') == MtlNext(ms, matnr, words, atof, relPath, fallback)
  {
  }

  /**
   * The fold keeps what MtlParsed promises: one new material per `newmtl`
   * name, in order, the last one current, the materials before untouched,
   * and every new shininess the default's or at most 128.
   */
  lemma {:induction false} MtlFoldParsed(ms0: seq<ModelMaterial>, lines: seq<seq<string>>, atof: string -> real,
                                         relPath: string -> string, fallback: ModelMaterial)
    requires forall l :: 0 <= l < |lines| ==> |lines[l]| > 0
    ensures var r := MtlFold(ms0, INDEX_ERROR, lines, atof, relPath, fallback);
            MtlParsed(ms0, r.0, NewNames(lines), r.1, fallback)
    decreases |lines|
  {
    if lines != [] {
      var init, last := lines[..|lines| - 1], lines[|lines| - 1];
      MtlFoldParsed(ms0, init, atof, relPath, fallback);
      var before := MtlFold(ms0, INDEX_ERROR, init, atof, relPath, fallback);
      var r := MtlNext(before.0, before.1, last, atof, relPath, fallback);
      assert NewNames(lines) == NewNames(init) + (if IsNewMtl(last) then [last[1]] else []);
      MtlStep(ms0, before.0, NewNames(init), before.1, last, atof, relPath, fallback, r.0, r.1);
    }
  }

  /** One line of Load_MTL (obj.cpp:259-328). */
  method Mtl_Line(model: Model, matnr: int, words: seq<string>, atof: string -> real, relPath: string -> string,
                  fallback: ModelMaterial) returns (matnr': int)
    requires |words| > 0 && |model.materials| < INDEX_ERROR && Current(matnr, model.materials)
    modifies model`materials
    ensures MtlStepped(old(model.materials), matnr, words, atof, relPath, fallback, model.materials, matnr')
  {
    matnr' := matnr;
    if IsNewMtl(words) {
      matnr' := |model.materials|;
      model.materials := model.materials + [fallback.(name := words[1])];
    } else if matnr != INDEX_ERROR {
      model.materials := model.materials[matnr := Property(model.materials[matnr], words, atof, relPath)];
    }
  }

  /** An ambient colour of exactly (0,0,0) becomes the diffuse colour. */
  function FixAmbient(m: ModelMaterial): (r: ModelMaterial)
    ensures AmbientSet(r)
    ensures m.colours.ambient != Zero ==> r == m
    ensures r.colours.diffuse == m.colours.diffuse && r.name == m.name && r.triangles == m.triangles
    ensures r.colours.shininess == m.colours.shininess && r.diffusetex == m.diffusetex
  {
    if m.colours.ambient == Zero then m.(colours := m.colours.(ambient := m.colours.diffuse)) else m
  }

  /** A material whose ambient colour is (0,0,0) only when its diffuse colour is too: what the fix leaves. */
  predicate AmbientSet(m: ModelMaterial)
  {
    m.colours.ambient == Zero ==> m.colours.diffuse == Zero
  }

  /**
   * Model::Load_Material (model.cpp, which is not part of this model) on a
   * file whose materials, as Load_MTL parses them, are `more`: they are
   * appended and, when there is at least one, the ambient fix of
   * obj.cpp:339-351 runs over every material from the first, so materials
   * that were there before are fixed too. A file without materials changes
   * nothing.
   */
  function MaterialsLoaded(ms: seq<ModelMaterial>, more: seq<ModelMaterial>): (r: seq<ModelMaterial>)
    ensures |r| == |ms| + |more|
    ensures more == [] ==> r == ms
    ensures forall j :: 0 <= j < |ms| ==> Extends(ms[j], r[j]) && r[j].triangles == ms[j].triangles
    ensures forall k :: 0 <= k < |more| ==> Extends(more[k], r[|ms| + k]) && r[|ms| + k].triangles == more[k].triangles
    ensures more != [] ==> forall j :: 0 <= j < |r| ==> AmbientSet(r[j])
  {
    if more == [] then ms
    else
      var all := ms + more;
      seq(|all|, j requires 0 <= j < |all| => FixAmbient(all[j]))
  }

  /** Load_Material: the loaded materials are appended, then the ambient fix runs over all of them. */
  method Load_Material(model: Model, more: seq<ModelMaterial>)
    modifies model`materials
    ensures model.materials == MaterialsLoaded(old(model.materials), more)
  {
    model.materials := model.materials + more;
    if more != [] {
      Fix_Ambients(model, |model.materials| - 1);
    }
  }

  /**
   * Model::Load_MTL (obj.cpp:241-355). The load succeeds exactly when a
   * `newmtl` line was seen; a new material is added for each, under its
   * name and in order, with the default's triangles and a shininess that is
   * the default's or at most 128. Property lines before the first one
   * change nothing. On success every material up to the last -- those
   * loaded before too -- has its ambient colour fixed.
   */
  method Load_MTL(model: Model, file: Option<seq<seq<string>>>, atof: string -> real, relPath: string -> string,
                  fallback: ModelMaterial) returns (ok: bool)
    requires file.Some? ==> forall l :: 0 <= l < |file.value| ==> |file.value[l]| > 0
    requires file.Some? ==> |model.materials| + |file.value| < INDEX_ERROR
    modifies model`materials
    ensures file.None? ==> !ok && unchanged(model)
    ensures file.Some? ==> (ok <==> NewNames(file.value) != [])
    ensures file.Some? ==> |model.materials| == |old(model.materials)| + |NewNames(file.value)|
    ensures file.Some? ==> forall k :: 0 <= k < |NewNames(file.value)| ==>
      model.materials[|old(model.materials)| + k].name == NewNames(file.value)[k]
    ensures file.Some? ==> forall j :: |old(model.materials)| <= j < |model.materials| ==>
      model.materials[j].triangles == fallback.triangles && ShininessOk(model.materials[j], fallback)
    ensures !ok ==> model.materials == old(model.materials)
    ensures ok ==> forall j :: 0 <= j < |old(model.materials)| ==> model.materials[j] == FixAmbient(old(model.materials)[j])
    ensures ok ==> forall j :: 0 <= j < |model.materials| ==>
      (model.materials[j].colours.ambient == Zero ==> model.materials[j].colours.diffuse == Zero)
    ensures file.Some? ==> var parsed := MtlFold(old(model.materials), INDEX_ERROR, file.value, atof, relPath, fallback).0;
      |model.materials| == |parsed| &&
      forall j :: 0 <= j < |parsed| ==> model.materials[j] == if ok then FixAmbient(parsed[j]) else parsed[j]
    ensures file.Some? ==> var parsed := MtlFold(old(model.materials), INDEX_ERROR, file.value, atof, relPath, fallback).0;
      model.materials == MaterialsLoaded(old(model.materials), parsed[|old(model.materials)|..])
  {
    if file.None? {
      return false;
    }
    var matnr := Parse_MTL(model, file.value, atof, relPath, fallback);
    if matnr == INDEX_ERROR {
      return false;
    }
    Fix_Ambients(model, matnr);
    return true;
  }

  /** The line loop of Load_MTL (obj.cpp:257-329). */
  method Parse_MTL(model: Model, lines: seq<seq<string>>, atof: string -> real, relPath: string -> string,
                   fallback: ModelMaterial) returns (matnr: int)
    requires forall l :: 0 <= l < |lines| ==> |lines[l]| > 0
    requires |model.materials| + |lines| < INDEX_ERROR
    modifies model`materials
    ensures MtlParsed(old(model.materials), model.materials, NewNames(lines), matnr, fallback)
    ensures (model.materials, matnr) == MtlFold(old(model.materials), INDEX_ERROR, lines, atof, relPath, fallback)
  {
    matnr := INDEX_ERROR;
    var l := 0;
    while l < |lines|
      invariant l <= |lines|
      invariant MtlParsed(old(model.materials), model.materials, NewNames(lines[..l]), matnr, fallback)
      invariant (model.materials, matnr) == MtlFold(old(model.materials), INDEX_ERROR, lines[..l], atof, relPath, fallback)
    {
      ghost var names := NewNames(lines[..l]);
      ghost var ms := model.materials;
      assert lines[..l + 1][..l] == lines[..l];
      assert NewNames(lines[..l + 1]) == names + (if IsNewMtl(lines[l]) then [lines[l][1]] else []);
      assert |ms| < INDEX_ERROR;
      var matnr' := Mtl_Line(model, matnr, lines[l], atof, relPath, fallback);
      MtlStep(old(model.materials), ms, names, matnr, lines[l], atof, relPath, fallback, model.materials, matnr');
      MtlSteppedUnique(ms, matnr, lines[l], atof, relPath, fallback, model.materials, matnr');
      matnr := matnr';
      l := l + 1;
    }
    assert lines[..l] == lines;
  }

  /**
   * What the line loop of Load_MTL keeps: one new material per `newmtl`
   * name, in order, the last of them current; the materials before are
   * untouched.
   */
  ghost predicate MtlParsed(ms0: seq<ModelMaterial>, ms: seq<ModelMaterial>, names: seq<string>, matnr: int, fallback: ModelMaterial)
  {
    |ms| == |ms0| + |names| && Current(matnr, ms) &&
    (names == [] ==> matnr == INDEX_ERROR && ms == ms0) &&
    (names != [] ==> matnr == |ms| - 1) &&
    (forall j :: 0 <= j < |ms0| ==> ms[j] == ms0[j]) &&
    (forall j :: |ms0| <= j < |ms| ==> ms[j].triangles == fallback.triangles && ShininessOk(ms[j], fallback)) &&
    forall k :: 0 <= k < |names| ==> ms[|ms0| + k].name == names[k]
  }

  /** Each line keeps what the loop keeps, with the line's name added when it is a `newmtl`. */
  lemma MtlStep(ms0: seq<ModelMaterial>, ms: seq<ModelMaterial>, names: seq<string>, matnr: int, words: seq<string>,
                atof: string -> real, relPath: string -> string, fallback: ModelMaterial, ms': seq<ModelMaterial>, matnr': int)
    requires |words| > 0 && MtlParsed(ms0, ms, names, matnr, fallback)
    requires MtlStepped(ms, matnr, words, atof, relPath, fallback, ms', matnr')
    ensures MtlParsed(ms0, ms', names + (if IsNewMtl(words) then [words[1]] else []), matnr', fallback)
  {
    var names' := names + (if IsNewMtl(words) then [words[1]] else []);
    if IsNewMtl(words) {
      assert names' != [] && |ms'| == |ms0| + |names'| && matnr' == |ms'| - 1;
      forall j | 0 <= j < |ms0|
        ensures ms'[j] == ms0[j]
      {
        assert ms'[j] == ms[j];
      }
      forall k | 0 <= k < |names'|
        ensures ms'[|ms0| + k].name == names'[k]
      {
        if k < |names| {
          assert ms'[|ms0| + k] == ms[|ms0| + k];
        }
      }
    } else if matnr != INDEX_ERROR {
      assert names' == names && |ms0| <= matnr;
      assert ms'[matnr] == Property(ms[matnr], words, atof, relPath);
    }
  }

  /** The ambient fix (obj.cpp:339-351) of the materials up to `last`, in place. */
  method Fix_Ambients(model: Model, last: nat)
    requires last < |model.materials|
    modifies model`materials
    ensures |model.materials| == |old(model.materials)|
    ensures forall j :: 0 <= j <= last ==> model.materials[j] == FixAmbient(old(model.materials)[j])
    ensures forall j :: last < j < |model.materials| ==> model.materials[j] == old(model.materials)[j]
  {
    var i := 0;
    while i <= last
      invariant i <= last + 1 && |model.materials| == |old(model.materials)|
      invariant forall j :: 0 <= j < i ==> model.materials[j] == FixAmbient(old(model.materials)[j])
      invariant forall j :: i <= j < |model.materials| ==> model.materials[j] == old(model.materials)[j]
    {
      model.materials := model.materials[i := FixAmbient(model.materials[i])];
      i := i + 1;
    }
  }
}
