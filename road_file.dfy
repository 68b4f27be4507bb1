/**
 * Model::Load_Road (road.cpp): the line loop that reads a road file. Lines
 * define sections, select one, change the settings and the material, load
 * material files, and `add` ends; every `add` after the first makes a block
 * of road between the previous end and the new one.
 *
 * Text_File is the word source: the file is its list of lines, each a
 * non-empty list of words (Read_Line never yields an empty line). Where the
 * curve geometry would place a vertex, the model asks the parameter `shape`.
 */
module RoadFile {
  import opened Wrappers
  import opened Vectors
  import opened Models
  import opened RoadGrid
  import opened Roads
  import ObjLoader

  /**
   * Load_Road's locals between lines: the settings, the selected section,
   * the material (an index into `materials`), the two ends, what the last
   * block used (`last_xres`, `last_dpt`), `triangle_count`, and how many
   * blocks have been made, which names their vertices.
   */
  datatype Reader = Reader(settings: Settings, section: Bezier?, material: Option<nat>, oldend: End, newend: End,
                           lastXres: int, lastDpt: bool, count: int, blocks: nat)

  /** The locals before the first line: default settings, nothing selected, both ends inactive. */
  const START: Reader := Reader(DEFAULT_SETTINGS, null, None, End(false, 0.0), End(false, 0.0), 0, false, 0, 0)

  /** What Load_Road's loop works on after a line: its locals, the model's lists and the section list. */
  datatype Snapshot = Snapshot(st: Reader, vs: seq<Vec3>, ns: seq<Vec3>, ms: seq<ModelMaterial>, secs: seq<Bezier>)

  /** All triangles of all materials. */
  function TotalTriangles(ms: seq<ModelMaterial>): nat
    decreases |ms|
  {
    if ms == [] then 0 else TotalTriangles(ms[..|ms| - 1]) + |ms[|ms| - 1].triangles|
  }

  /** Appending materials adds their triangles to the total. */
  lemma {:induction false} TotalAppend(ms: seq<ModelMaterial>, more: seq<ModelMaterial>)
    ensures TotalTriangles(ms + more) == TotalTriangles(ms) + TotalTriangles(more)
    decreases |more|
  {
    if more != [] {
      var all := ms + more;
      var init := more[..|more| - 1];
      assert all[..|all| - 1] == ms + init && all[|all| - 1] == more[|more| - 1];
      assert TotalTriangles(all) == TotalTriangles(ms + init) + |more[|more| - 1].triangles|;
      assert TotalTriangles(more) == TotalTriangles(init) + |more[|more| - 1].triangles|;
      TotalAppend(ms, init);
    } else {
      assert ms + more == ms;
    }
  }

  /** Appending triangles to one material adds their number to the total. */
  lemma {:induction false} TotalGrow(ms: seq<ModelMaterial>, mat: nat, ts: seq<Triangle>)
    requires mat < |ms|
    ensures TotalTriangles(ms[mat := ms[mat].(triangles := ms[mat].triangles + ts)]) == TotalTriangles(ms) + |ts|
    decreases |ms|
  {
    var ms' := ms[mat := ms[mat].(triangles := ms[mat].triangles + ts)];
    var last := |ms| - 1;
    if mat == last {
      assert ms'[..last] == ms[..last];
    } else {
      assert ms'[..last] == ms[..last][mat := ms[mat].(triangles := ms[mat].triangles + ts)];
      TotalGrow(ms[..last], mat, ts);
    }
  }

  /** Materials without triangles add none. */
  lemma {:induction false} TotalEmpty(ms: seq<ModelMaterial>)
    requires forall j :: 0 <= j < |ms| ==> ms[j].triangles == []
    ensures TotalTriangles(ms) == 0
    decreases |ms|
  {
    if ms != [] {
      TotalEmpty(ms[..|ms| - 1]);
    }
  }

  /** Materials without triangles keep every triangle naming a vertex. */
  lemma AppendEmpty(ms: seq<ModelMaterial>, more: seq<ModelMaterial>, n: int)
    requires VerticesIn(ms, n) && forall j :: 0 <= j < |more| ==> more[j].triangles == []
    ensures VerticesIn(ms + more, n)
  {
  }

  /** Load_Material makes materials that have no triangles yet, whatever file it is given. */
  ghost predicate Blank(library: string -> seq<ModelMaterial>)
  {
    forall w, j :: 0 <= j < |library(w)| ==> library(w)[j].triangles == []
  }

  /**
   * What Load_Road relies on between lines: valid settings; at least the
   * last block's final step in the vertex list; two active ends only once
   * a block was made with the depth they give, so a material is set; a
   * material that exists; `triangle_count` counting the triangles added
   * since `base`; and, when the model started so, every triangle naming a
   * vertex.
   */
  predicate Consistent(st: Reader, model: Model, wf: bool, base: int)
    reads model
  {
    ConsistentValues(st, |model.vertices|, model.materials, wf, base)
  }

  /** Consistent, for a model with `n` vertices and materials `ms`. */
  predicate ConsistentValues(st: Reader, n: int, ms: seq<ModelMaterial>, wf: bool, base: int)
  {
    st.settings.Valid() && st.lastXres >= 0 &&
    (st.lastXres > 0 ==> n >= Rows(st.lastDpt) * (st.lastXres + 1)) &&
    (st.oldend.active && st.newend.active ==> st.lastXres > 0 && st.material.Some? && st.lastDpt == Dpt(st.oldend, st.newend)) &&
    (st.material.Some? ==> st.material.value < |ms|) &&
    TotalTriangles(ms) == base + st.count &&
    (wf ==> VerticesIn(ms, n))
  }

  /**
   * What the block an `add` line makes does, against the reader `st` and
   * the lists `vs0`, `ns0`, `ms0` before it: the default material is
   * appended and used as material 0 when none was chosen; the block's
   * vertex rows are appended, without step 0 when the last block had the
   * same xres and depth; its surfaces are appended on the material, capped
   * at the start only for the first block with depth at that end and
   * capping on; and the reader moves its ends on and records the block.
   */
  ghost predicate BlockMade(st: Reader, st': Reader, shape: VertexKey -> Vec3, fallback: ModelMaterial,
                            vs0: seq<Vec3>, ns0: seq<Vec3>, ms0: seq<ModelMaterial>,
                            vs: seq<Vec3>, ns: seq<Vec3>, ms: seq<ModelMaterial>)
    requires st.settings.Valid() && (st.material.Some? ==> st.material.value < |ms0|)
  {
    var xres, yres := st.settings.xres, st.settings.yres;
    var oldend, newend := st.newend, End(true, st.settings.depth / 2.0);
    var dpt := Dpt(oldend, newend);
    var reuse := st.lastXres == xres && st.lastDpt == dpt;
    var capHere := !st.oldend.active && oldend.offset != 0.0 && st.settings.capping;
    var mat := if st.material.Some? then st.material.value else 0;
    var ms1 := if st.material.Some? then ms0 else ms0 + [fallback];
    BlockAdded(vs0, ns0, ms1, st.count, vs, ns, ms, st'.count, mat, shape, st.blocks, xres, yres, dpt, reuse, capHere) &&
    st' == st.(material := Some(mat), oldend := oldend, newend := newend, lastXres := xres, lastDpt := dpt,
               count := st'.count, blocks := st.blocks + 1)
  }

  /** A block leaves at least its own final step in the vertex list. */
  lemma BlockLength(n0: int, first: int, dpt: bool, xres: int, yres: int)
    requires xres >= 1 && yres >= 1 && n0 >= 0 && 0 <= first <= 1 && (first == 1 ==> n0 >= Rows(dpt) * (xres + 1))
    ensures n0 + (yres - first + 1) * (Rows(dpt) * (xres + 1)) >= Rows(dpt) * (xres + 1)
  {
    var w := Rows(dpt) * (xres + 1);
    MulAtLeast(w, yres - first + 1);
    assert (yres - first + 1) * w == w * (yres - first + 1);
  }

  /**
   * A block made from a consistent reader leaves it consistent: the block
   * ends with a whole step of the xres and depth it records, both ends are
   * active with a material set, and its triangles are counted.
   */
  lemma MadeConsistent(st: Reader, st': Reader, shape: VertexKey -> Vec3, fallback: ModelMaterial,
                       vs0: seq<Vec3>, ns0: seq<Vec3>, ms0: seq<ModelMaterial>,
                       vs: seq<Vec3>, ns: seq<Vec3>, ms: seq<ModelMaterial>, wf: bool, base: int)
    requires ConsistentValues(st, |vs0|, ms0, wf, base) && st.newend.active && fallback.triangles == []
    requires BlockMade(st, st', shape, fallback, vs0, ns0, ms0, vs, ns, ms)
    requires wf ==> VerticesIn(ms, |vs|)
    ensures ConsistentValues(st', |vs|, ms, wf, base)
  {
    var xres, yres := st.settings.xres, st.settings.yres;
    var dpt := Dpt(st.newend, End(true, st.settings.depth / 2.0));
    var reuse := st.lastXres == xres && st.lastDpt == dpt;
    var capHere := !st.oldend.active && st.newend.offset != 0.0 && st.settings.capping;
    var mat := if st.material.Some? then st.material.value else 0;
    var ms1 := if st.material.Some? then ms0 else ms0 + [fallback];
    var gs := Surfaces(BlockStart(|vs0|, reuse, dpt, xres), xres, yres, dpt, capHere);
    BlockLength(|vs0|, First(reuse), dpt, xres, yres);
    if st.material.None? {
      TotalAppend(ms0, [fallback]);
      assert [fallback][..0] == [];
    }
    TotalGrow(ms1, mat, BlockTriangles(gs, |ns0|));
  }

  /**
   * An `add` line. Without a selected section both ends are reset to
   * inactive. Otherwise the previous new end becomes the old end and the
   * new end takes half the current depth as offset; when the old end is
   * active a block is made between the two (Make_Block), and otherwise
   * nothing else changes.
   */
  method Add_Line(model: Model, st: Reader, shape: VertexKey -> Vec3, fallback: ModelMaterial, ghost wf: bool, ghost base: int)
    returns (st': Reader)
    requires Consistent(st, model, wf, base) && fallback.triangles == []
    modifies model`vertices, model`normals, model`materials
    ensures Consistent(st', model, wf, base)
    ensures old(model.vertices) <= model.vertices
    ensures st.section == null ==>
      st' == st.(oldend := st.oldend.(active := false), newend := st.newend.(active := false)) && unchanged(model)
    ensures st.section != null && !st.newend.active ==>
      st' == st.(oldend := st.newend, newend := End(true, st.settings.depth / 2.0)) && unchanged(model)
    ensures st.section != null && st.newend.active ==>
      BlockMade(st, st', shape, fallback, old(model.vertices), old(model.normals), old(model.materials),
                model.vertices, model.normals, model.materials)
  {
    if st.section == null {
      st' := st.(oldend := st.oldend.(active := false), newend := st.newend.(active := false));
      KeptConsistent(st, st', |model.vertices|, model.materials, wf, base);
    } else if !st.newend.active {
      st' := st.(oldend := st.newend, newend := End(true, st.settings.depth / 2.0));
    } else {
      st' := Make_Block(model, st, shape, fallback, wf, base);
      MadeConsistent(st, st', shape, fallback, old(model.vertices), old(model.normals), old(model.materials),
                     model.vertices, model.normals, model.materials, wf, base);
    }
  }

  /**
   * The block of an `add` line whose old end is active: on the default
   * material, appended as material 0, when none was chosen; reusing the
   * last step when the last block had the same xres and depth; capped at
   * its start when no block came before at that end, the end has depth
   * and capping is on.
   */
  method Make_Block(model: Model, st: Reader, shape: VertexKey -> Vec3, fallback: ModelMaterial, ghost wf: bool, ghost base: int)
    returns (st': Reader)
    requires Consistent(st, model, wf, base) && fallback.triangles == [] && st.newend.active
    modifies model`vertices, model`normals, model`materials
    ensures BlockMade(st, st', shape, fallback, old(model.vertices), old(model.normals), old(model.materials),
                      model.vertices, model.normals, model.materials)
    ensures wf ==> VerticesIn(model.materials, |model.vertices|)
  {
    var cap := !st.oldend.active;
    var oldend := st.newend;
    var newend := End(true, st.settings.depth / 2.0);
    var dpt := Dpt(oldend, newend);
    var mat: nat;
    if st.material.None? {
      if wf {
        AppendEmpty(model.materials, [fallback], |model.vertices|);
      }
      model.materials := model.materials + [fallback];
      mat := 0;
    } else {
      mat := st.material.value;
    }
    var xres, yres := st.settings.xres, st.settings.yres;
    var reuse := st.lastXres == xres && st.lastDpt == dpt;
    var capHere := cap && oldend.offset != 0.0 && st.settings.capping;
    var count := Add_Block(model, mat, xres, yres, dpt, reuse, capHere, shape, st.blocks, st.count);
    st' := st.(material := Some(mat), oldend := oldend, newend := newend, lastXres := xres, lastDpt := dpt,
               count := count, blocks := st.blocks + 1);
  }

  predicate AddLine(words: seq<string>)
  {
    |words| == 4 && words[0] == "add"
  }

  predicate SelectLine(words: seq<string>)
  {
    |words| == 2 && words[0] == "select"
  }

  predicate MaterialLine(words: seq<string>)
  {
    |words| == 2 && words[0] == "material"
  }

  predicate MaterialFileLine(words: seq<string>)
  {
    |words| == 2 && words[0] == "material_file"
  }

  /** A line none of the branches above takes: a setting, or one that changes nothing. */
  predicate SettingLine(words: seq<string>)
  {
    !SectionLine(words) && !AddLine(words) && !SelectLine(words) && !MaterialLine(words) && !MaterialFileLine(words)
  }

  /**
   * A line that makes no block keeps the reader consistent, as long as
   * its settings stay valid, a material it picks exists and it activates
   * no end.
   */
  lemma KeptConsistent(st: Reader, st': Reader, n: int, ms: seq<ModelMaterial>, wf: bool, base: int)
    requires ConsistentValues(st, n, ms, wf, base) && st'.settings.Valid()
    requires st'.lastXres == st.lastXres && st'.lastDpt == st.lastDpt && st'.count == st.count
    requires st'.oldend.active && st'.newend.active ==> st'.oldend == st.oldend && st'.newend == st.newend
    requires st'.material.Some? ==> st'.material.value < |ms|
    requires st.material.Some? ==> st'.material.Some?
    ensures ConsistentValues(st', n, ms, wf, base)
  {
  }

  /** A `section` line: a new curve, read from the words, heads the section list. */
  method Section_Line(sections: SectionList, words: seq<string>, atof: string -> real)
    requires SectionLine(words) && sections.Linked()
    modifies sections
    ensures sections.Linked() && |sections.nodes| == |old(sections.nodes)| + 1 && sections.nodes[1..] == old(sections.nodes)
    ensures fresh(sections.nodes[0]) && sections.nodes[0].name == words[1]
  {
    var b := new Bezier(words, sections, atof);
  }

  /** A `select` line: the first section of that name, or the old one when there is none. */
  method Select_Line(sections: SectionList, st: Reader, name: string) returns (st': Reader)
    requires sections.Linked()
    ensures var i := FirstNamed(sections.nodes, name);
      st' == if i < |sections.nodes| then st.(section := sections.nodes[i]) else st
  {
    var r := sections.Find(name);
    st' := if r != null then st.(section := r) else st;
  }

  /**
   * A `material_file` line: the materials Load_Material reads from the
   * file are appended and the ambient fix runs over the whole list; the new
   * materials have no triangles and the fix keeps every material's
   * triangles, so the reader stays consistent.
   */
  method Load_Material(model: Model, st: Reader, more: seq<ModelMaterial>, ghost wf: bool, ghost base: int)
    requires Consistent(st, model, wf, base) && forall j :: 0 <= j < |more| ==> more[j].triangles == []
    modifies model`materials
    ensures Consistent(st, model, wf, base) && model.materials == ObjLoader.MaterialsLoaded(old(model.materials), more)
  {
    var loaded := ObjLoader.MaterialsLoaded(model.materials, more);
    TotalAppend(model.materials, more);
    TotalEmpty(more);
    TotalSameTriangles(model.materials + more, loaded);
    if wf {
      AppendEmpty(model.materials, more, |model.vertices|);
    }
    ObjLoader.Load_Material(model, more);
  }

  /** The total depends only on each material's triangles. */
  lemma {:induction false} TotalSameTriangles(ms: seq<ModelMaterial>, ms': seq<ModelMaterial>)
    requires |ms| == |ms'| && forall j :: 0 <= j < |ms| ==> ms[j].triangles == ms'[j].triangles
    ensures TotalTriangles(ms) == TotalTriangles(ms')
    decreases |ms|
  {
    if ms != [] {
      TotalSameTriangles(ms[..|ms| - 1], ms'[..|ms| - 1]);
    }
  }

  /**
   * The lines that change only the reader and the section list: a
   * `section`, a `select`, a `material` (looked up in `ms`) and the
   * settings.
   */
  method Reader_Line(sections: SectionList, st: Reader, words: seq<string>, ms: seq<ModelMaterial>,
                     atof: string -> real, atoi: string -> int, ghost n: int, ghost wf: bool, ghost base: int)
    returns (st': Reader)
    requires |words| > 0 && !AddLine(words) && !MaterialFileLine(words)
    requires sections.Linked() && ConsistentValues(st, n, ms, wf, base)
    modifies sections
    ensures sections.Linked() && ConsistentValues(st', n, ms, wf, base)
    ensures !SectionLine(words) ==> sections.nodes == old(sections.nodes)
    ensures SectionLine(words) ==>
      st' == st && |sections.nodes| == |old(sections.nodes)| + 1 &&
      sections.nodes[1..] == old(sections.nodes) && fresh(sections.nodes[0]) && sections.nodes[0].name == words[1]
    ensures SelectLine(words) ==>
      var i := FirstNamed(sections.nodes, words[1]);
      st' == if i < |sections.nodes| then st.(section := sections.nodes[i]) else st
    ensures MaterialLine(words) ==>
      var i := FindMaterial(ms, words[1]);
      st' == if i == INDEX_ERROR then st else st.(material := Some(i))
    ensures SettingLine(words) ==> st' == st.(settings := Setting(st.settings, words, atof, atoi))
  {
    if SectionLine(words) {
      Section_Line(sections, words, atof);
      st' := st;
    } else if SelectLine(words) {
      st' := Select_Line(sections, st, words[1]);
    } else if MaterialLine(words) {
      var i := FindMaterial(ms, words[1]);
      st' := if i == INDEX_ERROR then st else st.(material := Some(i));
    } else {
      st' := st.(settings := Setting(st.settings, words, atof, atoi));
    }
  }

  /**
   * One line of a road file, from `s` to `s2`, by its first word: `add`
   * (no section: both ends reset; no active new end: the ends move on; else
   * a block is made), `material_file` (the file's materials are loaded as
   * MaterialsLoaded says),
   * `section` (a new curve named by word 1 heads the list), `select` (the
   * first section of that name, if any), `material` (the first material
   * of that name, if any), and otherwise a setting. Only `add` can touch
   * the vertices and normals, only `add` and `material_file` the
   * materials, only `section` the section list.
   */
  ghost predicate RoadStepped(s: Snapshot, s2: Snapshot, words: seq<string>, atof: string -> real, atoi: string -> int,
                              shape: VertexKey -> Vec3, library: string -> seq<ModelMaterial>, fallback: ModelMaterial)
  {
    |words| > 0 &&
    if AddLine(words) then
      s2.secs == s.secs &&
      if s.st.section == null then
        s2 == s.(st := s.st.(oldend := s.st.oldend.(active := false), newend := s.st.newend.(active := false)))
      else if !s.st.newend.active then
        s2 == s.(st := s.st.(oldend := s.st.newend, newend := End(true, s.st.settings.depth / 2.0)))
      else
        s.st.settings.Valid() && (s.st.material.Some? ==> s.st.material.value < |s.ms|) &&
        BlockMade(s.st, s2.st, shape, fallback, s.vs, s.ns, s.ms, s2.vs, s2.ns, s2.ms)
    else if MaterialFileLine(words) then
      s2 == s.(ms := ObjLoader.MaterialsLoaded(s.ms, library(words[1])))
    else if SectionLine(words) then
      s2.st == s.st && s2.vs == s.vs && s2.ns == s.ns && s2.ms == s.ms &&
      |s2.secs| == |s.secs| + 1 && s2.secs[1..] == s.secs && s2.secs[0].name == words[1]
    else if SelectLine(words) then
      var i := FirstNamed(s.secs, words[1]);
      s2 == s.(st := if i < |s.secs| then s.st.(section := s.secs[i]) else s.st)
    else if MaterialLine(words) then
      var i := FindMaterial(s.ms, words[1]);
      s2 == s.(st := if i == INDEX_ERROR then s.st else s.st.(material := Some(i)))
    else
      s2 == s.(st := s.st.(settings := Setting(s.st.settings, words, atof, atoi)))
  }

  /**
   * One pass of Load_Road's loop, the branches tried in the file's order:
   * `add` (Add_Line), `material_file` (Load_Material), and the lines that
   * change only the reader and the section list (Reader_Line). Each keeps
   * the reader consistent and the vertices already made.
   */
  method Road_Line(model: Model, sections: SectionList, st: Reader, words: seq<string>,
                   atof: string -> real, atoi: string -> int, shape: VertexKey -> Vec3,
                   library: string -> seq<ModelMaterial>, fallback: ModelMaterial, ghost wf: bool, ghost base: int)
    returns (st': Reader)
    requires |words| > 0 && sections.Linked() && Consistent(st, model, wf, base)
    requires fallback.triangles == [] && Blank(library)
    modifies model`vertices, model`normals, model`materials, sections
    ensures sections.Linked() && Consistent(st', model, wf, base)
    ensures old(model.vertices) <= model.vertices
    ensures RoadStepped(Snapshot(st, old(model.vertices), old(model.normals), old(model.materials), old(sections.nodes)),
                        Snapshot(st', model.vertices, model.normals, model.materials, sections.nodes),
                        words, atof, atoi, shape, library, fallback)
  {
    if AddLine(words) {
      st' := Add_Line(model, st, shape, fallback, wf, base);
    } else if MaterialFileLine(words) {
      Load_Material(model, st, library(words[1]), wf, base);
      st' := st;
    } else {
      st' := Reader_Line(sections, st, words, model.materials, atof, atoi, |model.vertices|, wf, base);
    }
  }

  /** `trace` holds the snapshot before each of the first `n` lines and after the last of them, each line taking one RoadStepped step. */
  ghost predicate Traced(trace: seq<Snapshot>, lines: seq<seq<string>>, n: nat, atof: string -> real, atoi: string -> int,
                         shape: VertexKey -> Vec3, library: string -> seq<ModelMaterial>, fallback: ModelMaterial)
  {
    n <= |lines| && |trace| == n + 1 &&
    forall j :: 0 <= j < n ==> RoadStepped(trace[j], trace[j + 1], lines[j], atof, atoi, shape, library, fallback)
  }

  /** A trace of `n` lines, followed by one step over line `n`, is a trace of `n + 1` lines from the same start. */
  lemma TracedSnoc(trace: seq<Snapshot>, lines: seq<seq<string>>, n: nat, s2: Snapshot, atof: string -> real, atoi: string -> int,
                   shape: VertexKey -> Vec3, library: string -> seq<ModelMaterial>, fallback: ModelMaterial)
    requires Traced(trace, lines, n, atof, atoi, shape, library, fallback) && n < |lines|
    requires RoadStepped(trace[n], s2, lines[n], atof, atoi, shape, library, fallback)
    ensures Traced(trace + [s2], lines, n + 1, atof, atoi, shape, library, fallback)
    ensures (trace + [s2])[0] == trace[0] && (trace + [s2])[n + 1] == s2
  {
    var t := trace + [s2];
    forall j | 0 <= j < n + 1
      ensures RoadStepped(t[j], t[j + 1], lines[j], atof, atoi, shape, library, fallback)
    {
      if j < n {
        assert t[j] == trace[j] && t[j + 1] == trace[j + 1];
      }
    }
  }

  /** The number of `section` lines among the first `n` lines. */
  function SectionLines(lines: seq<seq<string>>, n: nat): nat
    requires n <= |lines|
  {
    if n == 0 then 0 else SectionLines(lines, n - 1) + (if SectionLine(lines[n - 1]) then 1 else 0)
  }

  /** One line keeps the vertices already made, and adds a section exactly when it is a `section` line. */
  lemma RoadSteppedGrows(s: Snapshot, s2: Snapshot, words: seq<string>, atof: string -> real, atoi: string -> int,
                         shape: VertexKey -> Vec3, library: string -> seq<ModelMaterial>, fallback: ModelMaterial)
    requires RoadStepped(s, s2, words, atof, atoi, shape, library, fallback)
    ensures s.vs <= s2.vs
    ensures |s2.secs| == |s.secs| + (if SectionLine(words) then 1 else 0)
  {
  }

  /**
   * Along a trace the vertex list only grows, and the section list grows
   * by one for each `section` line read.
   */
  lemma {:induction false} TraceGrows(trace: seq<Snapshot>, lines: seq<seq<string>>, n: nat, j: nat, atof: string -> real,
                                      atoi: string -> int, shape: VertexKey -> Vec3, library: string -> seq<ModelMaterial>,
                                      fallback: ModelMaterial)
    requires Traced(trace, lines, n, atof, atoi, shape, library, fallback) && j <= n
    ensures trace[0].vs <= trace[j].vs
    ensures |trace[j].secs| == |trace[0].secs| + SectionLines(lines, j)
  {
    if j > 0 {
      TraceGrows(trace, lines, n, j - 1, atof, atoi, shape, library, fallback);
      RoadSteppedGrows(trace[j - 1], trace[j], lines[j - 1], atof, atoi, shape, library, fallback);
    }
  }

  /** Whether the far end of the last block is capped: both ends active, depth at the new one, capping on. */
  predicate Caps(st: Reader)
  {
    st.oldend.active && st.newend.active && st.newend.offset != 0.0 && st.settings.capping
  }

  /**
   * After the last line, from the reader `st` and the lists `vs`, `ns0`,
   * `ms0`: without a cap the count and lists stay; with one, the cap's
   * normals follow the old ones, its triangles follow the material's, and
   * the count grows by two per column.
   */
  ghost predicate Capped(st: Reader, vs: seq<Vec3>, ns0: seq<Vec3>, ms0: seq<ModelMaterial>,
                         count: int, ns: seq<Vec3>, ms: seq<ModelMaterial>)
  {
    if !Caps(st) then count == st.count && ns == ns0 && ms == ms0
    else
      var g := EndCap(|vs|, st.lastXres);
      st.material.Some? && st.material.value < |ms0| && g.Valid() && g.Within(|vs|) &&
      count == st.count + 2 * st.lastXres &&
      |ns| == |ns0| + (g.xres + 1) * (g.yres + 1) && ns[..|ns0|] == ns0 && NormalsSoFar(vs, g, ns[|ns0|..]) &&
      ms == ms0[st.material.value := ms0[st.material.value].(triangles := ms0[st.material.value].triangles + SurfaceTriangles(g, |ns0|))]
  }

  /**
   * The cap Load_Road puts on the far end of the road after the last
   * line, over the top and bottom rows of the last block's final step, on
   * the current material; the result is the final `triangle_count`.
   */
  method End_Cap(model: Model, st: Reader, ghost wf: bool, ghost base: int) returns (count: int)
    requires Consistent(st, model, wf, base)
    modifies model`normals, model`materials
    ensures Consistent(st.(count := count), model, wf, base)
    ensures !Caps(st) ==> count == st.count && unchanged(model)
    ensures Caps(st) ==>
      var g := EndCap(|model.vertices|, st.lastXres);
      var mat := st.material.value;
      g.Valid() && g.Within(|model.vertices|) && count == st.count + 2 * st.lastXres &&
      model.materials == old(model.materials)[mat := old(model.materials[mat]).(triangles := old(model.materials[mat].triangles) + SurfaceTriangles(g, |old(model.normals)|))]
    ensures Capped(st, model.vertices, old(model.normals), old(model.materials), count, model.normals, model.materials)
  {
    count := st.count;
    if Caps(st) {
      ghost var ms0, ns0 := model.materials, model.normals;
      var mat := st.material.value;
      var g := EndCap(|model.vertices|, st.lastXres);
      EndCapWithin(|model.vertices|, st.lastXres);
      count := Gen_Normals_And_Indices(model, mat, g, count);
      assert model.materials == ms0[mat := ms0[mat].(triangles := ms0[mat].triangles + SurfaceTriangles(g, |ns0|))];
      TotalGrow(ms0, mat, SurfaceTriangles(g, |ns0|));
    }
  }

  /**
   * Model::Load_Road: a file that cannot be opened yields false and
   * changes nothing. Otherwise every line goes through Road_Line; when the
   * last block has depth at its far end and capping is on, that end is
   * capped over the last step's two rows; the section list is emptied.
   * The result is false when the model has no material or no vertex;
   * otherwise one texture coordinate (0,0) is appended and it is true.
   * `count` is `triangle_count`, the number of triangles the file added.
   */
  method Load_Road(model: Model, file: Option<seq<seq<string>>>, sections: SectionList,
                   atof: string -> real, atoi: string -> int, shape: VertexKey -> Vec3,
                   library: string -> seq<ModelMaterial>, fallback: ModelMaterial)
    returns (ok: bool, count: int, ghost trace: seq<Snapshot>)
    requires sections.Linked() && fallback.triangles == [] && Blank(library)
    requires file.Some? ==> forall l :: 0 <= l < |file.value| ==> |file.value[l]| > 0
    modifies model, sections
    ensures file.None? ==> !ok && unchanged(model) && unchanged(sections)
    ensures file.Some? ==> (sections.Linked() && sections.nodes == [] &&
      (ok <==> |model.materials| > 0 && |model.vertices| > 0) &&
      TotalTriangles(model.materials) == TotalTriangles(old(model.materials)) + count)
    ensures model.texcoords == old(model.texcoords) + (if ok then [Vec2(0.0, 0.0)] else [])
    ensures old(model.vertices) <= model.vertices
    ensures VerticesIn(old(model.materials), |old(model.vertices)|) ==> VerticesIn(model.materials, |model.vertices|)
    ensures file.Some? ==>
      Traced(trace, file.value, |file.value|, atof, atoi, shape, library, fallback) &&
      trace[0] == Snapshot(START, old(model.vertices), old(model.normals), old(model.materials), old(sections.nodes)) &&
      var last := trace[|file.value|];
      model.vertices == last.vs && Capped(last.st, last.vs, last.ns, last.ms, count, model.normals, model.materials)
  {
    if file.None? {
      return false, 0, [];
    }
    var lines := file.value;
    ghost var wf := VerticesIn(model.materials, |model.vertices|);
    ghost var base := TotalTriangles(model.materials);
    var st := START;
    var l := 0;
    trace := [Snapshot(st, model.vertices, model.normals, model.materials, sections.nodes)];
    while l < |lines|
      invariant 0 <= l <= |lines|
      invariant sections.Linked() && Consistent(st, model, wf, base)
      invariant old(model.vertices) <= model.vertices && model.texcoords == old(model.texcoords)
      invariant Traced(trace, lines, l, atof, atoi, shape, library, fallback)
      invariant trace[0] == Snapshot(START, old(model.vertices), old(model.normals), old(model.materials), old(sections.nodes))
      invariant trace[l] == Snapshot(st, model.vertices, model.normals, model.materials, sections.nodes)
    {
      st := Road_Line(model, sections, st, lines[l], atof, atoi, shape, library, fallback, wf, base);
      TracedSnoc(trace, lines, l, Snapshot(st, model.vertices, model.normals, model.materials, sections.nodes),
                 atof, atoi, shape, library, fallback);
      trace := trace + [Snapshot(st, model.vertices, model.normals, model.materials, sections.nodes)];
      l := l + 1;
    }
    count := End_Cap(model, st, wf, base);
    sections.RemoveAll();
    if |model.materials| == 0 || |model.vertices| == 0 {
      return false, count, trace;
    }
    model.texcoords := model.texcoords + [Vec2(0.0, 0.0)];
    return true, count, trace;
  }
}
