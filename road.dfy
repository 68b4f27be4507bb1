/**
 * The ROAD loader (road.cpp): named cross-section curves (`Bezier`, kept
 * in the list `Bezier::head`), the binomial coefficients the curve
 * evaluation walks through, and Model::Load_Road, which reads settings and
 * road ends line by line and, for every pair of ends, lays out a block of
 * road as grids of vertices with their triangles.
 *
 * The curve and rotation geometry (Bézier evaluation, GenVertices,
 * Rotation, Position, Normalize_Normals) is floating point with sine,
 * cosine and square roots: the position GenVertices computes for a vertex
 * is the parameter `shape`, and what is modelled is how many vertices each
 * block adds and how the grids index them.
 */
module Roads {
  import opened Wrappers
  import opened Vectors
  import opened Models
  import opened RoadGrid

  const INT_MAX: int := 0x7FFF_FFFF

  // ---------------------------------------------------------------- curves

  /** A control point of a cross-section curve. */
  datatype Point = Point(x: real, y: real)

  /** Binomial coefficients by Pascal's rule: the reference the recurrence is checked against. */
  function Choose(n: nat, i: nat): nat
    decreases n
  {
    if i == 0 then 1 else if n == 0 then 0 else Choose(n - 1, i - 1) + Choose(n - 1, i)
  }

  /** The arithmetic of one induction step of Absorption, on plain integers. */
  lemma AbsorptionStep(n: int, i: int, a: int, b: int, c: int)
    requires (i + 1) * b == (n - 1 - i) * a && i * a == (n - i) * c
    ensures (i + 1) * (a + b) == (n - i) * (c + a)
  {
    assert (i + 1) * (a + b) == (i + 1) * a + (i + 1) * b;
    assert (n - i) * (c + a) == (n - i) * c + (n - i) * a;
  }

  /** The absorption identity: `(i+1) * C(n, i+1) == (n-i) * C(n, i)`. */
  lemma {:induction false} Absorption(n: nat, i: nat)
    ensures (i + 1) * Choose(n, i + 1) == (n - i) * Choose(n, i)
    decreases n
  {
    if n > 0 {
      Absorption(n - 1, i);
      if i > 0 {
        Absorption(n - 1, i - 1);
        AbsorptionStep(n, i, Choose(n - 1, i), Choose(n - 1, i + 1), Choose(n - 1, i - 1));
      } else {
        AbsorptionStep(n, i, Choose(n - 1, i), Choose(n - 1, i + 1), 0);
      }
    }
  }

  /** The value `k` holds at step `i` of the recurrence, with unbounded integers. */
  function Recurrence(n: nat, i: nat): int
  {
    if i == 0 then 1 else Recurrence(n, i - 1) * (n - (i - 1)) / i
  }

  /** A division with no remainder, on plain integers. */
  lemma ExactQuotient(a: int, m: int, d: int, q: int)
    requires d > 0 && d * q == m * a
    ensures a * m / d == q
  {
    DivMod(q, 0, d);
  }

  /** The recurrence computes the binomial coefficients: each division is exact. */
  lemma {:induction false} RecurrenceIsChoose(n: nat, i: nat)
    ensures Recurrence(n, i) == Choose(n, i)
  {
    if i > 0 {
      RecurrenceIsChoose(n, i - 1);
      Absorption(n, i - 1);
      ExactQuotient(Choose(n, i - 1), n - (i - 1), i, Choose(n, i));
    }
  }

  /**
   * The coefficients GetPos weights the control points with: `k` starts
   * at 1 and is updated by `k *= n-i; k /= i+1`, so the `i`-th term uses
   * `C(n, i)` and every division is exact. Integers are unbounded here.
   */
  method Coefficients(n: nat) returns (ks: seq<int>)
    ensures |ks| == n + 1
    ensures forall i :: 0 <= i <= n ==> ks[i] == Choose(n, i)
  {
    var k := 1;
    ks := [];
    for i := 0 to n + 1
      invariant |ks| == i && k == Choose(n, i)
      invariant forall j :: 0 <= j < i ==> ks[j] == Choose(n, j)
    {
      ks := ks + [k];
      Absorption(n, i);
      k := k * (n - i);
      DivMod(Choose(n, i + 1), 0, i + 1);
      k := k / (i + 1);
    }
  }

  /** A C `int` result: the value modulo 2^32, read as two's complement. */
  function Wrap32(x: int): (r: int)
    ensures -INT_MAX - 1 <= r <= INT_MAX
    ensures -INT_MAX - 1 <= x <= INT_MAX ==> r == x
  {
    var m := x % U32;
    if m > INT_MAX then m - U32 else m
  }

  /** C integer division, which truncates toward zero. */
  function TruncDiv(a: int, b: int): (r: int)
    requires b > 0
    ensures a >= 0 ==> 0 <= r * b <= a < r * b + b
    ensures a < 0 ==> r * b - b < a <= r * b <= 0
  {
    DivBounds(if a >= 0 then a else -a, b);
    if a >= 0 then a / b else -((-a) / b)
  }

  /** Euclidean division of a non-negative dividend leaves a remainder in [0, b). */
  lemma DivBounds(a: int, b: int)
    requires a >= 0 && b > 0
    ensures 0 <= (a / b) * b <= a < (a / b) * b + b
  {
    var q, m := a / b, a % b;
    assert a == q * b + m && 0 <= m < b;
    assert q * b >= 0;
  }

  /** One update of `k` as written, on a 32-bit `int`. */
  function StepAsWritten(k: int, n: int, i: nat): int
  {
    TruncDiv(Wrap32(k * (n - i)), i + 1)
  }

  /**
   * With 31 control points (`n == 30`) the product `C(30,14) * 16`
   * exceeds INT_MAX: the 32-bit update yields a negative weight where
   * `C(30,15)` was due (RecurrenceIsChoose ties Recurrence to C).
   */
  lemma BinomialOverflow()
    ensures Recurrence(30, 14) == 145422675 && Recurrence(30, 15) == 155117520
    ensures Recurrence(30, 14) * (30 - 14) > INT_MAX
    ensures StepAsWritten(Recurrence(30, 14), 30, 14) == -131213633
  {
    assert Recurrence(30, 1) == 30;
    assert Recurrence(30, 2) == 435;
    assert Recurrence(30, 3) == 4060;
    assert Recurrence(30, 4) == 27405;
    assert Recurrence(30, 5) == 142506;
    assert Recurrence(30, 6) == 593775;
    assert Recurrence(30, 7) == 2035800;
    assert Recurrence(30, 8) == 5852925;
    assert Recurrence(30, 9) == 14307150;
    assert Recurrence(30, 10) == 30045015;
    assert Recurrence(30, 11) == 54627300;
    assert Recurrence(30, 12) == 86493225;
    assert Recurrence(30, 13) == 119759850;
    assert Recurrence(30, 14) == 145422675;
    assert Recurrence(30, 15) == 155117520;
  }

  /** A `section` line defines a curve: at least one point, two words per point. */
  predicate SectionLine(words: seq<string>)
  {
    |words| > 0 && words[0] == "section" && |words| >= 4 && |words| % 2 == 0
  }

  /** The degree a curve gets from a line of `w` words: `(w-2)/2 - 1`. */
  function Degree(w: int): (n: int)
    requires w >= 2
    ensures n >= -1 && 3 + 2 * n <= w - 1
  {
    (w - 2) / 2 - 1
  }

  /** An accepted section line gives at least one point, and the last point reads the line's last word. */
  lemma SectionWords(words: seq<string>)
    requires SectionLine(words)
    ensures Degree(|words|) >= 0 && 3 + 2 * Degree(|words|) == |words| - 1
  {
  }

  class Bezier {
    const name: string
    /** The degree: there are `n+1` control points. */
    const n: int
    const p: seq<Point>
    var next: Bezier?

    /**
     * Bezier(Text_File*): the name is word 1, then a point per two words,
     * read with `atof`; the new curve heads the list.
     */
    constructor (words: seq<string>, list: SectionList, atof: string -> real)
      requires |words| >= 2 && list.Linked()
      modifies list
      ensures name == words[1] && n == Degree(|words|) && |p| == n + 1
      ensures forall i :: 0 <= i <= n ==> p[i] == Point(atof(words[2 + 2 * i]), atof(words[3 + 2 * i]))
      ensures list.Linked() && list.nodes == [this] + old(list.nodes) && list.head == this
    {
      name := words[1];
      var m := Degree(|words|);
      n := m;
      var ps: seq<Point> := [];
      for i := 0 to m + 1
        invariant |ps| == i
        invariant forall j :: 0 <= j < i ==> ps[j] == Point(atof(words[2 + 2 * j]), atof(words[3 + 2 * j]))
      {
        ps := ps + [Point(atof(words[2 + 2 * i]), atof(words[3 + 2 * i]))];
      }
      p := ps;
      new;
      next := list.head;
      list.head := this;
      list.nodes := [this] + list.nodes;
      assert list.nodes[1..] == old(list.nodes);
    }
  }

  /** The position of the first curve named `name`, or the length of the list. */
  function FirstNamed(nodes: seq<Bezier>, name: string): (i: nat)
    ensures i <= |nodes|
    ensures forall j :: 0 <= j < i ==> nodes[j].name != name
    ensures i < |nodes| ==> nodes[i].name == name
    decreases |nodes|
  {
    if nodes == [] || nodes[0].name == name then 0
    else 1 + FirstNamed(nodes[1..], name)
  }

  /** The list `Bezier::head`, singly linked through `next`. */
  class SectionList {
    var head: Bezier?
    ghost var nodes: seq<Bezier>

    ghost function Members(): set<Bezier>
      reads this
    {
      set x | x in nodes
    }

    ghost predicate Linked()
      reads this, Members()`next
    {
      (head == if nodes == [] then null else nodes[0]) &&
      (forall i {:trigger nodes[i].next} :: 0 <= i < |nodes| ==>
         nodes[i].next == (if i + 1 < |nodes| then nodes[i+1] else null))
    }

    constructor ()
      ensures Linked() && nodes == []
    {
      head := null;
      nodes := [];
    }

    /**
     * Bezier::Find: the first curve in list order named `name` (so the
     * most recently read of several with that name), or null.
     */
    method Find(name: string) returns (r: Bezier?)
      requires Linked()
      ensures r == null <==> forall j :: 0 <= j < |nodes| ==> nodes[j].name != name
      ensures r != null ==> r == nodes[FirstNamed(nodes, name)]
    {
      var point := head;
      ghost var k := 0;
      while point != null
        invariant k <= FirstNamed(nodes, name) && point == (if k < |nodes| then nodes[k] else null)
        decreases |nodes| - k
      {
        if point.name == name {
          return point;
        }
        point := point.next;
        k := k + 1;
      }
      return null;
    }

    /** Bezier::RemoveAll: drops curves from the head until the list is empty. */
    method RemoveAll()
      requires Linked()
      modifies this
      ensures Linked() && nodes == [] && head == null
    {
      while head != null
        invariant Linked()
        decreases |nodes|
      {
        var next := head.next;
        head := next;
        nodes := nodes[1..];
      }
    }
  }

  // -------------------------------------------------------------- settings

  /** The per-block settings Load_Road keeps while reading. */
  datatype Settings = Settings(xres: int, yres: int, capping: bool, cubic: bool, depth: real, stiffness0: real, stiffness1: real)
  {
    /** Resolutions and stiffnesses are positive. */
    predicate Valid()
    {
      xres > 0 && yres > 0 && stiffness0 > 0.0 && stiffness1 > 0.0
    }
  }

  /** The values Load_Road starts with. */
  const DEFAULT_SETTINGS: Settings := Settings(10, 10, true, true, 0.5, 5.0, 5.0)

  /**
   * The settings after a line: `stiffness a b` and `resolution x y`
   * replace a component only by a value above 0; `depth` takes its word;
   * `cubic`/`linear` and `capping`/`nocapping` set their flag; any other
   * line leaves the settings alone.
   */
  function Setting(s: Settings, words: seq<string>, atof: string -> real, atoi: string -> int): (r: Settings)
    requires |words| > 0
    ensures s.Valid() ==> r.Valid()
    ensures r.xres != s.xres ==> words[0] == "resolution" && |words| == 3 && r.xres == atoi(words[1]) > 0
    ensures r.yres != s.yres ==> words[0] == "resolution" && |words| == 3 && r.yres == atoi(words[2]) > 0
    ensures words[0] == "resolution" && |words| == 3 && atoi(words[1]) > 0 ==> r.xres == atoi(words[1])
    ensures words[0] == "resolution" && |words| == 3 && atoi(words[2]) > 0 ==> r.yres == atoi(words[2])
    ensures r.stiffness0 != s.stiffness0 ==> words[0] == "stiffness" && |words| == 3 && r.stiffness0 == atof(words[1]) > 0.0
    ensures r.stiffness1 != s.stiffness1 ==> words[0] == "stiffness" && |words| == 3 && r.stiffness1 == atof(words[2]) > 0.0
    ensures words[0] == "stiffness" && |words| == 3 && atof(words[1]) > 0.0 ==> r.stiffness0 == atof(words[1])
    ensures words[0] == "stiffness" && |words| == 3 && atof(words[2]) > 0.0 ==> r.stiffness1 == atof(words[2])
    ensures r.depth != s.depth ==> words[0] == "depth" && |words| >= 2 && r.depth == atof(words[1])
    ensures words[0] == "depth" && |words| >= 2 ==> r == s.(depth := atof(words[1]))
    ensures r.cubic != s.cubic ==> words[0] in {"cubic", "linear"}
    ensures r.capping != s.capping ==> words[0] in {"capping", "nocapping"}
    ensures words[0] in {"cubic", "linear"} ==> r == s.(cubic := words[0] == "cubic")
    ensures words[0] in {"capping", "nocapping"} ==> r == s.(capping := words[0] == "capping")
  {
    if words[0] == "stiffness" && |words| == 3 then
      var a := atof(words[1]);
      var b := atof(words[2]);
      s.(stiffness0 := if a > 0.0 then a else s.stiffness0, stiffness1 := if b > 0.0 then b else s.stiffness1)
    else if words[0] == "depth" then
      if |words| >= 2 then s.(depth := atof(words[1])) else s
    else if words[0] == "resolution" && |words| == 3 then
      var x := atoi(words[1]);
      var y := atoi(words[2]);
      s.(xres := if x > 0 then x else s.xres, yres := if y > 0 then y else s.yres)
    else if words[0] == "cubic" then s.(cubic := true)
    else if words[0] == "linear" then s.(cubic := false)
    else if words[0] == "capping" then s.(capping := true)
    else if words[0] == "nocapping" then s.(capping := false)
    else s
  }

  // ---------------------------------------------------------------- blocks

  /** The part of an `End` the layout depends on: whether it is set, and its offset (half the depth). */
  datatype End = End(active: bool, offset: real)

  /** A block has depth when either end has a non-zero offset. */
  function Dpt(oldend: End, newend: End): bool
  {
    oldend.offset != 0.0 || newend.offset != 0.0
  }

  /** Vertex rows per step along the road: the top, and the bottom when there is depth. */
  function Rows(dpt: bool): int
  {
    if dpt then 2 else 1
  }

  /**
   * Which vertex a GenVertices call makes: block number, row along the
   * road, top or bottom surface, column across it. The float geometry that
   * turns this into a position is the parameter `shape`.
   */
  datatype VertexKey = VertexKey(block: nat, row: int, top: bool, x: int)

  /** One GenVertices call: `xres+1` vertices, column 0 first. */
  function RowVertices(shape: VertexKey -> Vec3, block: nat, row: int, top: bool, xres: int): (r: seq<Vec3>)
    requires xres >= 0
    ensures |r| == xres + 1
    ensures forall x :: 0 <= x <= xres ==> r[x] == shape(VertexKey(block, row, top, x))
  {
    seq(xres + 1, x => shape(VertexKey(block, row, top, x)))
  }

  /** GenVertices: appends one row of vertices. */
  method Gen_Vertices(model: Model, shape: VertexKey -> Vec3, block: nat, row: int, top: bool, xres: int)
    requires xres >= 1
    modifies model`vertices
    ensures model.vertices == old(model.vertices) + RowVertices(shape, block, row, top, xres)
  {
    for x := 0 to xres + 1
      invariant model.vertices == old(model.vertices) + RowVertices(shape, block, row, top, xres)[..x]
    {
      assert RowVertices(shape, block, row, top, xres)[..x + 1] == RowVertices(shape, block, row, top, xres)[..x] + [shape(VertexKey(block, row, top, x))];
      model.vertices := model.vertices + [shape(VertexKey(block, row, top, x))];
    }
  }

  /** The vertices of rows `first..last` of a block: per row the top row, then the bottom row when there is depth. */
  function BlockVertices(shape: VertexKey -> Vec3, block: nat, first: int, last: int, xres: int, dpt: bool): (r: seq<Vec3>)
    requires xres >= 0
    ensures |r| == if last < first then 0 else (last - first + 1) * (Rows(dpt) * (xres + 1))
    decreases last - first
  {
    if last < first then []
    else
      var rw := Rows(dpt) * (xres + 1);
      var before := BlockVertices(shape, block, first, last - 1, xres, dpt);
      assert |before| == (last - first) * rw;
      before + RowVertices(shape, block, last, true, xres) + (if dpt then RowVertices(shape, block, last, false, xres) else [])
  }

  /** Where step `i` of a block's rows `first..` starts among its vertices. */
  function StepStart(first: int, i: int, xres: int, dpt: bool): int
  {
    (i - first) * (Rows(dpt) * (xres + 1))
  }

  /** One more step of rows: its top row, then its bottom row when there is depth. */
  lemma BlockVerticesStep(pre: seq<Vec3>, shape: VertexKey -> Vec3, block: nat, first: int, i: int, xres: int, dpt: bool)
    requires xres >= 0 && first <= i
    ensures pre + BlockVertices(shape, block, first, i, xres, dpt) ==
      pre + BlockVertices(shape, block, first, i - 1, xres, dpt) + RowVertices(shape, block, i, true, xres)
          + (if dpt then RowVertices(shape, block, i, false, xres) else [])
  {
    var b := BlockVertices(shape, block, first, i - 1, xres, dpt);
    var top := RowVertices(shape, block, i, true, xres);
    var bottom := if dpt then RowVertices(shape, block, i, false, xres) else [];
    assert BlockVertices(shape, block, first, i, xres, dpt) == b + top + bottom;
    SeqAssoc(pre, b, top, bottom);
  }

  /** Appending three sequences in turn appends their concatenation. */
  lemma SeqAssoc<T>(a: seq<T>, b: seq<T>, c: seq<T>, d: seq<T>)
    ensures a + (b + c + d) == a + b + c + d
  {
    assert |a + (b + c + d)| == |a + b + c + d|;
    forall k | 0 <= k < |a + b + c + d|
      ensures (a + (b + c + d))[k] == (a + b + c + d)[k]
    {
    }
  }

  /** Row `row` of a surface of block `block` sits at `base` in `vs`. */
  ghost predicate RowAt(vs: seq<Vec3>, base: int, shape: VertexKey -> Vec3, block: nat, row: int, top: bool, xres: int)
  {
    0 <= base && base + xres < |vs| &&
    forall x :: 0 <= x <= xres ==> vs[base + x] == shape(VertexKey(block, row, top, x))
  }

  /** The top row of step `row` sits at `base`, and its bottom row right after it when there is depth. */
  ghost predicate RowsAt(vs: seq<Vec3>, base: int, shape: VertexKey -> Vec3, block: nat, row: int, xres: int, dpt: bool)
  {
    RowAt(vs, base, shape, block, row, true, xres) &&
    (dpt ==> RowAt(vs, base + xres + 1, shape, block, row, false, xres))
  }

  /**
   * Column `x` of step `i` (top or bottom row) lies at the step's start,
   * plus a row for the bottom, plus `x`, among the block's vertices.
   */
  lemma {:induction false} BlockVertex(shape: VertexKey -> Vec3, block: nat, first: int, last: int, xres: int, dpt: bool, i: int, top: bool, x: int)
    requires xres >= 0 && first <= i <= last && 0 <= x <= xres && (top || dpt)
    ensures var k := StepStart(first, i, xres, dpt) + (if top then 0 else xres + 1) + x;
      0 <= k < |BlockVertices(shape, block, first, last, xres, dpt)| &&
      BlockVertices(shape, block, first, last, xres, dpt)[k] == shape(VertexKey(block, i, top, x))
    decreases last - first
  {
    var before := BlockVertices(shape, block, first, last - 1, xres, dpt);
    var rows := RowVertices(shape, block, last, true, xres) + (if dpt then RowVertices(shape, block, last, false, xres) else []);
    var rw := Rows(dpt) * (xres + 1);
    assert BlockVertices(shape, block, first, last, xres, dpt) == before + rows;
    assert |before| == (last - first) * rw && |rows| == rw;
    var j := (if top then 0 else xres + 1) + x;
    if i < last {
      BlockVertex(shape, block, first, last - 1, xres, dpt, i, top, x);
      assert StepStart(first, i, xres, dpt) + j < |before|;
    } else {
      assert StepStart(first, i, xres, dpt) == |before|;
      assert rows[j] == shape(VertexKey(block, i, top, x));
    }
  }

  /** One row of step `i` of rows `first..last`, within the block's own vertices. */
  lemma BlockRow(shape: VertexKey -> Vec3, block: nat, first: int, last: int, xres: int, dpt: bool, i: int, top: bool)
    requires xres >= 0 && first <= i <= last && (top || dpt)
    ensures RowAt(BlockVertices(shape, block, first, last, xres, dpt),
                  StepStart(first, i, xres, dpt) + (if top then 0 else xres + 1), shape, block, i, top, xres)
  {
    forall x | 0 <= x <= xres
      ensures var k := StepStart(first, i, xres, dpt) + (if top then 0 else xres + 1) + x;
        0 <= k < |BlockVertices(shape, block, first, last, xres, dpt)| &&
        BlockVertices(shape, block, first, last, xres, dpt)[k] == shape(VertexKey(block, i, top, x))
    {
      BlockVertex(shape, block, first, last, xres, dpt, i, top, x);
    }
    BlockVertex(shape, block, first, last, xres, dpt, i, top, 0);
    BlockVertex(shape, block, first, last, xres, dpt, i, top, xres);
  }

  /** A row keeps its contents when vertices are put before it, `|pre|` further on. */
  lemma RowAtShift(pre: seq<Vec3>, vs: seq<Vec3>, base: int, shape: VertexKey -> Vec3, block: nat, row: int, top: bool, xres: int)
    requires RowAt(vs, base, shape, block, row, top, xres)
    ensures RowAt(pre + vs, |pre| + base, shape, block, row, top, xres)
  {
    forall x | 0 <= x <= xres
      ensures (pre + vs)[|pre| + base + x] == shape(VertexKey(block, row, top, x))
    {
      assert (pre + vs)[|pre| + base + x] == vs[base + x];
    }
  }

  /** Every step of rows `first..last` sits at its StepStart past the start of the appended rows. */
  lemma BlockRows(pre: seq<Vec3>, shape: VertexKey -> Vec3, block: nat, first: int, last: int, xres: int, dpt: bool, i: int)
    requires xres >= 0 && first <= i <= last
    ensures RowsAt(pre + BlockVertices(shape, block, first, last, xres, dpt), |pre| + StepStart(first, i, xres, dpt), shape, block, i, xres, dpt)
  {
    var bv := BlockVertices(shape, block, first, last, xres, dpt);
    var base := StepStart(first, i, xres, dpt);
    BlockRow(shape, block, first, last, xres, dpt, i, true);
    RowAtShift(pre, bv, base, shape, block, i, true, xres);
    if dpt {
      BlockRow(shape, block, first, last, xres, dpt, i, false);
      RowAtShift(pre, bv, base + xres + 1, shape, block, i, false, xres);
    }
  }

  /**
   * After rows `first..last` are appended to `pre`, with `start` being
   * `first` steps before their beginning, step `i` sits at
   * `start + StepStart(0, i)` and the list ends after step `last`.
   */
  lemma BlockPlaced(pre: seq<Vec3>, shape: VertexKey -> Vec3, block: nat, first: int, last: int, xres: int, dpt: bool, start: int)
    requires xres >= 0 && 0 <= first <= last + 1 && start == |pre| - first * (Rows(dpt) * (xres + 1))
    ensures |pre + BlockVertices(shape, block, first, last, xres, dpt)| == start + StepStart(0, last + 1, xres, dpt)
    ensures forall i :: first <= i <= last ==>
      RowsAt(pre + BlockVertices(shape, block, first, last, xres, dpt), start + StepStart(0, i, xres, dpt), shape, block, i, xres, dpt)
  {
    var rw := Rows(dpt) * (xres + 1);
    forall i | first <= i <= last
      ensures RowsAt(pre + BlockVertices(shape, block, first, last, xres, dpt), start + StepStart(0, i, xres, dpt), shape, block, i, xres, dpt)
    {
      BlockRows(pre, shape, block, first, last, xres, dpt, i);
      assert StepStart(first, i, xres, dpt) == i * rw - first * rw;
    }
    assert StepStart(0, last + 1, xres, dpt) == (last + 1 - first) * rw + first * rw;
  }

  /** Appending vertices moves no vertex. */
  lemma RowsAtKept(vs: seq<Vec3>, more: seq<Vec3>, base: int, shape: VertexKey -> Vec3, block: nat, row: int, xres: int, dpt: bool)
    requires RowsAt(vs, base, shape, block, row, xres, dpt)
    ensures RowsAt(vs + more, base, shape, block, row, xres, dpt)
  {
    forall k | 0 <= k < |vs|
      ensures (vs + more)[k] == vs[k]
    {
    }
  }

  // -------------------------------------------------------------- surfaces

  /**
   * The surfaces of a block whose step 0 starts at `start`, steps being
   * `Rows(dpt) * W` vertices apart with `W = xres+1`: the top alone, or
   * with depth the top, the bottom (columns mirrored), the two sides and,
   * when asked, the cap closing step 0.
   */
  function Surfaces(start: int, xres: int, yres: int, dpt: bool, capHere: bool): (gs: seq<Grid>)
    ensures 1 <= |gs| <= 5
  {
    var w := xres + 1;
    if dpt then
      [Grid(start, 1, 2 * w, xres, yres), Grid(start + 2 * xres + 1, -1, 2 * w, xres, yres),
       Grid(start + xres, w, 2 * w, 1, yres), Grid(start + xres + 1, -w, 2 * w, 1, yres)]
      + (if capHere then [Grid(start + xres + 1, 1, -w, xres, 1)] else [])
    else [Grid(start, 1, w, xres, yres)]
  }

  /** The surface closing the far end of the last block: its last step's top and bottom rows. */
  function EndCap(n: int, xres: int): Grid
  {
    Grid(n - 2 * (xres + 1), 1, xres + 1, xres, 1)
  }

  /** `c * x` for `0 <= x <= m` lies between `0` and `c * m`. */
  lemma Between(c: int, x: int, m: int)
    requires 0 <= x <= m
    ensures c >= 0 ==> 0 <= c * x <= c * m
    ensures c < 0 ==> c * m <= c * x <= 0
  {
    if c >= 0 {
      assert c * m - c * x == c * (m - x);
    } else {
      assert c * x - c * m == (-c) * (m - x);
      assert c * x == -((-c) * x);
    }
  }

  /** A grid's indices are affine, so when its four corners lie in `[0, n)` every point does. */
  lemma GridBox(g: Grid, n: int)
    requires g.Valid()
    requires 0 <= g.At(0, 0) < n && 0 <= g.At(g.xres, 0) < n && 0 <= g.At(0, g.yres) < n && 0 <= g.At(g.xres, g.yres) < n
    ensures g.Within(n)
  {
    forall x, y | 0 <= x <= g.xres && 0 <= y <= g.yres
      ensures 0 <= g.At(x, y) < n
    {
      Between(g.xstride, x, g.xres);
      Between(g.ystride, y, g.yres);
    }
  }

  /** With depth, the top and bottom surfaces lie inside `[0, n)`; `last` is where step `yres` starts. */
  lemma TopBottomWithin(start: int, xres: int, yres: int, n: int, last: int)
    requires xres >= 1 && yres >= 1 && 0 <= start && 0 <= last
    requires last == 2 * (xres + 1) * yres && start + last + 2 * (xres + 1) <= n
    ensures Grid(start, 1, 2 * (xres + 1), xres, yres).Within(n)
    ensures Grid(start + 2 * xres + 1, -1, 2 * (xres + 1), xres, yres).Within(n)
  {
    GridBox(Grid(start, 1, 2 * (xres + 1), xres, yres), n);
    GridBox(Grid(start + 2 * xres + 1, -1, 2 * (xres + 1), xres, yres), n);
  }

  /** With depth, the two sides lie inside `[0, n)`. */
  lemma SidesWithin(start: int, xres: int, yres: int, n: int, last: int)
    requires xres >= 1 && yres >= 1 && 0 <= start && 0 <= last
    requires last == 2 * (xres + 1) * yres && start + last + 2 * (xres + 1) <= n
    ensures Grid(start + xres, xres + 1, 2 * (xres + 1), 1, yres).Within(n)
    ensures Grid(start + xres + 1, -(xres + 1), 2 * (xres + 1), 1, yres).Within(n)
  {
    GridBox(Grid(start + xres, xres + 1, 2 * (xres + 1), 1, yres), n);
    GridBox(Grid(start + xres + 1, -(xres + 1), 2 * (xres + 1), 1, yres), n);
  }

  /** The cap over step 0 lies inside `[0, n)` once step 0 is there. */
  lemma CapWithin(start: int, xres: int, n: int)
    requires xres >= 1 && 0 <= start && start + 2 * (xres + 1) <= n
    ensures Grid(start + xres + 1, 1, -(xres + 1), xres, 1).Within(n)
  {
    GridBox(Grid(start + xres + 1, 1, -(xres + 1), xres, 1), n);
  }

  /** The surfaces of a block with depth lie inside a list that holds its `yres+1` steps from `start` on. */
  lemma DepthSurfacesWithin(start: int, xres: int, yres: int, n: int)
    requires xres >= 1 && yres >= 1 && 0 <= start && start + StepStart(0, yres + 1, xres, true) <= n
    ensures Grid(start, 1, 2 * (xres + 1), xres, yres).Within(n)
    ensures Grid(start + 2 * xres + 1, -1, 2 * (xres + 1), xres, yres).Within(n)
    ensures Grid(start + xres, xres + 1, 2 * (xres + 1), 1, yres).Within(n)
    ensures Grid(start + xres + 1, -(xres + 1), 2 * (xres + 1), 1, yres).Within(n)
    ensures Grid(start + xres + 1, 1, -(xres + 1), xres, 1).Within(n)
  {
    var last := 2 * (xres + 1) * yres;
    assert StepStart(0, yres + 1, xres, true) == last + 2 * (xres + 1);
    Between(2 * (xres + 1), 0, yres);
    TopBottomWithin(start, xres, yres, n, last);
    SidesWithin(start, xres, yres, n, last);
    CapWithin(start, xres, n);
  }

  /** The top-only surface of a block lies inside a list that holds its `yres+1` steps from `start` on. */
  lemma FlatSurfaceWithin(start: int, xres: int, yres: int, n: int)
    requires xres >= 1 && yres >= 1 && 0 <= start && start + StepStart(0, yres + 1, xres, false) <= n
    ensures Grid(start, 1, xres + 1, xres, yres).Within(n)
  {
    var last := (xres + 1) * yres;
    assert StepStart(0, yres + 1, xres, false) == last + (xres + 1);
    Between(xres + 1, 0, yres);
    GridBox(Grid(start, 1, xres + 1, xres, yres), n);
  }

  /** The end cap lies inside a vertex list that ends with a step of two rows. */
  lemma EndCapWithin(n: int, xres: int)
    requires xres >= 1 && n >= 2 * (xres + 1)
    ensures EndCap(n, xres).Valid() && EndCap(n, xres).Within(n)
  {
    GridBox(EndCap(n, xres), n);
  }

  // ---------------------------------------------------------------- blocks

  /** Every surface is a proper grid. */
  predicate AllValid(gs: seq<Grid>)
  {
    forall j :: 0 <= j < |gs| ==> gs[j].Valid()
  }

  /** The normals the surfaces make: one per grid point. */
  function NormalCount(gs: seq<Grid>): (r: int)
    requires AllValid(gs)
    ensures r >= 0
    decreases |gs|
  {
    if gs == [] then 0
    else
      var g := gs[|gs| - 1];
      MulAtLeast(g.xres + 1, g.yres + 1);
      NormalCount(gs[..|gs| - 1]) + (g.xres + 1) * (g.yres + 1)
  }

  /** The triangles the surfaces make: two per square. */
  function TriangleCount(gs: seq<Grid>): int
    requires AllValid(gs)
    decreases |gs|
  {
    if gs == [] then 0
    else
      var g := gs[|gs| - 1];
      TriangleCount(gs[..|gs| - 1]) + 2 * (g.xres * g.yres)
  }

  /** The triangles the surfaces append in order, each numbering its normals on from those before it. */
  function BlockTriangles(gs: seq<Grid>, nstart: int): (ts: seq<Triangle>)
    requires AllValid(gs)
    ensures |ts| == TriangleCount(gs)
    decreases |gs|
  {
    if gs == [] then []
    else
      var init := gs[..|gs| - 1];
      BlockTriangles(init, nstart) + SurfaceTriangles(gs[|gs| - 1], nstart + NormalCount(init))
  }

  /**
   * A block's triangles: `2*xres*yres` on the top alone, and with depth
   * as many again underneath, `2*yres` per side and `2*xres` for a cap.
   */
  lemma SurfaceTriangleCount(start: int, xres: int, yres: int, dpt: bool, capHere: bool)
    requires xres >= 1 && yres >= 1
    ensures AllValid(Surfaces(start, xres, yres, dpt, capHere))
    ensures TriangleCount(Surfaces(start, xres, yres, dpt, capHere)) ==
      if !dpt then 2 * (xres * yres)
      else 4 * (xres * yres) + 4 * yres + (if capHere then 2 * xres else 0)
  {
    var gs := Surfaces(start, xres, yres, dpt, capHere);
    if dpt {
      assert gs[..1][..0] == [] && gs[..2][..1] == gs[..1] && gs[..3][..2] == gs[..2] && gs[..4][..3] == gs[..3];
      assert TriangleCount(gs[..1]) == 2 * (xres * yres);
      assert TriangleCount(gs[..2]) == 4 * (xres * yres);
      assert TriangleCount(gs[..3]) == 4 * (xres * yres) + 2 * yres;
      assert TriangleCount(gs[..4]) == 4 * (xres * yres) + 4 * yres;
      if capHere {
        assert gs[..4] == gs[..|gs| - 1];
      } else {
        assert gs == gs[..4];
      }
    } else {
      assert gs[..0] == [];
    }
  }

  /**
   * What a block has appended so far, against the materials `ms0`, normals
   * `ns0` and triangle count `count0` it started from: triangles `ts` on
   * material `mat` and nothing else, `nc` normals after the old ones, and
   * `tc` on the count.
   */
  ghost predicate SurfacesAdded(ms: seq<ModelMaterial>, ns: seq<Vec3>, count: int, mat: nat,
                                ms0: seq<ModelMaterial>, ns0: seq<Vec3>, count0: int, ts: seq<Triangle>, nc: int, tc: int)
    requires mat < |ms0|
  {
    ms == ms0[mat := ms0[mat].(triangles := ms0[mat].triangles + ts)] &&
    nc >= 0 && |ns| == |ns0| + nc && ns[..|ns0|] == ns0 && count == count0 + tc
  }

  /** One more surface's triangles, normals and count extend what the block has appended. */
  lemma SurfaceStep(ms1: seq<ModelMaterial>, ns1: seq<Vec3>, c1: int, ms2: seq<ModelMaterial>, ns2: seq<Vec3>, c2: int,
                    mat: nat, ms0: seq<ModelMaterial>, ns0: seq<Vec3>, count0: int, ts: seq<Triangle>, nc: int, tc: int,
                    st: seq<Triangle>, snc: int, stc: int)
    requires mat < |ms0|
    requires SurfacesAdded(ms1, ns1, c1, mat, ms0, ns0, count0, ts, nc, tc)
    requires |ms2| == |ms1| && (forall m :: 0 <= m < |ms1| && m != mat ==> ms2[m] == ms1[m])
    requires ms2[mat] == ms1[mat].(triangles := ms1[mat].triangles + st)
    requires snc >= 0 && |ns2| == |ns1| + snc && ns2[..|ns1|] == ns1 && c2 == c1 + stc
    ensures SurfacesAdded(ms2, ns2, c2, mat, ms0, ns0, count0, ts + st, nc + snc, tc + stc)
  {
    var t := ms0[mat].triangles + (ts + st);
    assert ms2[mat] == ms0[mat].(triangles := t);
    assert ms2 == ms0[mat := ms0[mat].(triangles := t)];
    assert ns2[..|ns0|] == ns1[..|ns0|];
  }

  /** Before the first surface, nothing has been appended. */
  lemma NothingAdded(ms: seq<ModelMaterial>, ns: seq<Vec3>, count: int, mat: nat)
    requires mat < |ms|
    ensures SurfacesAdded(ms, ns, count, mat, ms, ns, count, [], 0, 0)
  {
    assert ms[mat].triangles + [] == ms[mat].triangles;
    assert ms[mat := ms[mat].(triangles := ms[mat].triangles)] == ms;
    assert ns[..|ns|] == ns;
  }

  /** Appending a surface appends its triangles, normals and count. */
  lemma BlockSnoc(done: seq<Grid>, g: Grid, nstart: int)
    requires AllValid(done) && g.Valid()
    ensures AllValid(done + [g])
    ensures BlockTriangles(done + [g], nstart) == BlockTriangles(done, nstart) + SurfaceTriangles(g, nstart + NormalCount(done))
    ensures NormalCount(done + [g]) == NormalCount(done) + (g.xres + 1) * (g.yres + 1)
    ensures TriangleCount(done + [g]) == TriangleCount(done) + 2 * (g.xres * g.yres)
  {
    var all := done + [g];
    assert all[..|all| - 1] == done && all[|all| - 1] == g;
  }

  /** One GenNormalsAndIndices call of a block, extending the account of what the block has appended. */
  method Add_Surface(model: Model, mat: nat, g: Grid, count: int,
                     ghost ms0: seq<ModelMaterial>, ghost ns0: seq<Vec3>, ghost count0: int, ghost done: seq<Grid>)
    returns (count': int)
    requires mat < |ms0| && AllValid(done) && g.Valid() && g.Within(|model.vertices|)
    requires SurfacesAdded(model.materials, model.normals, count, mat, ms0, ns0, count0,
                           BlockTriangles(done, |ns0|), NormalCount(done), TriangleCount(done))
    modifies model`normals, model`materials
    ensures AllValid(done + [g])
    ensures SurfacesAdded(model.materials, model.normals, count', mat, ms0, ns0, count0,
                          BlockTriangles(done + [g], |ns0|), NormalCount(done + [g]), TriangleCount(done + [g]))
    ensures VerticesIn(old(model.materials), |model.vertices|) ==> VerticesIn(model.materials, |model.vertices|)
  {
    ghost var ms1, ns1 := model.materials, model.normals;
    count' := Gen_Normals_And_Indices(model, mat, g, count);
    BlockSnoc(done, g, |ns0|);
    MulAtLeast(g.xres + 1, g.yres + 1);
    SurfaceStep(ms1, ns1, count, model.materials, model.normals, count', mat, ms0, ns0, count0,
                BlockTriangles(done, |ns0|), NormalCount(done), TriangleCount(done),
                SurfaceTriangles(g, |ns1|), (g.xres + 1) * (g.yres + 1), 2 * (g.xres * g.yres));
  }

  /** Where step 0 of a block starts: at the end of the list, or one step back when that step is reused. */
  function BlockStart(n: int, reuse: bool, dpt: bool, xres: int): int
  {
    if reuse then n - Rows(dpt) * (xres + 1) else n
  }

  /** The step a block's own vertex rows begin with: 1 when step 0 is reused. */
  function First(reuse: bool): int
  {
    if reuse then 1 else 0
  }

  /**
   * The vertex rows of one block: from step 1 on when the previous block's
   * last step is reused, `start` then moving back by that step. Each
   * appended step `i` sits at `start + StepStart(0, i)`.
   */
  method Block_Vertices(model: Model, xres: int, yres: int, dpt: bool, reuse: bool, shape: VertexKey -> Vec3, block: nat)
    returns (start: int)
    requires xres >= 1 && yres >= 1
    requires reuse ==> |model.vertices| >= Rows(dpt) * (xres + 1)
    modifies model`vertices
    ensures start == BlockStart(|old(model.vertices)|, reuse, dpt, xres) && 0 <= start
    ensures model.vertices == old(model.vertices) + BlockVertices(shape, block, First(reuse), yres, xres, dpt)
    ensures |model.vertices| == start + StepStart(0, yres + 1, xres, dpt)
    ensures forall i :: First(reuse) <= i <= yres ==> RowsAt(model.vertices, start + StepStart(0, i, xres, dpt), shape, block, i, xres, dpt)
  {
    var w := xres + 1;
    start := |model.vertices|;
    var i := 0;
    if reuse {
      i := 1;
      if dpt {
        start := start - 2 * w;
      } else {
        start := start - w;
      }
    }
    ghost var first := i;
    while i <= yres
      invariant first <= i <= yres + 1
      invariant model.vertices == old(model.vertices) + BlockVertices(shape, block, first, i - 1, xres, dpt)
    {
      BlockVerticesStep(old(model.vertices), shape, block, first, i, xres, dpt);
      Gen_Vertices(model, shape, block, i, true, xres);
      if dpt {
        Gen_Vertices(model, shape, block, i, false, xres);
      }
      i := i + 1;
    }
    BlockPlaced(old(model.vertices), shape, block, first, yres, xres, dpt, start);
  }

  /**
   * The surfaces of one block, on material `mat`: top, bottom and sides
   * with depth, and the cap over step 0 when asked; the top alone without.
   */
  method Block_Surfaces(model: Model, mat: nat, start: int, xres: int, yres: int, dpt: bool, capHere: bool, count: int)
    returns (count': int)
    requires xres >= 1 && yres >= 1 && mat < |model.materials|
    requires 0 <= start && start + StepStart(0, yres + 1, xres, dpt) <= |model.vertices|
    modifies model`normals, model`materials
    ensures AllValid(Surfaces(start, xres, yres, dpt, capHere))
    ensures var gs := Surfaces(start, xres, yres, dpt, capHere);
      SurfacesAdded(model.materials, model.normals, count', mat, old(model.materials), old(model.normals), count,
                    BlockTriangles(gs, |old(model.normals)|), NormalCount(gs), TriangleCount(gs))
    ensures VerticesIn(old(model.materials), |model.vertices|) ==> VerticesIn(model.materials, |model.vertices|)
  {
    if dpt {
      count' := Depth_Surfaces(model, mat, start, xres, yres, capHere, count);
    } else {
      FlatSurfaceWithin(start, xres, yres, |model.vertices|);
      NothingAdded(model.materials, model.normals, count, mat);
      var g := Grid(start, 1, xres + 1, xres, yres);
      count' := Add_Surface(model, mat, g, count, old(model.materials), old(model.normals), count, []);
      assert [] + [g] == Surfaces(start, xres, yres, dpt, capHere);
    }
  }

  /** The surfaces of a block with depth: top, bottom, the two sides and, when asked, the cap. */
  method Depth_Surfaces(model: Model, mat: nat, start: int, xres: int, yres: int, capHere: bool, count: int)
    returns (count': int)
    requires xres >= 1 && yres >= 1 && mat < |model.materials|
    requires 0 <= start && start + StepStart(0, yres + 1, xres, true) <= |model.vertices|
    modifies model`normals, model`materials
    ensures AllValid(Surfaces(start, xres, yres, true, capHere))
    ensures var gs := Surfaces(start, xres, yres, true, capHere);
      SurfacesAdded(model.materials, model.normals, count', mat, old(model.materials), old(model.normals), count,
                    BlockTriangles(gs, |old(model.normals)|), NormalCount(gs), TriangleCount(gs))
    ensures VerticesIn(old(model.materials), |model.vertices|) ==> VerticesIn(model.materials, |model.vertices|)
  {
    ghost var ms0, ns0 := model.materials, model.normals;
    count' := Side_Surfaces(model, mat, start, xres, yres, count);
    if capHere {
      DepthSurfacesWithin(start, xres, yres, |model.vertices|);
      var cap := Grid(start + xres + 1, 1, -(xres + 1), xres, 1);
      ghost var sides := Surfaces(start, xres, yres, true, false);
      count' := Add_Surface(model, mat, cap, count', ms0, ns0, count, sides);
      assert sides + [cap] == Surfaces(start, xres, yres, true, true);
    }
  }

  /** The top, bottom and two side surfaces of a block with depth, in that order. */
  method Side_Surfaces(model: Model, mat: nat, start: int, xres: int, yres: int, count: int)
    returns (count': int)
    requires xres >= 1 && yres >= 1 && mat < |model.materials|
    requires 0 <= start && start + StepStart(0, yres + 1, xres, true) <= |model.vertices|
    modifies model`normals, model`materials
    ensures AllValid(Surfaces(start, xres, yres, true, false))
    ensures var gs := Surfaces(start, xres, yres, true, false);
      SurfacesAdded(model.materials, model.normals, count', mat, old(model.materials), old(model.normals), count,
                    BlockTriangles(gs, |old(model.normals)|), NormalCount(gs), TriangleCount(gs))
    ensures VerticesIn(old(model.materials), |model.vertices|) ==> VerticesIn(model.materials, |model.vertices|)
  {
    DepthSurfacesWithin(start, xres, yres, |model.vertices|);
    var top := Grid(start, 1, 2 * (xres + 1), xres, yres);
    var bottom := Grid(start + 2 * xres + 1, -1, 2 * (xres + 1), xres, yres);
    var left := Grid(start + xres, xres + 1, 2 * (xres + 1), 1, yres);
    var right := Grid(start + xres + 1, -(xres + 1), 2 * (xres + 1), 1, yres);
    ghost var ms0, ns0 := model.materials, model.normals;
    NothingAdded(model.materials, model.normals, count, mat);
    count' := Add_Surface(model, mat, top, count, ms0, ns0, count, []);
    assert [] + [top] == [top];
    count' := Add_Surface(model, mat, bottom, count', ms0, ns0, count, [top]);
    assert [top] + [bottom] == [top, bottom];
    count' := Add_Surface(model, mat, left, count', ms0, ns0, count, [top, bottom]);
    assert [top, bottom] + [left] == [top, bottom, left];
    count' := Add_Surface(model, mat, right, count', ms0, ns0, count, [top, bottom, left]);
    assert [top, bottom, left] + [right] == Surfaces(start, xres, yres, true, false);
  }

  /** Triangles that name one of `n` vertices name one of any more. */
  lemma VerticesInMore(ms: seq<ModelMaterial>, n: int, m: int)
    requires n <= m && VerticesIn(ms, n)
    ensures VerticesIn(ms, m)
  {
  }

  /**
   * What one block appends, against the lists `vs0`, `ns0`, `ms0` and the
   * count `count0` before it: its vertex rows, then its surfaces' normals
   * and triangles on material `mat`, numbered on from the old normals, and
   * their number on the count.
   */
  ghost predicate BlockAdded(vs0: seq<Vec3>, ns0: seq<Vec3>, ms0: seq<ModelMaterial>, count0: int,
                             vs: seq<Vec3>, ns: seq<Vec3>, ms: seq<ModelMaterial>, count: int,
                             mat: nat, shape: VertexKey -> Vec3, block: nat, xres: int, yres: int,
                             dpt: bool, reuse: bool, capHere: bool)
    requires xres >= 1 && mat < |ms0|
  {
    var gs := Surfaces(BlockStart(|vs0|, reuse, dpt, xres), xres, yres, dpt, capHere);
    vs == vs0 + BlockVertices(shape, block, First(reuse), yres, xres, dpt) &&
    AllValid(gs) &&
    SurfacesAdded(ms, ns, count, mat, ms0, ns0, count0, BlockTriangles(gs, |ns0|), NormalCount(gs), TriangleCount(gs))
  }

  /**
   * One block of road between two ends: its vertex rows (reusing the
   * previous block's last step when `reuse`), then its surfaces on
   * material `mat`.
   */
  method Add_Block(model: Model, mat: nat, xres: int, yres: int, dpt: bool, reuse: bool, capHere: bool,
                   shape: VertexKey -> Vec3, block: nat, count: int) returns (count': int)
    requires xres >= 1 && yres >= 1 && mat < |model.materials|
    requires reuse ==> |model.vertices| >= Rows(dpt) * (xres + 1)
    modifies model`vertices, model`normals, model`materials
    ensures model.vertices == old(model.vertices) + BlockVertices(shape, block, First(reuse), yres, xres, dpt)
    ensures |model.vertices| == BlockStart(|old(model.vertices)|, reuse, dpt, xres) + StepStart(0, yres + 1, xres, dpt)
    ensures forall i :: First(reuse) <= i <= yres ==>
      RowsAt(model.vertices, BlockStart(|old(model.vertices)|, reuse, dpt, xres) + StepStart(0, i, xres, dpt), shape, block, i, xres, dpt)
    ensures BlockAdded(old(model.vertices), old(model.normals), old(model.materials), count,
                       model.vertices, model.normals, model.materials, count',
                       mat, shape, block, xres, yres, dpt, reuse, capHere)
    ensures VerticesIn(old(model.materials), |old(model.vertices)|) ==> VerticesIn(model.materials, |model.vertices|)
  {
    var start := Block_Vertices(model, xres, yres, dpt, reuse, shape, block);
    if VerticesIn(old(model.materials), |old(model.vertices)|) {
      VerticesInMore(model.materials, |old(model.vertices)|, |model.vertices|);
    }
    count' := Block_Surfaces(model, mat, start, xres, yres, dpt, capHere, count);
  }
}
