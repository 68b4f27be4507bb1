/**
 * The in-memory model the OBJ/MTL loaders fill and Create_Mesh reads
 * (`Model`, declared in model.hpp): vertex, texture-coordinate and normal
 * lists, and materials that each own their triangles.
 */
module Models {
  import opened Vectors

  /** `INDEX_ERROR`: the "no index" marker, the largest 32-bit unsigned value. */
  const INDEX_ERROR: int := 0xFFFF_FFFF
  /** Indices are `unsigned int`: arithmetic on them is modulo this. */
  const U32: int := 0x1_0000_0000

  /** A 32-bit unsigned value. */
  predicate IsU32(x: int)
  {
    0 <= x < U32
  }

  /** `--x` on an `unsigned int`. */
  function Dec(x: int): (r: int)
    requires IsU32(x)
    ensures IsU32(r)
    ensures x > 0 ==> r == x - 1
    ensures x == 0 ==> r == INDEX_ERROR
  {
    (x + U32 - 1) % U32
  }

  datatype Vec2 = Vec2(x: real, y: real)

  /** One corner of a `Triangle_Uint`: its vertex, texcoord and normal indices. */
  datatype Corner = Corner(v: int, t: int, n: int)

  datatype Triangle = Triangle(c0: Corner, c1: Corner, c2: Corner)

  /** `Material_Float`: the colours of a material (RGB; alpha is not modelled). */
  datatype Colours = Colours(ambient: Vec3, diffuse: Vec3, specular: Vec3, emission: Vec3, shininess: real)

  /** `Model::Material`: name, colours, diffuse texture path and the material's triangles. */
  datatype ModelMaterial = ModelMaterial(name: string, colours: Colours, diffusetex: string, triangles: seq<Triangle>)

  /** The three vertex indices of the triangle name vertices. */
  predicate TriIn(t: Triangle, verts: int)
  {
    0 <= t.c0.v < verts && 0 <= t.c1.v < verts && 0 <= t.c2.v < verts
  }

  /** Every vertex index of every triangle names a vertex. */
  predicate VerticesIn(ms: seq<ModelMaterial>, verts: int)
  {
    forall j, k :: 0 <= j < |ms| && 0 <= k < |ms[j].triangles| ==> TriIn(ms[j].triangles[k], verts)
  }

  /**
   * Model::Find_Material (model.cpp, which is not part of this model),
   * taken to be the index of the first material named `name`, or
   * INDEX_ERROR when there is none.
   */
  function FindMaterial(ms: seq<ModelMaterial>, name: string): (r: int)
    ensures r == INDEX_ERROR || (0 <= r < |ms| && ms[r].name == name)
    ensures r != INDEX_ERROR ==> forall j :: 0 <= j < r ==> ms[j].name != name
    ensures r == INDEX_ERROR && |ms| <= INDEX_ERROR ==> forall j :: 0 <= j < |ms| ==> ms[j].name != name
    decreases |ms|
  {
    if ms == [] then INDEX_ERROR
    else if ms[0].name == name then 0
    else
      var r := FindMaterial(ms[1..], name);
      if r == INDEX_ERROR then INDEX_ERROR else r + 1
  }

  class Model {
    var vertices: seq<Vec3>
    var texcoords: seq<Vec2>
    var normals: seq<Vec3>
    var materials: seq<ModelMaterial>

    constructor ()
      ensures vertices == [] && texcoords == [] && normals == [] && materials == []
    {
      vertices, texcoords, normals, materials := [], [], [], [];
    }
  }
}
