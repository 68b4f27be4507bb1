/** Data shared by the mesh builder and the geoms that use its meshes. */
module MeshTypes {

  /**
   * Model_Mesh::Material: a material name and the index one past its last
   * triangle in the flattened triangle list.
   */
  datatype Material = Material(name: string, end: int)

  /** The `end` of every material, in order. */
  function Ends(ms: seq<Material>): (r: seq<int>)
    ensures |r| == |ms| && forall i :: 0 <= i < |ms| ==> r[i] == ms[i].end
  {
    seq(|ms|, i requires 0 <= i < |ms| => ms[i].end)
  }
}
