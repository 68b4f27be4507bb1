/**
 * Racetime_Data (racetime_data.hpp): loaded data that lives for a race,
 * kept in one list `Racetime_Data::head` and looked up by name and type.
 * A node's dynamic type is modelled by the set of class names it is an
 * instance of (its own class and every base), which is what
 * `dynamic_cast<T*>` tests.
 */
module RacetimeData {
  import opened Seqs

  class Data {
    const name: string
    /** The classes `dynamic_cast` accepts for this node. */
    const types: set<string>
    var next: Data?

    constructor (name: string, types: set<string>)
      ensures this.name == name && this.types == types && next == null
    {
      this.name := name;
      this.types := types;
      next := null;
    }
  }

  /** `strcmp(tmp->name, name) == 0 && dynamic_cast<T*>(tmp)`. */
  predicate Matches(d: Data, typeName: string, name: string)
  {
    d.name == name && typeName in d.types
  }

  /**
   * The position of the first node matching both name and type, or the
   * length of the list when none does.
   */
  function FirstMatch(nodes: seq<Data>, typeName: string, name: string): (i: nat)
    ensures i <= |nodes|
    ensures forall j :: 0 <= j < i ==> !Matches(nodes[j], typeName, name)
    ensures i < |nodes| ==> Matches(nodes[i], typeName, name)
    decreases |nodes|
  {
    if nodes == [] then 0
    else if Matches(nodes[0], typeName, name) then 0
    else 1 + FirstMatch(nodes[1..], typeName, name)
  }

  /** The global list, first node at `head`. */
  class Registry {
    var head: Data?
    ghost var nodes: seq<Data>

    ghost function Members(): set<Data>
      reads this
    {
      set x | x in nodes
    }

    ghost predicate Linked()
      reads this, Members()`next
    {
      (head == if nodes == [] then null else nodes[0]) &&
      (forall i {:trigger nodes[i].next} :: 0 <= i < |nodes| ==>
         nodes[i].next == (if i + 1 < |nodes| then nodes[i+1] else null)) &&
      Distinct(nodes)
    }

    /**
     * Racetime_Data::Find<T>: the first node in list order whose name is
     * `name` and that is a `typeName`; a node with the right name but
     * another type is passed over. Nothing is changed.
     */
    method Find(typeName: string, name: string) returns (r: Data?)
      requires Linked()
      ensures r == Found(nodes, typeName, name)
    {
      var tmp := head;
      ghost var k := 0;
      while tmp != null
        invariant k <= FirstMatch(nodes, typeName, name) && tmp == (if k < |nodes| then nodes[k] else null)
        decreases |nodes| - k
      {
        if tmp.name == name && typeName in tmp.types {
          return tmp;
        }
        tmp := tmp.next;
        k := k + 1;
      }
      return null;
    }
  }

  /** The node FirstMatch picks, or null. */
  function Found(nodes: seq<Data>, typeName: string, name: string): (r: Data?)
    ensures r == null <==> forall j :: 0 <= j < |nodes| ==> !Matches(nodes[j], typeName, name)
    ensures r != null ==> r in nodes && Matches(r, typeName, name)
  {
    var m := FirstMatch(nodes, typeName, name);
    if m < |nodes| then nodes[m] else null
  }
}
