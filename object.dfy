/**
 * Objects (object.cpp): the root of a scene entity. Every Object sits in the
 * global intrusive list `Object::head` and keeps an activity counter that its
 * Geoms and Bodies raise when they are created and lower when they are
 * destroyed; reaching zero queues an "inactive" event.
 */
module Objects {
  import opened Wrappers
  import opened Seqs
  import opened EventBuffers

  class Object {
    /** `unsigned int activity`: how many live Geoms and Bodies refer to the object. */
    var activity: nat
    /**
     * The chain of components, the one on top first. Each of them holds one
     * unit of activity, as a Geom or a Body does.
     */
    var components: seq<object>
    var prev: Object?
    var next: Object?

    /** Every listed component is counted, and none is listed twice. */
    ghost predicate Valid()
      reads this`activity, this`components
    {
      |components| <= activity && this !in components && Distinct(components)
    }

    /** Object::Object: a new object heads the list, with no activity and no components. */
    constructor (list: ObjectList)
      requires list.Valid()
      modifies list`head, list`nodes, list.Members()`prev
      ensures Valid() && activity == 0 && components == []
      ensures list.Valid() && list.nodes == [this] + old(list.nodes)
      ensures list.head == this && prev == null
    {
      activity := 0;
      components := [];
      new;
      list.Push(this);
    }

    /** Object::Increase_Activity */
    method Increase_Activity()
      modifies this`activity
      ensures activity == old(activity) + 1
    {
      activity := activity + 1;
    }

    /** Object::Decrease_Activity: the counter is unsigned, so callers never lower it below zero. */
    method Decrease_Activity(queue: EventQueue)
      requires activity > 0
      modifies this`activity, queue
      ensures activity == old(activity) - 1
      ensures queue.entries == old(queue.entries) + (if activity == 0 then [Event(Inactive, this)] else [])
    {
      activity := activity - 1;
      if activity == 0 {
        queue.AddInactive(this);
      }
    }

    /**
     * The component base constructor (component.cpp is not part of this
     * model): a new Geom or Body goes on top of the chain.
     */
    method Attach(c: object)
      modifies this`components
      ensures components == [c] + old(components)
    {
      components := [c] + components;
    }

    /**
     * One `delete components` of the destructor, as it affects this object:
     * the top component purges its own events, lowers the activity and
     * leaves the chain.
     */
    method ReleaseTop(queue: EventQueue)
      requires Valid() && components != []
      modifies this`activity, this`components, queue
      ensures Valid()
      ensures components == old(components)[1..]
      ensures activity == old(activity) - 1
      ensures queue.entries == Purge(old(queue.entries), old(components)[0]) +
                               (if activity == 0 then [Event(Inactive, this)] else [])
    {
      var c := components[0];
      queue.RemoveAll(c);
      Decrease_Activity(queue);
      components := components[1..];
    }

    /**
     * The `while (components) delete components;` loop of the destructor.
     * Seen through a final purge of this object, the queue has lost every
     * event of every released component.
     */
    method ReleaseAll(queue: EventQueue)
      requires Valid()
      modifies this`activity, this`components, queue
      ensures Valid() && components == [] && activity == old(activity) - |old(components)|
      ensures Purge(queue.entries, this) == Purge(PurgeAll(old(queue.entries), old(components)), this)
    {
      ghost var cs := components;
      ghost var k := 0;
      while components != []
        invariant Valid()
        invariant 0 <= k <= |cs| && components == cs[k..]
        invariant activity == old(activity) - k
        invariant Purge(queue.entries, this) == Purge(PurgeAll(old(queue.entries), cs[..k]), this)
        decreases |components|
      {
        ghost var before := queue.entries;
        var c := components[0];
        assert c == cs[k] && c != this;
        ReleaseTop(queue);
        ReleaseStep(before, old(queue.entries), cs, k, this, activity == 0);
        k := k + 1;
      }
      assert cs[..k] == cs;
    }

    /**
     * Object::~Object: leaves the list, destroys its components until the
     * chain is empty, then purges every event queued for itself, so an
     * "inactive" event raised by the last component is gone too.
     */
    method Destroy(list: ObjectList, queue: EventQueue)
      requires list.Valid() && this in list.nodes
      modifies list`head, list`nodes, list.Members()`prev, list.Members()`next
      modifies this`activity, this`components, queue
      ensures list.Valid() && list.nodes == Without(old(list.nodes), this)
      ensures components == [] && activity == old(activity) - |old(components)|
      ensures queue.entries == Purge(PurgeAll(old(queue.entries), old(components)), this)
      ensures Count(queue.entries, Inactive, this) == 0
    {
      ghost var s := list.nodes;
      assert Valid() by {
        assert s[list.IndexOf(this)].Valid();
      }
      list.Unlink(this);
      StillValid(list, s, this);
      ReleaseAndPurge(queue);
    }

    /**
     * The second half of the destructor: every component is released, then
     * every event still queued for this object is removed.
     */
    method ReleaseAndPurge(queue: EventQueue)
      requires Valid()
      modifies this`activity, this`components, queue
      ensures components == [] && activity == old(activity) - |old(components)|
      ensures queue.entries == Purge(PurgeAll(old(queue.entries), old(components)), this)
      ensures Count(queue.entries, Inactive, this) == 0
    {
      ReleaseAll(queue);
      queue.RemoveAll(this);
      PurgeIdempotent(PurgeAll(old(queue.entries), old(components)), this);
      PurgeLeavesNone(PurgeAll(old(queue.entries), old(components)), Inactive, this);
    }
  }

  /** Unlinking `n` from a valid list leaves a valid list without `n`. */
  lemma StillValid(list: ObjectList, s: seq<Object>, n: Object)
    requires list.Linked() && list.nodes == Without(s, n)
    requires forall i :: 0 <= i < |s| ==> s[i].Valid()
    ensures list.Valid() && n !in list.nodes
  {
    forall j | 0 <= j < |list.nodes| ensures list.nodes[j] in s && list.nodes[j].Valid() {
      WithoutMembers(s, n, list.nodes[j]);
      assert list.nodes[j] == s[IndexIn(s, list.nodes[j])];
    }
    WithoutMembers(s, n, n);
  }

  ghost function IndexIn<T>(s: seq<T>, x: T): (i: nat)
    requires x in s
    ensures i < |s| && s[i] == x
  {
    var i :| 0 <= i < |s| && s[i] == x; i
  }

  /** The global list `Object::head`, with the sequence of objects it links. */
  class ObjectList {
    var head: Object?
    ghost var nodes: seq<Object>

    /** `head` is the first node, every `prev`/`next` names its neighbour, and no node repeats. */
    ghost predicate Linked()
      reads this, nodes
    {
      (head == if nodes == [] then null else nodes[0]) &&
      (forall i {:trigger nodes[i].prev} :: 0 <= i < |nodes| ==>
         nodes[i].prev == (if i == 0 then null else nodes[i-1])) &&
      (forall i {:trigger nodes[i].next} :: 0 <= i < |nodes| ==>
         nodes[i].next == (if i + 1 < |nodes| then nodes[i+1] else null)) &&
      Distinct(nodes)
    }

    /** The list is linked and every object on it keeps its own invariant. */
    ghost predicate Valid()
      reads this, nodes
    {
      Linked() && forall i :: 0 <= i < |nodes| ==> nodes[i].Valid()
    }

    /** The objects on the list, as a set: what its operations may modify. */
    ghost function Members(): set<Object>
      reads this
    {
      set x | x in nodes
    }

    ghost function IndexOf(n: Object): (i: nat)
      reads this
      requires n in nodes
      ensures i < |nodes| && nodes[i] == n
    {
      var i :| 0 <= i < |nodes| && nodes[i] == n; i
    }

    constructor ()
      ensures Valid() && nodes == [] && head == null
    {
      head := null;
      nodes := [];
    }

    /** Head insertion, as the constructor does it: `prev = NULL`, `next = head`, `head = this`. */
    method Push(n: Object)
      requires Linked() && n !in nodes
      modifies this`head, this`nodes, n`prev, n`next, {head}`prev
      ensures Linked() && nodes == [n] + old(nodes) && head == n && n.prev == null
    {
      ghost var s := nodes;
      n.prev := null;
      n.next := head;
      head := n;
      if n.next != null {
        n.next.prev := n;
      }
      nodes := [n] + s;
      forall j | 0 <= j < |nodes|
        ensures nodes[j].prev == (if j == 0 then null else nodes[j-1])
        ensures nodes[j].next == (if j + 1 < |nodes| then nodes[j+1] else null)
      {
        if j > 0 {
          assert nodes[j] == s[j-1] && s[j-1] != n;
          if j + 1 < |nodes| { assert nodes[j+1] == s[j]; }
          if j > 1 { DistinctAt(s, j - 1, 0); }
        }
      }
      assert nodes[1..] == s;
    }

    /** The link surgery of the destructor: fix `head` or `prev->next`, then `next->prev`. */
    method Splice(n: Object)
      modifies this`head, {n.prev}`next, {n.next}`prev
      ensures head == if old(n.prev) == null then old(n.next) else old(head)
      ensures forall x: Object :: old(allocated(x)) ==> x.prev == if x == old(n.next) then old(n.prev) else old(x.prev)
      ensures forall x: Object :: old(allocated(x)) ==> x.next == if x == old(n.prev) then old(n.next) else old(x.next)
    {
      if n.prev == null {
        head := n.next;
      } else {
        n.prev.next := n.next;
      }
      if n.next != null {
        n.next.prev := n.prev;
      }
    }

    /** Unlinking keeps the list linked and drops exactly `n`. */
    method Unlink(n: Object)
      requires Linked() && n in nodes
      modifies this`head, this`nodes, Members()`prev, Members()`next
      ensures Linked() && nodes == Without(old(nodes), n)
    {
      ghost var i := IndexOf(n);
      ghost var s := nodes;
      ghost var p: Object? := if i == 0 then null else s[i-1];
      ghost var q: Object? := if i + 1 < |s| then s[i+1] else null;
      assert n.prev == p && n.next == q;
      Splice(n);
      WithoutAt(s, i);
      DistinctRemove(s, i);
      nodes := s[..i] + s[i+1..];
      UnlinkKeepsLinked(this, s, i, p, q);
    }

    /** Object::Destroy_All: destroys objects from the head until none is left. */
    method DestroyAll(queue: EventQueue)
      requires Valid()
      modifies this`head, this`nodes, Members()`prev, Members()`next, Members()`activity, Members()`components, queue
      ensures Valid() && nodes == [] && head == null
      ensures forall x :: x in old(nodes) ==> x.components == []
    {
      while head != null
        invariant Valid()
        invariant forall x :: x in nodes ==> x in old(nodes)
        invariant forall x :: x in old(nodes) ==> x in nodes || x.components == []
        decreases |nodes|
      {
        ghost var s := nodes;
        var h := head;
        h.Destroy(this, queue);
        WithoutIncluded(s, h);
        WithoutAt(s, 0);
      }
    }
  }

  /** After Splice, the list without the `i`-th node is linked again. */
  twostate lemma UnlinkKeepsLinked(new l: ObjectList, new s: seq<Object>, new i: nat, new p: Object?, new q: Object?)
    requires old(allocated(l)) && old(allocated(s))
    requires old(l.Linked()) && old(l.nodes) == s && i < |s|
    requires p == (if i == 0 then null else s[i-1]) && q == (if i + 1 < |s| then s[i+1] else null)
    requires forall x: Object :: old(allocated(x)) ==> x.prev == if x == q then p else old(x.prev)
    requires forall x: Object :: old(allocated(x)) ==> x.next == if x == p then q else old(x.next)
    requires l.head == if i == 0 then q else old(l.head)
    requires l.nodes == s[..i] + s[i+1..] && Distinct(l.nodes)
    ensures l.Linked()
  {
    UnlinkKeepsLinkedPrev(l, s, i, p, q);
    UnlinkKeepsLinkedNext(l, s, i, p, q);
  }

  twostate lemma UnlinkKeepsLinkedPrev(new l: ObjectList, new s: seq<Object>, new i: nat, new p: Object?, new q: Object?)
    requires old(allocated(l)) && old(allocated(s))
    requires old(l.Linked()) && old(l.nodes) == s && i < |s|
    requires p == (if i == 0 then null else s[i-1]) && q == (if i + 1 < |s| then s[i+1] else null)
    requires forall x: Object :: old(allocated(x)) ==> x.prev == if x == q then p else old(x.prev)
    requires l.nodes == s[..i] + s[i+1..]
    ensures forall j {:trigger l.nodes[j].prev} :: 0 <= j < |l.nodes| ==>
              l.nodes[j].prev == (if j == 0 then null else l.nodes[j-1])
  {
    forall j | 0 <= j < |s|
      ensures s[j].prev == if j == i + 1 then p else old(s[j].prev)
    {
      if j != i + 1 && q != null { DistinctAt(s, j, i + 1); }
    }
    var t := l.nodes;
    forall j {:trigger t[j].prev} | 0 <= j < |t|
      ensures t[j].prev == (if j == 0 then null else t[j-1])
    {
      if j < i {
        assert t[j] == s[j];
        assert old(s[j].prev) == (if j == 0 then null else s[j-1]);
      } else {
        assert t[j] == s[j+1];
        assert old(s[j+1].prev) == s[j];
        if j > 0 { assert t[j-1] == if j - 1 < i then s[j-1] else s[j]; }
      }
    }
  }

  twostate lemma UnlinkKeepsLinkedNext(new l: ObjectList, new s: seq<Object>, new i: nat, new p: Object?, new q: Object?)
    requires old(allocated(l)) && old(allocated(s))
    requires old(l.Linked()) && old(l.nodes) == s && i < |s|
    requires p == (if i == 0 then null else s[i-1]) && q == (if i + 1 < |s| then s[i+1] else null)
    requires forall x: Object :: old(allocated(x)) ==> x.next == if x == p then q else old(x.next)
    requires l.nodes == s[..i] + s[i+1..]
    ensures forall j {:trigger l.nodes[j].next} :: 0 <= j < |l.nodes| ==>
              l.nodes[j].next == (if j + 1 < |l.nodes| then l.nodes[j+1] else null)
  {
    forall j | 0 <= j < |s|
      ensures s[j].next == if j + 1 == i then q else old(s[j].next)
    {
      if j + 1 != i && p != null { DistinctAt(s, j, i - 1); }
    }
    var t := l.nodes;
    forall j {:trigger t[j].next} | 0 <= j < |t|
      ensures t[j].next == (if j + 1 < |t| then t[j+1] else null)
    {
      if j < i {
        assert t[j] == s[j];
        assert old(s[j].next) == s[j+1];
        if j + 1 < |t| { assert t[j+1] == if j + 1 < i then s[j+1] else s[j+2]; }
      } else {
        assert t[j] == s[j+1];
        assert old(s[j+1].next) == (if j + 2 < |s| then s[j+2] else null);
        if j + 1 < |t| { assert t[j+1] == s[j+2]; }
      }
    }
  }

  lemma PurgeAllStep(s: seq<Event>, cs: seq<object>, k: nat)
    requires k < |cs|
    ensures PurgeAll(s, cs[..k+1]) == Purge(PurgeAll(s, cs[..k]), cs[k])
  {
    PurgeAllSnoc(s, cs[..k], cs[k]);
    assert cs[..k] + [cs[k]] == cs[..k+1];
  }

  lemma {:induction false} PurgeAllSnoc(s: seq<Event>, ts: seq<object>, t: object)
    ensures PurgeAll(s, ts + [t]) == Purge(PurgeAll(s, ts), t)
    decreases ts
  {
    if ts == [] {
      assert [t][1..] == [];
      assert PurgeAll(Purge(s, t), []) == Purge(s, t);
    } else {
      assert (ts + [t])[1..] == ts[1..] + [t];
      PurgeAllSnoc(Purge(s, ts[0]), ts[1..], t);
    }
  }

  lemma {:induction false} PurgeCommute(s: seq<Event>, a: object, b: object)
    ensures Purge(Purge(s, a), b) == Purge(Purge(s, b), a)
  {
    if s != [] {
      PurgeCommute(s[1..], a, b);
      var h := if s[0].target == a then [] else [s[0]];
      var g := if s[0].target == b then [] else [s[0]];
      PurgeAppend(h, Purge(s[1..], a), b);
      PurgeAppend(g, Purge(s[1..], b), a);
      if s[0].target != a { assert [s[0]][1..] == []; }
      if s[0].target != b { assert [s[0]][1..] == []; }
    }
  }

  /** The object-level effect of releasing one component, seen after a final purge of the object. */
  lemma PurgeAfterRelease(s: seq<Event>, c: object, o: object, inactive: bool)
    requires c != o
    ensures Purge(Purge(s, c) + (if inactive then [Event(Inactive, o)] else []), o)
            == Purge(Purge(Purge(s, o), c), o)
  {
    if inactive {
      PurgeDropsOwnEvent(Purge(s, c), Inactive, o);
    } else {
      assert Purge(s, c) + [] == Purge(s, c);
    }
    PurgeCommute(s, o, c);
    PurgeIdempotent(Purge(s, c), o);
  }

  /** One pass of the destructor's loop keeps "purging the object afterwards gives the same events". */
  lemma ReleaseStep(before: seq<Event>, orig: seq<Event>, cs: seq<object>, k: nat, o: object, inactive: bool)
    requires k < |cs| && cs[k] != o
    requires Purge(before, o) == Purge(PurgeAll(orig, cs[..k]), o)
    ensures Purge(Purge(before, cs[k]) + (if inactive then [Event(Inactive, o)] else []), o)
            == Purge(PurgeAll(orig, cs[..k+1]), o)
  {
    var pa := PurgeAll(orig, cs[..k]);
    PurgeAfterRelease(before, cs[k], o, inactive);
    PurgeCommute(Purge(pa, o), cs[k], o);
    PurgeCommute(pa, o, cs[k]);
    PurgeIdempotent(Purge(pa, cs[k]), o);
    PurgeAllStep(orig, cs, k);
  }

  /** A handle to an asset (a Model_Draw or a Model_Mesh) that a Module refers to. */
  datatype AssetHandle = AssetHandle(id: nat)

  /** Module (object.cpp): the hard-coded debug scene description. */
  class Module {
    const name: string
    var box: bool
    var funbox: bool
    var flipper: bool
    var nh4: bool
    var building: bool
    var sphere: bool
    var pillar: bool
    var tetrahedron: bool
    var model: seq<Option<AssetHandle>>
    var geom: seq<Option<AssetHandle>>

    /** Module::Module: every debug flag false, all ten model slots and the one geom slot empty. */
    constructor (name: string)
      ensures this.name == name
      ensures !box && !funbox && !flipper && !nh4 && !building && !sphere && !pillar && !tetrahedron
      ensures |model| == 10 && forall i :: 0 <= i < 10 ==> model[i] == None
      ensures |geom| == 1 && geom[0] == None
    {
      this.name := name;
      box, funbox, flipper, nh4 := false, false, false, false;
      building, sphere, pillar, tetrahedron := false, false, false, false;
      var slots := [];
      for i := 0 to 10
        invariant |slots| == i && forall j :: 0 <= j < i ==> slots[j] == None
      {
        slots := slots + [None];
      }
      model := slots;
      geom := [None];
    }
  }
}
