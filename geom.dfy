/**
 * Geoms (geom.cpp): the simulation's view of an ODE collision shape. A
 * Geom belongs to an Object, sits in the global list `Geom::head`, carries
 * its collision surface (and optionally one per trimesh material), a
 * damage buffer that may be redirected to a Body, and a sensor.
 */
module Geoms {
  import opened Wrappers
  import opened Seqs
  import opened EventBuffers
  import opened DamageBuffer
  import opened Objects
  import opened Bodies
  import opened Contacts
  import opened MeshTypes

  class Geom {
    const owner: Object
    var surface: Surface
    /** Set by the collision callback, cleared by Clear_Collisions. */
    var colliding: bool
    /** `wheel != NULL`: the wheel simulation (outside this model) handles this geom's contacts. */
    var isWheel: bool
    /** Per-triangle collision flags of a trimesh; `triangle_count` is 0 for other shapes. */
    var triangleCount: int
    var triangleColliding: array<bool>
    /** `parent_materials`, shared with the Model_Mesh the trimesh came from. */
    var materials: seq<Material>
    /**
     * Per-material surfaces, allocated on first use by Find_Material_Surface;
     * empty while not allocated.
     */
    var materialSurfaces: seq<Surface>
    var bufferEvent: bool
    var threshold: real
    var buffer: real
    var bufferScript: Option<ScriptRef>
    /** When set, damage goes to this body instead. */
    var forceToBody: Body?
    var sensorEvent: bool
    var sensorLastState: bool
    var sensorTriggeredScript: Option<ScriptRef>
    var sensorUntriggeredScript: Option<ScriptRef>
    var prev: Geom?
    var next: Geom?

    /**
     * The material ends are the ascending boundaries of the mesh, on top of
     * the shape Covered describes.
     */
    ghost predicate Valid()
      reads this`surface, this`triangleCount, this`triangleColliding, this`materials, this`materialSurfaces
    {
      Covered() && Ascending(Ends(materials))
    }

    /**
     * The triangle flags cover every triangle, the last material ends at the
     * triangle count, and the per-material surfaces, once allocated, have one
     * per material: what the collision callback needs to index them.
     */
    ghost predicate Covered()
      reads this`surface, this`triangleCount, this`triangleColliding, this`materials, this`materialSurfaces
    {
      triangleColliding.Length == triangleCount && Indexed(Mesh())
    }

    /** What a contact lookup reads of the geom. */
    function Mesh(): Trimesh
      reads this`surface, this`triangleCount, this`materials, this`materialSurfaces
    {
      Trimesh(surface, triangleCount, materials, materialSurfaces)
    }

    function BufferState(): Buffer
      reads this`bufferEvent, this`threshold, this`buffer
    {
      Buffer(bufferEvent, threshold, buffer)
    }

    /**
     * Geom::Geom: counts itself in the owner's activity, goes on top of the
     * owner's components and at the head of the geom list, with the default
     * surface, no triangles, no materials and every event off.
     */
    constructor (list: GeomList, owner: Object)
      requires list.Linked() && owner.Valid()
      modifies list`head, list`nodes, list.Members()`prev, owner`activity, owner`components
      ensures Valid() && this.owner == owner && surface == DefaultSurface
      ensures !colliding && !isWheel && triangleCount == 0 && materials == [] && materialSurfaces == []
      ensures !bufferEvent && forceToBody == null && !sensorEvent
      ensures owner.activity == old(owner.activity) + 1 && owner.components == [this] + old(owner.components)
      ensures owner.Valid()
      ensures list.Linked() && list.nodes == [this] + old(list.nodes) && list.head == this && prev == null
    {
      this.owner := owner;
      surface := DefaultSurface;
      colliding := false;
      isWheel := false;
      triangleCount := 0;
      triangleColliding := new bool[0];
      materials := [];
      materialSurfaces := [];
      bufferEvent := false;
      threshold, buffer := 0.0, 0.0;
      bufferScript := None;
      forceToBody := null;
      sensorEvent := false;
      sensorLastState := false;
      sensorTriggeredScript, sensorUntriggeredScript := None, None;
      new;
      owner.Attach(this);
      owner.Increase_Activity();
      list.Push(this);
    }

    /**
     * Geom::~Geom: purges the geom's events, leaves the list, and lowers the
     * owner's activity (queuing "inactive" when it reaches zero).
     */
    method Destroy(list: GeomList, queue: EventQueue)
      requires list.Linked() && this in list.nodes && owner.activity > 0
      modifies list`head, list`nodes, list.Members()`prev, list.Members()`next, owner`activity, queue
      ensures list.Linked() && list.nodes == Without(old(list.nodes), this)
      ensures owner.activity == old(owner.activity) - 1
      ensures queue.entries == Purge(old(queue.entries), this) +
                               (if owner.activity == 0 then [Event(Inactive, owner)] else [])
    {
      queue.RemoveAll(this);
      list.Unlink(this);
      owner.Decrease_Activity(queue);
    }

    /**
     * Geom::Find_Material_Surface: the index of the surface of the first
     * material called `name`; `None` for a geom without materials or an
     * unknown name. The first call allocates one surface per material, each
     * a copy of the geom's own surface.
     */
    method Find_Material_Surface(name: string) returns (r: Option<nat>)
      requires Valid()
      modifies this`materialSurfaces
      ensures Valid()
      ensures |materials| == 0 ==> r.None? && materialSurfaces == old(materialSurfaces)
      ensures |materials| > 0 && old(materialSurfaces) == [] ==>
                |materialSurfaces| == |materials| && forall i :: 0 <= i < |materialSurfaces| ==> materialSurfaces[i] == surface
      ensures old(materialSurfaces) != [] ==> materialSurfaces == old(materialSurfaces)
      ensures r.Some? ==> r.value < |materials| && materials[r.value].name == name &&
                          forall j :: 0 <= j < r.value ==> materials[j].name != name
      ensures r.None? ==> forall j :: 0 <= j < |materials| ==> materials[j].name != name
    {
      if |materials| == 0 {
        return None;
      }
      if materialSurfaces == [] {
        var a: seq<Surface> := [];
        for i := 0 to |materials|
          invariant |a| == i && forall j :: 0 <= j < i ==> a[j] == surface
        {
          a := a + [surface];
        }
        materialSurfaces := a;
      }
      var i := 0;
      while i < |materials| && materials[i].name != name
        invariant 0 <= i <= |materials|
        invariant forall j :: 0 <= j < i ==> materials[j].name != name
      {
        i := i + 1;
      }
      if i == |materials| {
        return None;
      }
      return Some(i);
    }

    /** One geom's part of Geom::Clear_Collisions: no collision, no colliding triangle. */
    method ClearOwn()
      requires triangleColliding.Length == triangleCount
      modifies this`colliding, triangleColliding
      ensures Cleared(this)
    {
      colliding := false;
      if triangleCount != 0 {
        for t := 0 to triangleCount
          invariant !colliding
          invariant forall u :: 0 <= u < t ==> !triangleColliding[u]
        {
          triangleColliding[t] := false;
        }
      }
    }

    /**
     * One geom's side of a contact in Geom::Collision_Callback: a contact on
     * a trimesh triangle flags that triangle, and the surface used is the
     * triangle's material surface when those exist, the geom's own surface
     * otherwise.
     */
    method Touch_Triangle(side: int) returns (s: Surface)
      requires Covered() && SideOk(Mesh(), side)
      modifies triangleColliding
      ensures s == SurfaceAt(Mesh(), side)
      ensures triangleColliding[..] == Flag(old(triangleColliding[..]), triangleCount, side)
    {
      s := surface;
      if triangleCount != 0 && side != -1 {
        triangleColliding[side] := true;
        if materialSurfaces != [] {
          var m := 0;
          while m < |materials| && !(side < materials[m].end)
            invariant 0 <= m <= |materials|
            invariant forall j :: 0 <= j < m ==> materials[j].end <= side
          {
            m := m + 1;
          }
          assert m == FindMaterial(Ends(materials), side);
          s := materialSurfaces[m];
        }
      }
    }

    /** Geom::Set_Buffer_Event: both branches purge the geom's pending events. */
    method Set_Buffer_Event(thres: real, buff: real, scr: Option<ScriptRef>, queue: EventQueue)
      modifies this`bufferEvent, this`threshold, this`buffer, this`bufferScript, queue
      ensures BufferState() == Configure(old(BufferState()), thres, buff, scr.Some?)
      ensures bufferScript == if bufferEvent then scr else old(bufferScript)
      ensures queue.entries == Purge(old(queue.entries), this)
    {
      if thres > 0.0 && buff > 0.0 && scr.Some? {
        threshold := thres;
        buffer := buff;
        bufferScript := scr;
        queue.RemoveAll(this);
        bufferEvent := true;
      } else {
        bufferEvent := false;
        queue.RemoveAll(this);
      }
    }

    /** Geom::Set_Buffer_Body */
    method Set_Buffer_Body(b: Body?)
      modifies this`forceToBody
      ensures forceToBody == b
    {
      forceToBody := b;
    }

    /**
     * Geom::Damage_Buffer: with a body to send forces to, the body takes the
     * hit and the geom's own buffer is untouched; otherwise the geom's buffer
     * takes it.
     */
    method Damage_Buffer(force: real, step: real, queue: EventQueue)
      modifies this`buffer, {forceToBody}`buffer, queue
      ensures forceToBody == null ==> BufferState() == Damage(old(BufferState()), force, step)
      ensures forceToBody == null ==>
                queue.entries == old(queue.entries) +
                                 (if Depletes(old(BufferState()), force, step) then [Event(Depleted, this)] else [])
      ensures forceToBody != null ==> BufferState() == old(BufferState())
      ensures forceToBody != null ==>
                forceToBody.BufferState() == Damage(old(forceToBody.BufferState()), force, step)
      ensures forceToBody != null ==>
                queue.entries == old(queue.entries) +
                                 (if Depletes(old(forceToBody.BufferState()), force, step)
                                  then [Event(Depleted, forceToBody)] else [])
    {
      if forceToBody != null {
        forceToBody.Damage_Buffer(force, step, queue);
        return;
      }
      if !bufferEvent || force < threshold {
        return;
      }
      if buffer > 0.0 {
        buffer := buffer - force * step;
        if buffer < 0.0 {
          queue.AddDepleted(this);
        }
      } else {
        buffer := buffer - force * step;
      }
    }

    /** Geom::Increase_Buffer: adds capacity and re-queues "depleted" while still below zero. */
    method Increase_Buffer(buff: real, queue: EventQueue)
      modifies this`buffer, queue
      ensures BufferState() == Increase(old(BufferState()), buff)
      ensures queue.entries == old(queue.entries) +
                               (if IncreaseDepletes(old(BufferState()), buff) then [Event(Depleted, this)] else [])
    {
      buffer := buffer + buff;
      if buffer < 0.0 {
        queue.AddDepleted(this);
      }
    }

    /** Geom::Set_Sensor_Event: enabled iff either script is given; enabling forgets the last state. */
    method Set_Sensor_Event(s1: Option<ScriptRef>, s2: Option<ScriptRef>)
      modifies this`sensorEvent, this`sensorLastState, this`sensorTriggeredScript, this`sensorUntriggeredScript
      ensures sensorEvent <==> s1.Some? || s2.Some?
      ensures sensorEvent ==> !sensorLastState && sensorTriggeredScript == s1 && sensorUntriggeredScript == s2
      ensures !sensorEvent ==> sensorLastState == old(sensorLastState) &&
                               sensorTriggeredScript == old(sensorTriggeredScript) &&
                               sensorUntriggeredScript == old(sensorUntriggeredScript)
    {
      if s1.Some? || s2.Some? {
        sensorTriggeredScript := s1;
        sensorUntriggeredScript := s2;
        sensorLastState := false;
        sensorEvent := true;
      } else {
        sensorEvent := false;
      }
    }
  }

  /** Neither the geom nor any of its triangles is colliding. */
  ghost predicate Cleared(g: Geom)
    reads g`colliding, g`triangleColliding, g.triangleColliding
  {
    !g.colliding && forall t :: 0 <= t < g.triangleColliding.Length ==> !g.triangleColliding[t]
  }

  /** A sensor-enabled geom whose collision state differs from the last one it reported. */
  predicate Flips(g: Geom)
    reads g`sensorEvent, g`colliding, g`sensorLastState
  {
    g.sensorEvent && g.colliding != g.sensorLastState
  }

  /** The "triggered" events Geom::Physics_Step queues for these geoms, in list order. */
  ghost function SensorEvents(gs: seq<Geom>): (r: seq<Event>)
    reads set g | g in gs
    ensures |r| <= |gs|
    decreases |gs|
  {
    if gs == [] then []
    else SensorEvents(gs[..|gs| - 1]) +
         (if Flips(gs[|gs| - 1]) then [Event(Triggered, gs[|gs| - 1])] else [])
  }

  /** Exactly the flipping sensors get an event. */
  lemma {:induction false} SensorEventsMembers(gs: seq<Geom>, e: Event)
    ensures e in SensorEvents(gs) <==>
            e.kind == Triggered && exists i :: 0 <= i < |gs| && gs[i] == e.target && Flips(gs[i])
    decreases |gs|
  {
    if gs != [] {
      var init := gs[..|gs| - 1];
      SensorEventsMembers(init, e);
      if e.kind == Triggered && e.target == gs[|gs| - 1] && Flips(gs[|gs| - 1]) {
        assert e == Event(Triggered, gs[|gs| - 1]);
      }
      if exists i :: 0 <= i < |gs| && gs[i] == e.target && Flips(gs[i]) {
        var i :| 0 <= i < |gs| && gs[i] == e.target && Flips(gs[i]);
        if i < |gs| - 1 {
          assert init[i] == gs[i];
        }
      }
      if exists i :: 0 <= i < |init| && init[i] == e.target && Flips(init[i]) {
        var i :| 0 <= i < |init| && init[i] == e.target && Flips(init[i]);
        assert gs[i] == init[i];
      }
    }
  }

  /** When no sensor flips, the step queues nothing. */
  lemma {:induction false} NoFlipNoEvents(gs: seq<Geom>)
    requires forall i :: 0 <= i < |gs| ==> !Flips(gs[i])
    ensures SensorEvents(gs) == []
    decreases |gs|
  {
    if gs != [] {
      NoFlipNoEvents(gs[..|gs| - 1]);
    }
  }

  /**
   * A geom's collision shape as a contact lookup sees it: its own surface,
   * the trimesh triangle count (0 for other shapes), the material ranges and
   * the per-material surfaces (empty while not allocated).
   */
  datatype Trimesh = Trimesh(surface: Surface, triangleCount: int, materials: seq<Material>,
                             materialSurfaces: seq<Surface>)

  /**
   * The last material ends at the triangle count, and the per-material
   * surfaces, once allocated, have one per material: what the collision
   * callback needs to index them.
   */
  predicate Indexed(m: Trimesh)
  {
    (|m.materials| > 0 ==> m.materials[|m.materials| - 1].end == m.triangleCount) &&
    (m.materialSurfaces == [] || |m.materialSurfaces| == |m.materials|)
  }

  /**
   * The surface a contact on triangle `side` uses: the per-material surface
   * of the triangle's material when those are enabled and the geom is a
   * trimesh, the geom's own surface otherwise.
   */
  function SurfaceAt(m: Trimesh, side: int): (r: Surface)
    requires Indexed(m) && SideOk(m, side)
    ensures r == m.surface || r in m.materialSurfaces
    ensures SurfacesOk(m) ==> SurfaceOk(r)
  {
    if m.triangleCount != 0 && side != -1 && m.materialSurfaces != [] then
      m.materialSurfaces[FindMaterial(Ends(m.materials), side)]
    else m.surface
  }

  /** The triangle flags after a contact on triangle `side` of a mesh of `count` triangles. */
  function Flag(flags: seq<bool>, count: int, side: int): (r: seq<bool>)
    ensures |r| == |flags| && forall t :: 0 <= t < |flags| ==> r[t] == (flags[t] || (count != 0 && t == side))
  {
    if count != 0 && 0 <= side < |flags| then flags[side := true] else flags
  }

  /** ODE reports a trimesh contact on an existing triangle, or -1 for none. */
  predicate SideOk(m: Trimesh, side: int)
  {
    m.triangleCount != 0 && side != -1 ==> 0 <= side < m.triangleCount
  }

  /** The geom's surface and every per-material surface have non-negative spring and damping. */
  predicate SurfacesOk(m: Trimesh)
  {
    SurfaceOk(m.surface) &&
    forall i :: 0 <= i < |m.materialSurfaces| ==> SurfaceOk(m.materialSurfaces[i])
  }

  /** The global list `Geom::head`, with the sequence of geoms it links. */
  class GeomList {
    var head: Geom?
    ghost var nodes: seq<Geom>

    ghost function Members(): set<Geom>
      reads this
    {
      set x | x in nodes
    }

    /** `head` is the first node, every `prev`/`next` names its neighbour, and no node repeats. */
    ghost predicate Linked()
      reads this, Members()`prev, Members()`next
    {
      (head == if nodes == [] then null else nodes[0]) &&
      (forall i {:trigger nodes[i].prev} :: 0 <= i < |nodes| ==>
         nodes[i].prev == (if i == 0 then null else nodes[i-1])) &&
      (forall i {:trigger nodes[i].next} :: 0 <= i < |nodes| ==>
         nodes[i].next == (if i + 1 < |nodes| then nodes[i+1] else null)) &&
      Distinct(nodes)
    }

    ghost function IndexOf(n: Geom): (i: nat)
      reads this
      requires n in nodes
      ensures i < |nodes| && nodes[i] == n
    {
      var i :| 0 <= i < |nodes| && nodes[i] == n; i
    }

    constructor ()
      ensures Linked() && nodes == [] && head == null
    {
      head := null;
      nodes := [];
    }

    /** Head insertion, as the constructor does it: `next = head`, `head = this`, `prev = NULL`. */
    method Push(n: Geom)
      requires Linked() && n !in nodes
      modifies this`head, this`nodes, n`prev, n`next, {head}`prev
      ensures Linked() && nodes == [n] + old(nodes) && head == n && n.prev == null
    {
      ghost var s := nodes;
      n.next := head;
      head := n;
      n.prev := null;
      if n.next != null {
        n.next.prev := n;
      }
      nodes := [n] + s;
      forall j | 0 <= j < |nodes|
        ensures nodes[j].prev == (if j == 0 then null else nodes[j-1])
        ensures nodes[j].next == (if j + 1 < |nodes| then nodes[j+1] else null)
      {
        if j > 0 {
          assert nodes[j] == s[j-1] && s[j-1] != n;
          if j + 1 < |nodes| { assert nodes[j+1] == s[j]; }
          if j > 1 { DistinctAt(s, j - 1, 0); }
        }
      }
      assert nodes[1..] == s;
    }

    /** The link surgery of the destructor: fix `head` or `prev->next`, then `next->prev`. */
    method Splice(n: Geom)
      modifies this`head, {n.prev}`next, {n.next}`prev
      ensures head == if old(n.prev) == null then old(n.next) else old(head)
      ensures forall x: Geom :: old(allocated(x)) ==> x.prev == if x == old(n.next) then old(n.prev) else old(x.prev)
      ensures forall x: Geom :: old(allocated(x)) ==> x.next == if x == old(n.prev) then old(n.next) else old(x.next)
    {
      if n.prev == null {
        head := n.next;
      } else {
        n.prev.next := n.next;
      }
      if n.next != null {
        n.next.prev := n.prev;
      }
    }

    /** Unlinking keeps the list linked and drops exactly `n`. */
    method Unlink(n: Geom)
      requires Linked() && n in nodes
      modifies this`head, this`nodes, Members()`prev, Members()`next
      ensures Linked() && nodes == Without(old(nodes), n)
    {
      ghost var i := IndexOf(n);
      ghost var s := nodes;
      ghost var p: Geom? := if i == 0 then null else s[i-1];
      ghost var q: Geom? := if i + 1 < |s| then s[i+1] else null;
      assert n.prev == p && n.next == q;
      Splice(n);
      WithoutAt(s, i);
      DistinctRemove(s, i);
      nodes := s[..i] + s[i+1..];
      GeomUnlinkKeepsLinked(this, s, i, p, q);
    }

    /** Geom::Clear_Collisions: afterwards no geom and no triangle is colliding. */
    method Clear_Collisions()
      requires Linked() && forall i :: 0 <= i < |nodes| ==> nodes[i].triangleColliding.Length == nodes[i].triangleCount
      modifies Members()`colliding, set g | g in nodes :: g.triangleColliding
      ensures forall i :: 0 <= i < |nodes| ==> Cleared(nodes[i])
    {
      var geom := head;
      ghost var k := 0;
      while geom != null
        invariant 0 <= k <= |nodes| && geom == (if k < |nodes| then nodes[k] else null)
        invariant Linked()
        invariant forall i :: 0 <= i < |nodes| ==>
                    nodes[i].triangleColliding.Length == nodes[i].triangleCount
        invariant forall i :: 0 <= i < k ==> Cleared(nodes[i])
        decreases |nodes| - k
      {
        DistinctAfter(nodes, k);
        geom.ClearOwn();
        geom := geom.next;
        k := k + 1;
      }
    }

    /**
     * Geom::Physics_Step: every sensor whose collision state changed queues
     * one "triggered" event, in list order, and records the new state; a
     * second step right after queues nothing.
     */
    method Physics_Step(queue: EventQueue)
      requires Linked()
      modifies Members()`sensorLastState, queue
      ensures queue.entries == old(queue.entries) + old(SensorEvents(nodes))
      ensures forall i :: 0 <= i < |nodes| ==>
                nodes[i].sensorLastState == if nodes[i].sensorEvent then nodes[i].colliding else old(nodes[i].sensorLastState)
      ensures SensorEvents(nodes) == []
    {
      var geom := head;
      ghost var k := 0;
      while geom != null
        invariant 0 <= k <= |nodes| && geom == (if k < |nodes| then nodes[k] else null)
        invariant Linked()
        invariant queue.entries == old(queue.entries) + old(SensorEvents(nodes[..k]))
        invariant forall i :: 0 <= i < k ==>
                    nodes[i].sensorLastState == if nodes[i].sensorEvent then nodes[i].colliding else old(nodes[i].sensorLastState)
        invariant forall i :: k <= i < |nodes| ==> nodes[i].sensorLastState == old(nodes[i].sensorLastState)
        decreases |nodes| - k
      {
        assert nodes[..k + 1][..k] == nodes[..k];
        DistinctAfter(nodes, k);
        if geom.sensorEvent {
          if geom.colliding != geom.sensorLastState {
            geom.sensorLastState := geom.colliding;
            queue.AddTriggered(geom);
          }
        }
        geom := geom.next;
        k := k + 1;
      }
      assert nodes[..k] == nodes;
      NoFlipNoEvents(nodes);
    }
  }

  /** After Splice, the list without the `i`-th node is linked again. */
  twostate lemma GeomUnlinkKeepsLinked(new l: GeomList, new s: seq<Geom>, new i: nat, new p: Geom?, new q: Geom?)
    requires old(allocated(l)) && old(allocated(s))
    requires old(l.Linked()) && old(l.nodes) == s && i < |s|
    requires p == (if i == 0 then null else s[i-1]) && q == (if i + 1 < |s| then s[i+1] else null)
    requires forall x: Geom :: old(allocated(x)) ==> x.prev == if x == q then p else old(x.prev)
    requires forall x: Geom :: old(allocated(x)) ==> x.next == if x == p then q else old(x.next)
    requires l.head == if i == 0 then q else old(l.head)
    requires l.nodes == s[..i] + s[i+1..] && Distinct(l.nodes)
    ensures l.Linked()
  {
    GeomUnlinkKeepsLinkedPrev(l, s, i, p, q);
    GeomUnlinkKeepsLinkedNext(l, s, i, p, q);
  }

  twostate lemma GeomUnlinkKeepsLinkedPrev(new l: GeomList, new s: seq<Geom>, new i: nat, new p: Geom?, new q: Geom?)
    requires old(allocated(l)) && old(allocated(s))
    requires old(l.Linked()) && old(l.nodes) == s && i < |s|
    requires p == (if i == 0 then null else s[i-1]) && q == (if i + 1 < |s| then s[i+1] else null)
    requires forall x: Geom :: old(allocated(x)) ==> x.prev == if x == q then p else old(x.prev)
    requires l.nodes == s[..i] + s[i+1..]
    ensures forall j {:trigger l.nodes[j].prev} :: 0 <= j < |l.nodes| ==>
              l.nodes[j].prev == (if j == 0 then null else l.nodes[j-1])
  {
    forall j | 0 <= j < |s|
      ensures s[j].prev == if j == i + 1 then p else old(s[j].prev)
    {
      if j != i + 1 && q != null { DistinctAt(s, j, i + 1); }
    }
    var t := l.nodes;
    forall j {:trigger t[j].prev} | 0 <= j < |t|
      ensures t[j].prev == (if j == 0 then null else t[j-1])
    {
      if j < i {
        assert t[j] == s[j];
        assert old(s[j].prev) == (if j == 0 then null else s[j-1]);
      } else {
        assert t[j] == s[j+1];
        assert old(s[j+1].prev) == s[j];
        if j > 0 { assert t[j-1] == if j - 1 < i then s[j-1] else s[j]; }
      }
    }
  }

  twostate lemma GeomUnlinkKeepsLinkedNext(new l: GeomList, new s: seq<Geom>, new i: nat, new p: Geom?, new q: Geom?)
    requires old(allocated(l)) && old(allocated(s))
    requires old(l.Linked()) && old(l.nodes) == s && i < |s|
    requires p == (if i == 0 then null else s[i-1]) && q == (if i + 1 < |s| then s[i+1] else null)
    requires forall x: Geom :: old(allocated(x)) ==> x.next == if x == p then q else old(x.next)
    requires l.nodes == s[..i] + s[i+1..]
    ensures forall j {:trigger l.nodes[j].next} :: 0 <= j < |l.nodes| ==>
              l.nodes[j].next == (if j + 1 < |l.nodes| then l.nodes[j+1] else null)
  {
    forall j | 0 <= j < |s|
      ensures s[j].next == if j + 1 == i then q else old(s[j].next)
    {
      if j + 1 != i && p != null { DistinctAt(s, j, i - 1); }
    }
    var t := l.nodes;
    forall j {:trigger t[j].next} | 0 <= j < |t|
      ensures t[j].next == (if j + 1 < |t| then t[j+1] else null)
    {
      if j < i {
        assert t[j] == s[j];
        assert old(s[j].next) == s[j+1];
        if j + 1 < |t| { assert t[j+1] == if j + 1 < i then s[j+1] else s[j+2]; }
      } else {
        assert t[j] == s[j+1];
        assert old(s[j+1].next) == (if j + 2 < |s| then s[j+2] else null);
        if j + 1 < |t| { assert t[j+1] == s[j+2]; }
      }
    }
  }
}
