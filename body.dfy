/**
 * Bodies (body.cpp): the simulation's view of an ODE rigid body. A Body
 * belongs to an Object, sits in the global intrusive list `Body::head`,
 * carries its air/liquid drag coefficients and a damage buffer.
 */
module Bodies {
  import opened Wrappers
  import opened Seqs
  import opened Vectors
  import opened EventBuffers
  import opened DamageBuffer
  import opened Objects

  /** A handle to a Lua script, run by the event processing outside this model. */
  datatype ScriptRef = ScriptRef(id: nat)

  /** The denominator of the drag formula is not zero, so the step is defined. */
  predicate DragDefined(speed: real, density: real, drag: real, mass: real, step: real)
  {
    mass != 0.0 && 1.0 + speed * density * (drag / mass) * step != 0.0
  }

  /** How much of the relative velocity is left after one step of drag. */
  function DragScale(speed: real, density: real, drag: real, mass: real, step: real): (r: real)
    requires DragDefined(speed, density, drag, mass, step)
    ensures r * (1.0 + speed * density * (drag / mass) * step) == 1.0
  {
    1.0 / (1.0 + speed * density * (drag / mass) * step)
  }

  /**
   * With a non-negative speed, density, drag and step and a positive mass,
   * drag only slows: the scale is in (0,1], and exactly 1 when any factor is 0.
   */
  lemma DragScaleBounds(speed: real, density: real, drag: real, mass: real, step: real)
    requires speed >= 0.0 && density >= 0.0 && drag >= 0.0 && mass > 0.0 && step >= 0.0
    ensures DragDefined(speed, density, drag, mass, step)
    ensures 0.0 < DragScale(speed, density, drag, mass, step) <= 1.0
    ensures speed * density * drag * step == 0.0 ==> DragScale(speed, density, drag, mass, step) == 1.0
  {
    var d := 1.0 + speed * density * (drag / mass) * step;
    assert drag / mass >= 0.0;
    assert speed * density >= 0.0;
    assert speed * density * (drag / mass) >= 0.0;
    assert d >= 1.0;
    var r := DragScale(speed, density, drag, mass, step);
    assert r * d == 1.0;
    if speed * density * drag * step == 0.0 {
      assert speed == 0.0 || density == 0.0 || drag == 0.0 || step == 0.0;
    }
  }

  /** Linear_Drag: the new absolute velocity for a wind-relative velocity scaled by drag (see LinearDragBrakes). */
  function LinearDragResult(vel: Vec3, wind: Vec3, density: real, drag: real, mass: real, step: real,
                            norm: Vec3 -> real): Vec3
    requires DragDefined(norm(Sub(vel, wind)), density, drag, mass, step)
  {
    var rel := Sub(vel, wind);
    Add(Scale(rel, DragScale(norm(rel), density, drag, mass, step)), wind)
  }

  /** Angular_Drag: the same braking, without wind (see AngularDragBrakes). */
  function AngularDragResult(vel: Vec3, density: real, drag: real, mass: real, step: real,
                             norm: Vec3 -> real): Vec3
    requires DragDefined(norm(vel), density, drag, mass, step)
  {
    Scale(vel, DragScale(norm(vel), density, drag, mass, step))
  }

  /** `u` points the same way as `v` and is no longer: a component braked towards zero. */
  predicate Braked(u: real, v: real)
  {
    (0.0 <= u <= v) || (v <= u <= 0.0)
  }

  /** Every component of `u` is braked relative to the same component of `v`. */
  predicate BrakedVec(u: Vec3, v: Vec3)
  {
    Braked(u.x, v.x) && Braked(u.y, v.y) && Braked(u.z, v.z)
  }

  lemma ScaleBrakes(v: Vec3, k: real)
    requires 0.0 < k <= 1.0
    ensures BrakedVec(Scale(v, k), v)
  {
    assert v.x * k - v.x == v.x * (k - 1.0);
    assert v.y * k - v.y == v.y * (k - 1.0);
    assert v.z * k - v.z == v.z * (k - 1.0);
  }

  /**
   * Linear drag only brakes: with a non-negative density, drag and step and a
   * positive mass, every component of the velocity relative to the wind keeps
   * its sign and does not grow, and without density, drag or step (or when
   * already moving with the wind) the velocity is left exactly as it was.
   */
  lemma LinearDragBrakes(vel: Vec3, wind: Vec3, density: real, drag: real, mass: real, step: real,
                         norm: Vec3 -> real)
    requires norm(Sub(vel, wind)) >= 0.0 && density >= 0.0 && drag >= 0.0 && mass > 0.0 && step >= 0.0
    ensures DragDefined(norm(Sub(vel, wind)), density, drag, mass, step)
    ensures BrakedVec(Sub(LinearDragResult(vel, wind, density, drag, mass, step, norm), wind), Sub(vel, wind))
    ensures norm(Sub(vel, wind)) * density * drag * step == 0.0 ==>
            LinearDragResult(vel, wind, density, drag, mass, step, norm) == vel
  {
    var rel := Sub(vel, wind);
    DragScaleBounds(norm(rel), density, drag, mass, step);
    var k := DragScale(norm(rel), density, drag, mass, step);
    ScaleBrakes(rel, k);
    if norm(rel) * density * drag * step == 0.0 {
      assert Scale(rel, k) == rel;
    }
  }

  /** Angular drag only brakes, in the same sense, and does nothing without density, drag, step or spin. */
  lemma AngularDragBrakes(vel: Vec3, density: real, drag: real, mass: real, step: real, norm: Vec3 -> real)
    requires norm(vel) >= 0.0 && density >= 0.0 && drag >= 0.0 && mass > 0.0 && step >= 0.0
    ensures DragDefined(norm(vel), density, drag, mass, step)
    ensures BrakedVec(AngularDragResult(vel, density, drag, mass, step, norm), vel)
    ensures norm(vel) * density * drag * step == 0.0 ==> AngularDragResult(vel, density, drag, mass, step, norm) == vel
  {
    DragScaleBounds(norm(vel), density, drag, mass, step);
    ScaleBrakes(vel, DragScale(norm(vel), density, drag, mass, step));
  }

  /**
   * The foreign parts of the drag step, as parameters: the vector length
   * (a square root) and the per-axis variants, which rotate the velocity into
   * the body's frame. `axisLinear` and `axisAngular` take the velocity, the
   * three coefficients, the mass and the step.
   */
  datatype Medium = Medium(wind: Vec3, density: real, norm: Vec3 -> real,
                           axisLinear: (Vec3, seq<real>, real, real) -> Vec3,
                           axisAngular: (Vec3, seq<real>, real, real) -> Vec3)

  class Body {
    const owner: Object
    /** Written by Update_Mass from the ODE body. */
    var mass: real
    const linearDrag: array<real>
    const angularDrag: array<real>
    var useAxisLinearDrag: bool
    var useAxisAngularDrag: bool
    /** The ODE body's velocities, read and written through dBodyGet/SetLinearVel and ...AngularVel. */
    var linearVel: Vec3
    var angularVel: Vec3
    var bufferEvent: bool
    var threshold: real
    var buffer: real
    var bufferScript: Option<ScriptRef>
    var prev: Body?
    var next: Body?

    ghost predicate Valid()
    {
      linearDrag.Length == 3 && angularDrag.Length == 3 && linearDrag != angularDrag
    }

    /** The damage buffer, as the shared specification sees it. */
    function BufferState(): Buffer
      reads this`bufferEvent, this`threshold, this`buffer
    {
      Buffer(bufferEvent, threshold, buffer)
    }

    /**
     * Body::Body: counts itself in the owner's activity, goes on top of the
     * owner's components and at the head of the body list, takes the ODE
     * body's mass and the default drag, with buffer events off.
     */
    constructor (list: BodyList, owner: Object, mass: real, linearDrag: real, angularDrag: real, vel: Vec3, rot: Vec3)
      requires list.Linked() && owner.Valid()
      modifies list`head, list`nodes, list.Members()`prev, owner`activity, owner`components
      ensures Valid() && this.owner == owner && this.mass == mass
      ensures this.linearDrag[0] == linearDrag && !useAxisLinearDrag
      ensures this.angularDrag[0] == angularDrag && !useAxisAngularDrag
      ensures linearVel == vel && angularVel == rot && !bufferEvent
      ensures owner.activity == old(owner.activity) + 1 && owner.components == [this] + old(owner.components)
      ensures owner.Valid()
      ensures list.Linked() && list.nodes == [this] + old(list.nodes) && list.head == this && prev == null
    {
      this.owner := owner;
      this.mass := mass;
      this.linearDrag := new real[3];
      this.angularDrag := new real[3];
      linearVel, angularVel := vel, rot;
      bufferEvent := false;
      threshold, buffer := 0.0, 0.0;
      bufferScript := None;
      new;
      Set_Linear_Drag(linearDrag);
      Set_Angular_Drag(angularDrag);
      owner.Attach(this);
      owner.Increase_Activity();
      list.Push(this);
    }

    /** Body::Set_Linear_Drag: one coefficient for all directions. */
    method Set_Linear_Drag(drag: real)
      requires Valid()
      modifies linearDrag, this`useAxisLinearDrag
      ensures linearDrag[0] == drag && linearDrag[1..] == old(linearDrag[1..]) && !useAxisLinearDrag
    {
      linearDrag[0] := drag;
      useAxisLinearDrag := false;
    }

    /** Body::Set_Axis_Linear_Drag: one coefficient per body axis. */
    method Set_Axis_Linear_Drag(x: real, y: real, z: real)
      requires Valid()
      modifies linearDrag, this`useAxisLinearDrag
      ensures linearDrag[..] == [x, y, z] && useAxisLinearDrag
    {
      linearDrag[0], linearDrag[1], linearDrag[2] := x, y, z;
      useAxisLinearDrag := true;
    }

    /** Body::Set_Angular_Drag */
    method Set_Angular_Drag(drag: real)
      requires Valid()
      modifies angularDrag, this`useAxisAngularDrag
      ensures angularDrag[0] == drag && angularDrag[1..] == old(angularDrag[1..]) && !useAxisAngularDrag
    {
      angularDrag[0] := drag;
      useAxisAngularDrag := false;
    }

    /** Body::Set_Axis_Angular_Drag */
    method Set_Axis_Angular_Drag(x: real, y: real, z: real)
      requires Valid()
      modifies angularDrag, this`useAxisAngularDrag
      ensures angularDrag[..] == [x, y, z] && useAxisAngularDrag
    {
      angularDrag[0], angularDrag[1], angularDrag[2] := x, y, z;
      useAxisAngularDrag := true;
    }

    /** Body::Linear_Drag: brake the wind-relative velocity by the isotropic coefficient. */
    method Linear_Drag(m: Medium, step: real)
      requires Valid() && DragDefined(m.norm(Sub(linearVel, m.wind)), m.density, linearDrag[0], mass, step)
      modifies this`linearVel
      ensures linearVel == LinearDragResult(old(linearVel), m.wind, m.density, linearDrag[0], mass, step, m.norm)
    {
      var vel := Sub(linearVel, m.wind);
      var total := m.norm(vel);
      var scale := DragScale(total, m.density, linearDrag[0], mass, step);
      vel := Vec3(vel.x * scale, vel.y * scale, vel.z * scale);
      vel := Vec3(vel.x + m.wind.x, vel.y + m.wind.y, vel.z + m.wind.z);
      linearVel := vel;
    }

    /** Body::Angular_Drag */
    method Angular_Drag(m: Medium, step: real)
      requires Valid() && DragDefined(m.norm(angularVel), m.density, angularDrag[0], mass, step)
      modifies this`angularVel
      ensures angularVel == AngularDragResult(old(angularVel), m.density, angularDrag[0], mass, step, m.norm)
    {
      var vel := angularVel;
      var total := m.norm(vel);
      var scale := DragScale(total, m.density, angularDrag[0], mass, step);
      angularVel := Vec3(vel.x * scale, vel.y * scale, vel.z * scale);
    }

    /** One body's turn in Body::Physics_Step. */
    method Drag(m: Medium, step: real)
      requires DragOk(this, linearVel, angularVel, m, step)
      modifies this`linearVel, this`angularVel
      ensures Dragged(this, old(linearVel), old(angularVel), m, step)
    {
      if useAxisLinearDrag {
        linearVel := m.axisLinear(linearVel, linearDrag[..], mass, step);
      } else {
        Linear_Drag(m, step);
      }
      if useAxisAngularDrag {
        angularVel := m.axisAngular(angularVel, angularDrag[..], mass, step);
      } else {
        Angular_Drag(m, step);
      }
    }

    /** Body::Set_Buffer_Event: both branches purge the body's pending events. */
    method Set_Buffer_Event(thres: real, buff: real, scr: Option<ScriptRef>, queue: EventQueue)
      modifies this`bufferEvent, this`threshold, this`buffer, this`bufferScript, queue
      ensures BufferState() == Configure(old(BufferState()), thres, buff, scr.Some?)
      ensures bufferScript == if bufferEvent then scr else old(bufferScript)
      ensures queue.entries == Purge(old(queue.entries), this)
    {
      if thres > 0.0 && buff > 0.0 && scr.Some? {
        threshold := thres;
        buffer := buff;
        bufferScript := scr;
        queue.RemoveAll(this);
        bufferEvent := true;
      } else {
        queue.RemoveAll(this);
        bufferEvent := false;
      }
    }

    /** Body::Damage_Buffer */
    method Damage_Buffer(force: real, step: real, queue: EventQueue)
      modifies this`buffer, queue
      ensures BufferState() == Damage(old(BufferState()), force, step)
      ensures queue.entries == old(queue.entries) +
                               (if Depletes(old(BufferState()), force, step) then [Event(Depleted, this)] else [])
    {
      if !bufferEvent || force < threshold {
        return;
      }
      if buffer > 0.0 {
        buffer := buffer - force * step;
        if buffer < 0.0 {
          queue.AddDepleted(this);
        }
      } else {
        buffer := buffer - force * step;
      }
    }

    /**
     * Body::~Body: purges the body's events, leaves the list, and lowers the
     * owner's activity (queuing "inactive" when it reaches zero).
     */
    method Destroy(list: BodyList, queue: EventQueue)
      requires list.Linked() && this in list.nodes && owner.activity > 0
      modifies list`head, list`nodes, list.Members()`prev, list.Members()`next, owner`activity, queue
      ensures list.Linked() && list.nodes == Without(old(list.nodes), this)
      ensures owner.activity == old(owner.activity) - 1
      ensures queue.entries == Purge(old(queue.entries), this) +
                               (if owner.activity == 0 then [Event(Inactive, owner)] else [])
    {
      queue.RemoveAll(this);
      list.Unlink(this);
      owner.Decrease_Activity(queue);
    }
  }

  /**
   * Whether the drag formulas are defined for body `b` moving with `lin` and
   * spinning with `ang` in medium `m` during `step`. Reads only settings that
   * the physics step leaves alone.
   */
  ghost predicate DragOk(b: Body, lin: Vec3, ang: Vec3, m: Medium, step: real)
    reads b`useAxisLinearDrag, b`useAxisAngularDrag, b`mass, b.linearDrag, b.angularDrag
  {
    b.Valid() &&
    (b.useAxisLinearDrag || DragDefined(m.norm(Sub(lin, m.wind)), m.density, b.linearDrag[0], b.mass, step)) &&
    (b.useAxisAngularDrag || DragDefined(m.norm(ang), m.density, b.angularDrag[0], b.mass, step))
  }

  /**
   * `b` moved with `lin` and spun with `ang` before one drag step and has the
   * velocities the step gives now: per-axis drag (a rotation into the body
   * frame, outside this model) when its flag is set, isotropic drag otherwise,
   * the linear and angular parts chosen independently.
   */
  ghost predicate Dragged(b: Body, lin: Vec3, ang: Vec3, m: Medium, step: real)
    reads b`useAxisLinearDrag, b`useAxisAngularDrag, b`mass, b.linearDrag, b.angularDrag, b`linearVel, b`angularVel
  {
    DragOk(b, lin, ang, m, step) &&
    b.linearVel == (if b.useAxisLinearDrag then m.axisLinear(lin, b.linearDrag[..], b.mass, step)
                    else LinearDragResult(lin, m.wind, m.density, b.linearDrag[0], b.mass, step, m.norm)) &&
    b.angularVel == (if b.useAxisAngularDrag then m.axisAngular(ang, b.angularDrag[..], b.mass, step)
                     else AngularDragResult(ang, m.density, b.angularDrag[0], b.mass, step, m.norm))
  }

  /** The global list `Body::head`, with the sequence of bodies it links. */
  class BodyList {
    var head: Body?
    ghost var nodes: seq<Body>

    ghost function Members(): set<Body>
      reads this
    {
      set x | x in nodes
    }

    /** `head` is the first node, every `prev`/`next` names its neighbour, and no node repeats. */
    ghost predicate Linked()
      reads this, Members()`prev, Members()`next
    {
      (head == if nodes == [] then null else nodes[0]) &&
      (forall i {:trigger nodes[i].prev} :: 0 <= i < |nodes| ==>
         nodes[i].prev == (if i == 0 then null else nodes[i-1])) &&
      (forall i {:trigger nodes[i].next} :: 0 <= i < |nodes| ==>
         nodes[i].next == (if i + 1 < |nodes| then nodes[i+1] else null)) &&
      Distinct(nodes)
    }

    ghost function IndexOf(n: Body): (i: nat)
      reads this
      requires n in nodes
      ensures i < |nodes| && nodes[i] == n
    {
      var i :| 0 <= i < |nodes| && nodes[i] == n; i
    }

    constructor ()
      ensures Linked() && nodes == [] && head == null
    {
      head := null;
      nodes := [];
    }

    /** Head insertion, as the constructor does it: `next = head`, `head = this`, `prev = NULL`. */
    method Push(n: Body)
      requires Linked() && n !in nodes
      modifies this`head, this`nodes, n`prev, n`next, {head}`prev
      ensures Linked() && nodes == [n] + old(nodes) && head == n && n.prev == null
    {
      ghost var s := nodes;
      n.next := head;
      head := n;
      n.prev := null;
      if n.next != null {
        n.next.prev := n;
      }
      nodes := [n] + s;
      forall j | 0 <= j < |nodes|
        ensures nodes[j].prev == (if j == 0 then null else nodes[j-1])
        ensures nodes[j].next == (if j + 1 < |nodes| then nodes[j+1] else null)
      {
        if j > 0 {
          assert nodes[j] == s[j-1] && s[j-1] != n;
          if j + 1 < |nodes| { assert nodes[j+1] == s[j]; }
          if j > 1 { DistinctAt(s, j - 1, 0); }
        }
      }
      assert nodes[1..] == s;
    }

    /** The link surgery of the destructor: fix `head` or `prev->next`, then `next->prev`. */
    method Splice(n: Body)
      modifies this`head, {n.prev}`next, {n.next}`prev
      ensures head == if old(n.prev) == null then old(n.next) else old(head)
      ensures forall x: Body :: old(allocated(x)) ==> x.prev == if x == old(n.next) then old(n.prev) else old(x.prev)
      ensures forall x: Body :: old(allocated(x)) ==> x.next == if x == old(n.prev) then old(n.next) else old(x.next)
    {
      if n.prev == null {
        head := n.next;
      } else {
        n.prev.next := n.next;
      }
      if n.next != null {
        n.next.prev := n.prev;
      }
    }

    /** Unlinking keeps the list linked and drops exactly `n`. */
    method Unlink(n: Body)
      requires Linked() && n in nodes
      modifies this`head, this`nodes, Members()`prev, Members()`next
      ensures Linked() && nodes == Without(old(nodes), n)
    {
      ghost var i := IndexOf(n);
      ghost var s := nodes;
      ghost var p: Body? := if i == 0 then null else s[i-1];
      ghost var q: Body? := if i + 1 < |s| then s[i+1] else null;
      assert n.prev == p && n.next == q;
      Splice(n);
      WithoutAt(s, i);
      DistinctRemove(s, i);
      nodes := s[..i] + s[i+1..];
      BodyUnlinkKeepsLinked(this, s, i, p, q);
    }

    /**
     * Body::Physics_Step: walks the list from the head and gives every body
     * its linear drag (per axis or isotropic, by its flag) and, independently,
     * its angular drag.
     */
    method Physics_Step(m: Medium, step: real)
      requires Linked()
      requires forall i :: 0 <= i < |nodes| ==> DragOk(nodes[i], nodes[i].linearVel, nodes[i].angularVel, m, step)
      modifies Members()`linearVel, Members()`angularVel
      ensures forall i :: 0 <= i < |nodes| ==>
                Dragged(nodes[i], old(nodes[i].linearVel), old(nodes[i].angularVel), m, step)
    {
      var body := head;
      ghost var ns := nodes;
      ghost var k := 0;
      while body != null
        invariant 0 <= k <= |ns| && body == (if k < |ns| then ns[k] else null)
        invariant Linked()
        invariant forall i :: 0 <= i < k ==>
                    Dragged(ns[i], old(ns[i].linearVel), old(ns[i].angularVel), m, step)
        invariant forall i :: k <= i < |ns| ==>
                    ns[i].linearVel == old(ns[i].linearVel) && ns[i].angularVel == old(ns[i].angularVel)
        decreases |ns| - k
      {
        DistinctAfter(ns, k);
        body.Drag(m, step);
        body := body.next;
        k := k + 1;
      }
    }
  }

  /** After Splice, the list without the `i`-th node is linked again. */
  twostate lemma BodyUnlinkKeepsLinked(new l: BodyList, new s: seq<Body>, new i: nat, new p: Body?, new q: Body?)
    requires old(allocated(l)) && old(allocated(s))
    requires old(l.Linked()) && old(l.nodes) == s && i < |s|
    requires p == (if i == 0 then null else s[i-1]) && q == (if i + 1 < |s| then s[i+1] else null)
    requires forall x: Body :: old(allocated(x)) ==> x.prev == if x == q then p else old(x.prev)
    requires forall x: Body :: old(allocated(x)) ==> x.next == if x == p then q else old(x.next)
    requires l.head == if i == 0 then q else old(l.head)
    requires l.nodes == s[..i] + s[i+1..] && Distinct(l.nodes)
    ensures l.Linked()
  {
    BodyUnlinkKeepsLinkedPrev(l, s, i, p, q);
    BodyUnlinkKeepsLinkedNext(l, s, i, p, q);
  }

  twostate lemma BodyUnlinkKeepsLinkedPrev(new l: BodyList, new s: seq<Body>, new i: nat, new p: Body?, new q: Body?)
    requires old(allocated(l)) && old(allocated(s))
    requires old(l.Linked()) && old(l.nodes) == s && i < |s|
    requires p == (if i == 0 then null else s[i-1]) && q == (if i + 1 < |s| then s[i+1] else null)
    requires forall x: Body :: old(allocated(x)) ==> x.prev == if x == q then p else old(x.prev)
    requires l.nodes == s[..i] + s[i+1..]
    ensures forall j {:trigger l.nodes[j].prev} :: 0 <= j < |l.nodes| ==>
              l.nodes[j].prev == (if j == 0 then null else l.nodes[j-1])
  {
    forall j | 0 <= j < |s|
      ensures s[j].prev == if j == i + 1 then p else old(s[j].prev)
    {
      if j != i + 1 && q != null { DistinctAt(s, j, i + 1); }
    }
    var t := l.nodes;
    forall j {:trigger t[j].prev} | 0 <= j < |t|
      ensures t[j].prev == (if j == 0 then null else t[j-1])
    {
      if j < i {
        assert t[j] == s[j];
        assert old(s[j].prev) == (if j == 0 then null else s[j-1]);
      } else {
        assert t[j] == s[j+1];
        assert old(s[j+1].prev) == s[j];
        if j > 0 { assert t[j-1] == if j - 1 < i then s[j-1] else s[j]; }
      }
    }
  }

  twostate lemma BodyUnlinkKeepsLinkedNext(new l: BodyList, new s: seq<Body>, new i: nat, new p: Body?, new q: Body?)
    requires old(allocated(l)) && old(allocated(s))
    requires old(l.Linked()) && old(l.nodes) == s && i < |s|
    requires p == (if i == 0 then null else s[i-1]) && q == (if i + 1 < |s| then s[i+1] else null)
    requires forall x: Body :: old(allocated(x)) ==> x.next == if x == p then q else old(x.next)
    requires l.nodes == s[..i] + s[i+1..]
    ensures forall j {:trigger l.nodes[j].next} :: 0 <= j < |l.nodes| ==>
              l.nodes[j].next == (if j + 1 < |l.nodes| then l.nodes[j+1] else null)
  {
    forall j | 0 <= j < |s|
      ensures s[j].next == if j + 1 == i then q else old(s[j].next)
    {
      if j + 1 != i && p != null { DistinctAt(s, j, i - 1); }
    }
    var t := l.nodes;
    forall j {:trigger t[j].next} | 0 <= j < |t|
      ensures t[j].next == (if j + 1 < |t| then t[j+1] else null)
    {
      if j < i {
        assert t[j] == s[j];
        assert old(s[j].next) == s[j+1];
        if j + 1 < |t| { assert t[j+1] == if j + 1 < i then s[j+1] else s[j+2]; }
      } else {
        assert t[j] == s[j+1];
        assert old(s[j+1].next) == (if j + 2 < |s| then s[j+2] else null);
        if j + 1 < |t| { assert t[j+1] == s[j+2]; }
      }
    }
  }
}
