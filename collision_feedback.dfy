/**
 * Collision_Feedback (collision_feedback.cpp): for every contact joint
 * whose geoms take damage, ODE reports the two forces of the joint; after
 * the world step the list is drained and both geoms are hit by the larger
 * force.
 */
module CollisionFeedback {
  import opened Seqs
  import opened Vectors
  import opened EventBuffers
  import opened Bodies
  import opened Geoms
  import opened DamageBuffer

  class Feedback {
    const geom1: Geom
    const geom2: Geom
    /** The joint's `dJointFeedback` forces, written by the ODE world step. */
    var f1: Vec3
    var f2: Vec3
    /** Set once, when the entry is pushed. */
    const next: Feedback?

    /** Collision_Feedback::Collision_Feedback: both forces zeroed, pushed at the head of the list. */
    constructor (list: FeedbackList, g1: Geom, g2: Geom)
      requires list.Linked()
      modifies list`head, list`nodes
      ensures geom1 == g1 && geom2 == g2 && f1 == Zero && f2 == Zero
      ensures list.Linked() && list.head == this && list.nodes == [this] + old(list.nodes)
    {
      geom1, geom2 := g1, g2;
      f1, f2 := Zero, Zero;
      next := list.head;
      new;
      list.head := this;
      list.nodes := [this] + list.nodes;
    }

    /**
     * One entry of Collision_Feedback::Physics_Step: both geoms are damaged
     * with the larger force magnitude, which is returned.
     */
    method Apply(step: real, norm: Vec3 -> real, queue: EventQueue, ghost live: set<Geom>, ghost bs: map<Geom, Buffer>)
      returns (force: real)
      requires geom1 in live && geom2 in live
      modifies geom1`buffer, geom2`buffer, {geom1.forceToBody, geom2.forceToBody}`buffer, queue
      ensures force == Force(norm, f1, f2)
      ensures geom1 != geom2 && geom1.forceToBody == null && geom2.forceToBody == null ==>
                geom1.BufferState() == Damage(old(geom1.BufferState()), force, step) &&
                geom2.BufferState() == Damage(old(geom2.BufferState()), force, step) &&
                queue.entries == old(queue.entries) + DepletedBy(old(geom1.BufferState()), force, step, geom1) +
                                 DepletedBy(old(geom2.BufferState()), force, step, geom2)
      ensures geom1.forceToBody == null && geom2.forceToBody == null && old(BuffersAre(live, bs)) ==>
                BuffersAre(live, HitBoth(bs, geom1, geom2, force, step).0) &&
                queue.entries == old(queue.entries) + HitBoth(bs, geom1, geom2, force, step).1
    {
      var force1 := norm(f1);
      var force2 := norm(f2);
      force := if force1 > force2 then force1 else force2;
      geom1.Damage_Buffer(force, step, queue);
      geom2.Damage_Buffer(force, step, queue);
    }
  }

  /**
   * The force both geoms of an entry take: the larger of the two force
   * magnitudes (`|f2|` on a tie); `norm` is the vector length.
   */
  function Force(norm: Vec3 -> real, f1: Vec3, f2: Vec3): (r: real)
    ensures r >= norm(f1) && r >= norm(f2)
    ensures r == norm(f1) || r == norm(f2)
  {
    if norm(f1) > norm(f2) then norm(f1) else norm(f2)
  }

  /** The Depleted event, if any, that damaging buffer `b` of `t` queues. */
  function DepletedBy(b: Buffer, force: real, step: real, t: object): seq<Event>
  {
    if Depletes(b, force, step) then [Event(Depleted, t)] else []
  }

  /** The damage buffers of the geoms in `gs`. */
  ghost function Buffers(gs: set<Geom>): (r: map<Geom, Buffer>)
    reads set g | g in gs :: g`bufferEvent, set g | g in gs :: g`threshold, set g | g in gs :: g`buffer
    ensures r.Keys == gs
  {
    map g | g in gs :: g.BufferState()
  }

  /**
   * One entry applied to the buffers: `g1`, then `g2` (the same geom twice
   * when they coincide) take `force`; with the Depleted events queued, in order.
   */
  function HitBoth(bs: map<Geom, Buffer>, g1: Geom, g2: Geom, force: real, step: real): (r: (map<Geom, Buffer>, seq<Event>))
    requires g1 in bs && g2 in bs
    ensures r.0.Keys == bs.Keys
  {
    var b1 := bs[g1];
    var bs1 := bs[g1 := Damage(b1, force, step)];
    var b2 := bs1[g2];
    (bs1[g2 := Damage(b2, force, step)], DepletedBy(b1, force, step, g1) + DepletedBy(b2, force, step, g2))
  }

  /**
   * Draining the first `n` entries in list order, each with its force: the
   * buffers after and the Depleted events queued, in order.
   */
  function Drain(bs: map<Geom, Buffer>, es: seq<Feedback>, forces: seq<real>, n: nat, step: real): (r: (map<Geom, Buffer>, seq<Event>))
    requires n <= |es| == |forces| && forall i :: 0 <= i < |es| ==> es[i].geom1 in bs && es[i].geom2 in bs
    ensures r.0.Keys == bs.Keys
  {
    if n == 0 then (bs, [])
    else
      var before := Drain(bs, es, forces, n - 1, step);
      var after := HitBoth(before.0, es[n - 1].geom1, es[n - 1].geom2, forces[n - 1], step);
      (after.0, before.1 + after.1)
  }

  /** Every geom of `live` has the buffer `bs` gives it. */
  ghost predicate BuffersAre(live: set<Geom>, bs: map<Geom, Buffer>)
    reads set g | g in live :: g`bufferEvent, set g | g in live :: g`threshold, set g | g in live :: g`buffer
  {
    forall g :: g in live ==> g in bs && g.BufferState() == bs[g]
  }

  /**
   * After `k` entries: the geoms of `live` have the buffers `bs` and the
   * queue holds `q0` followed by `events`, which are what Drain gives.
   */
  ghost predicate DrainedSoFar(live: set<Geom>, queue: EventQueue, bs: map<Geom, Buffer>, events: seq<Event>,
                               bs0: map<Geom, Buffer>, q0: seq<Event>, es: seq<Feedback>, forces: seq<real>, k: nat, step: real)
    reads set g | g in live :: g`bufferEvent, set g | g in live :: g`threshold, set g | g in live :: g`buffer, queue`entries
  {
    k <= |es| == |forces| && (forall i :: 0 <= i < |es| ==> es[i].geom1 in bs0 && es[i].geom2 in bs0) &&
    BuffersAre(live, bs) && queue.entries == q0 + events && (bs, events) == Drain(bs0, es, forces, k, step)
  }

  /** Draining one more entry applies it to the buffers the earlier ones left, and queues its events after theirs. */
  lemma DrainNext(bs: map<Geom, Buffer>, es: seq<Feedback>, forces: seq<real>, k: nat, step: real)
    requires k < |es| == |forces| && forall i :: 0 <= i < |es| ==> es[i].geom1 in bs && es[i].geom2 in bs
    ensures var before := Drain(bs, es, forces, k, step);
            var after := HitBoth(before.0, es[k].geom1, es[k].geom2, forces[k], step);
            Drain(bs, es, forces, k + 1, step) == (after.0, before.1 + after.1)
  {
  }

  /** The hits geom `g` takes from the first `n` entries, in order: one for each side of an entry it is on. */
  function HitsOn(g: Geom, es: seq<Feedback>, forces: seq<real>, n: nat, step: real): (r: seq<Hit>)
    requires n <= |es| == |forces|
    ensures |r| <= 2 * n
  {
    if n == 0 then []
    else
      var h := Hit(forces[n - 1], step);
      HitsOn(g, es, forces, n - 1, step) + (if es[n - 1].geom1 == g then [h] else []) + (if es[n - 1].geom2 == g then [h] else [])
  }

  /** With non-negative forces and step, every hit a geom takes is harmful. */
  lemma {:induction false} HitsOnHarmful(g: Geom, es: seq<Feedback>, forces: seq<real>, n: nat, step: real)
    requires n <= |es| == |forces| && step >= 0.0 && forall i :: 0 <= i < |forces| ==> forces[i] >= 0.0
    ensures forall j :: 0 <= j < |HitsOn(g, es, forces, n, step)| ==> Harmful(HitsOn(g, es, forces, n, step)[j])
  {
    if n > 0 {
      HitsOnHarmful(g, es, forces, n - 1, step);
      assert forces[n - 1] >= 0.0;
    }
  }

  /** Hitting with a Hit list of at most one element, as HitBoth does for one side. */
  lemma RunSnocOpt(b: Buffer, hs: seq<Hit>, on: bool, h: Hit)
    ensures DamageRun(b, hs + (if on then [h] else [])) ==
            (if on then Damage(DamageRun(b, hs), h.force, h.step) else DamageRun(b, hs))
    ensures EventsOfRun(b, hs + (if on then [h] else [])) ==
            EventsOfRun(b, hs) + (if on && Depletes(DamageRun(b, hs), h.force, h.step) then 1 else 0)
  {
    if on {
      RunSnoc(b, hs, h);
    } else {
      assert hs + [] == hs;
    }
  }

  /** The Depleted events for `g` among those DepletedBy queues for `t`. */
  lemma CountDepletedBy(b: Buffer, force: real, step: real, t: Geom, g: Geom)
    ensures Count(DepletedBy(b, force, step, t), Depleted, g) == if t == g && Depletes(b, force, step) then 1 else 0
  {
    if Depletes(b, force, step) {
      assert DepletedBy(b, force, step, t)[1..] == [];
    }
  }

  /**
   * One entry seen from geom `g`, whose buffer is what the run `hs` left of
   * `b0`: it extends the run by the hits `g` takes from the entry, and
   * queues for `g` the events those hits add.
   */
  lemma HitBothPerGeom(bs: map<Geom, Buffer>, g1: Geom, g2: Geom, f: real, step: real, g: Geom, b0: Buffer, hs: seq<Hit>)
    requires g1 in bs && g2 in bs && g in bs && bs[g] == DamageRun(b0, hs)
    ensures var hs2 := hs + (if g1 == g then [Hit(f, step)] else []) + (if g2 == g then [Hit(f, step)] else []);
            HitBoth(bs, g1, g2, f, step).0[g] == DamageRun(b0, hs2) &&
            EventsOfRun(b0, hs) + Count(HitBoth(bs, g1, g2, f, step).1, Depleted, g) == EventsOfRun(b0, hs2)
  {
    var h := Hit(f, step);
    var hs1 := hs + (if g1 == g then [h] else []);
    RunSnocOpt(b0, hs, g1 == g, h);
    RunSnocOpt(b0, hs1, g2 == g, h);
    var b1 := bs[g1];
    var bs1 := bs[g1 := Damage(b1, f, step)];
    var b2 := bs1[g2];
    assert bs1[g] == DamageRun(b0, hs1);
    CountAppend(DepletedBy(b1, f, step, g1), DepletedBy(b2, f, step, g2), Depleted, g);
    CountDepletedBy(b1, f, step, g1, g);
    CountDepletedBy(b2, f, step, g2, g);
  }

  /**
   * Seen from geom `g`, draining the first `n` entries is the damage run of
   * the hits `g` takes from them, and queues for `g` the events that run queues.
   */
  ghost predicate DrainsAsRun(bs: map<Geom, Buffer>, es: seq<Feedback>, forces: seq<real>, n: nat, step: real, g: Geom)
    requires n <= |es| == |forces| && forall i :: 0 <= i < |es| ==> es[i].geom1 in bs && es[i].geom2 in bs
    requires g in bs
  {
    Drain(bs, es, forces, n, step).0[g] == DamageRun(bs[g], HitsOn(g, es, forces, n, step)) &&
    Count(Drain(bs, es, forces, n, step).1, Depleted, g) == EventsOfRun(bs[g], HitsOn(g, es, forces, n, step))
  }

  /** Draining holds per geom for every prefix of the list. */
  lemma {:induction false} DrainPerGeom(bs: map<Geom, Buffer>, es: seq<Feedback>, forces: seq<real>, n: nat, step: real, g: Geom)
    requires n <= |es| == |forces| && forall i :: 0 <= i < |es| ==> es[i].geom1 in bs && es[i].geom2 in bs
    requires g in bs
    ensures DrainsAsRun(bs, es, forces, n, step, g)
    decreases n
  {
    if n > 0 {
      DrainPerGeom(bs, es, forces, n - 1, step, g);
      DrainPerGeomNext(bs, es, forces, n, step, g);
    }
  }

  /** DrainPerGeom's inductive step: one more entry extends the run by the hits `g` takes from it. */
  lemma DrainPerGeomNext(bs: map<Geom, Buffer>, es: seq<Feedback>, forces: seq<real>, n: nat, step: real, g: Geom)
    requires 0 < n <= |es| == |forces| && forall i :: 0 <= i < |es| ==> es[i].geom1 in bs && es[i].geom2 in bs
    requires g in bs && DrainsAsRun(bs, es, forces, n - 1, step, g)
    ensures DrainsAsRun(bs, es, forces, n, step, g)
  {
    var before := Drain(bs, es, forces, n - 1, step);
    var e := es[n - 1];
    var after := HitBoth(before.0, e.geom1, e.geom2, forces[n - 1], step);
    HitBothPerGeom(before.0, e.geom1, e.geom2, forces[n - 1], step, g, bs[g], HitsOn(g, es, forces, n - 1, step));
    CountAppend(before.1, after.1, Depleted, g);
  }

  /**
   * With non-negative forces and step, one physics step queues at most one
   * Depleted event for a geom that takes its own damage, and only when its
   * buffer went from above zero to below it; however many entries name it.
   */
  lemma DrainDepletesOnce(bs: map<Geom, Buffer>, es: seq<Feedback>, forces: seq<real>, step: real, g: Geom)
    requires |es| == |forces| && forall i :: 0 <= i < |es| ==> es[i].geom1 in bs && es[i].geom2 in bs
    requires g in bs && step >= 0.0 && forall i :: 0 <= i < |forces| ==> forces[i] >= 0.0
    ensures Count(Drain(bs, es, forces, |es|, step).1, Depleted, g) <= 1
    ensures Count(Drain(bs, es, forces, |es|, step).1, Depleted, g) == 1 ==>
            bs[g].level > 0.0 && Drain(bs, es, forces, |es|, step).0[g].level < 0.0
  {
    DrainPerGeom(bs, es, forces, |es|, step, g);
    HitsOnHarmful(g, es, forces, |es|, step);
    AtMostOneDepletion(bs[g], HitsOn(g, es, forces, |es|, step));
  }

  /** The force of each of these entries. */
  ghost function ForcesOf(es: seq<Feedback>, norm: Vec3 -> real): (r: seq<real>)
    reads set e | e in es
    ensures |r| == |es| && forall i :: 0 <= i < |es| ==> r[i] == Force(norm, es[i].f1, es[i].f2)
    decreases |es|
  {
    if es == [] then [] else [Force(norm, es[0].f1, es[0].f2)] + ForcesOf(es[1..], norm)
  }

  /** The global list `Collision_Feedback::head`, newest entry first. */
  class FeedbackList {
    var head: Feedback?
    ghost var nodes: seq<Feedback>

    ghost predicate Linked()
      reads this
    {
      (head == if nodes == [] then null else nodes[0]) &&
      (forall i {:trigger nodes[i].next} :: 0 <= i < |nodes| ==>
         nodes[i].next == (if i + 1 < |nodes| then nodes[i+1] else null)) &&
      Distinct(nodes)
    }

    constructor ()
      ensures Linked() && nodes == []
    {
      head := null;
      nodes := [];
    }

    /** `head = head->next`: the head entry leaves the list. */
    method Advance()
      requires Linked() && nodes != []
      modifies this`head, this`nodes
      ensures Linked() && nodes == old(nodes)[1..]
    {
      head := head.next;
      nodes := nodes[1..];
    }

    /**
     * Collision_Feedback::Physics_Step: consumes every entry exactly once,
     * newest first, hitting both of its geoms with its force (Apply), and
     * leaves the list empty. The entries name geoms in `live`, whose
     * forces go to bodies in `targets`. `consumed` and `used` record the entries in the
     * order they were applied and the force each one was applied with.
     */
    method Physics_Step(step: real, norm: Vec3 -> real, queue: EventQueue, ghost live: set<Geom>, ghost targets: set<Body>)
      returns (ghost consumed: seq<Feedback>, ghost used: seq<real>)
      requires Linked()
      requires forall e :: e in nodes ==> e.geom1 in live && e.geom2 in live
      requires forall g :: g in live && g.forceToBody != null ==> g.forceToBody in targets
      modifies this`head, this`nodes, live`buffer, targets`buffer, queue
      ensures head == null && nodes == [] && Linked()
      ensures consumed == old(nodes) && used == old(ForcesOf(nodes, norm))
      ensures old(forall e :: e in nodes ==> e.geom1.forceToBody == null && e.geom2.forceToBody == null) ==>
                var drained := Drain(old(Buffers(live)), old(nodes), old(ForcesOf(nodes, norm)), old(|nodes|), step);
                BuffersAre(live, drained.0) && queue.entries == old(queue.entries) + drained.1
    {
      ghost var all := nodes;
      ghost var forces := ForcesOf(all, norm);
      ghost var bs0, q0 := Buffers(live), queue.entries;
      ghost var direct := forall e :: e in nodes ==> e.geom1.forceToBody == null && e.geom2.forceToBody == null;
      ghost var bs, events := bs0, [];
      ghost var k := 0;
      consumed, used := [], [];
      assert Consumed(all, forces, consumed, used, k);
      assert Routed(all, live, targets, direct) && Forced(all, forces, norm);
      while head != null
        invariant Consumed(all, forces, consumed, used, k) && Routed(all, live, targets, direct) && Forced(all, forces, norm)
        invariant direct ==> DrainedSoFar(live, queue, bs, events, bs0, q0, all, forces, k, step)
        decreases |all| - k
      {
        consumed, used, bs, events := Drain_Head(step, norm, queue, live, targets, consumed, used, bs, events, bs0, q0, all, forces, k, direct);
        k := k + 1;
      }
      assert all[..k] == all;
      assert forces[..k] == forces;
    }

    /** `forces` are the forces of the entries of `all`. */
    ghost predicate Forced(all: seq<Feedback>, forces: seq<real>, norm: Vec3 -> real)
      reads set i | 0 <= i < |all| :: all[i]`f1, set i | 0 <= i < |all| :: all[i]`f2
    {
      |forces| == |all| && forall i :: 0 <= i < |all| ==> forces[i] == Force(norm, all[i].f1, all[i].f2)
    }

    /** Every entry names geoms in `live`, which forward only to bodies in `targets`; with `direct`, none forwards. */
    ghost predicate Routed(all: seq<Feedback>, live: set<Geom>, targets: set<Body>, direct: bool)
      reads set g | g in live :: g`forceToBody
    {
      (forall i :: 0 <= i < |all| ==>
         all[i].geom1 in live && all[i].geom2 in live &&
         (direct ==> all[i].geom1.forceToBody == null && all[i].geom2.forceToBody == null)) &&
      (forall g :: g in live && g.forceToBody != null ==> g.forceToBody in targets)
    }

    /** The first `k` entries of `all` have been applied, with the first `k` forces, and the rest are still listed. */
    ghost predicate Consumed(all: seq<Feedback>, forces: seq<real>, consumed: seq<Feedback>, used: seq<real>, k: nat)
      reads this
    {
      k <= |all| && k <= |forces| && Linked() && nodes == all[k..] && consumed == all[..k] && used == forces[..k]
    }

    /**
     * One round of Physics_Step's loop: the head entry is applied, then
     * leaves the list. With both geoms taking their own damage, the buffers
     * and the queue move on to what Drain gives for one more entry.
     */
    method Drain_Head(step: real, norm: Vec3 -> real, queue: EventQueue, ghost live: set<Geom>, ghost targets: set<Body>,
                      ghost consumed: seq<Feedback>, ghost used: seq<real>,
                      ghost bs: map<Geom, Buffer>, ghost events: seq<Event>, ghost bs0: map<Geom, Buffer>, ghost q0: seq<Event>,
                      ghost all: seq<Feedback>, ghost forces: seq<real>, ghost k: nat, ghost direct: bool)
      returns (ghost consumed': seq<Feedback>, ghost used': seq<real>, ghost bs': map<Geom, Buffer>, ghost events': seq<Event>)
      requires Consumed(all, forces, consumed, used, k) && k < |all|
      requires Forced(all, forces, norm) && Routed(all, live, targets, direct)
      requires direct ==> DrainedSoFar(live, queue, bs, events, bs0, q0, all, forces, k, step)
      modifies this`head, this`nodes, live`buffer, targets`buffer, queue
      ensures Consumed(all, forces, consumed', used', k + 1) && Routed(all, live, targets, direct) && Forced(all, forces, norm)
      ensures direct ==> DrainedSoFar(live, queue, bs', events', bs0, q0, all, forces, k + 1, step)
    {
      var e := head;
      assert e == all[k] && e.geom1 in live && e.geom2 in live;
      var force := e.Apply(step, norm, queue, live, bs);
      Advance();
      PrefixSnoc(all, k);
      PrefixSnoc(forces, k);
      consumed', used' := consumed + [e], used + [force];
      assert all[k..][1..] == all[k + 1..];
      bs', events' := bs, events;
      if direct {
        var hit := HitBoth(bs, e.geom1, e.geom2, force, step);
        DrainNext(bs0, all, forces, k, step);
        ConcatAssoc(q0, events, hit.1);
        bs', events' := hit.0, events + hit.1;
      }
    }
  }
}
