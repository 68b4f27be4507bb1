/**
 * Geom::Collision_Callback (geom.cpp): what happens to each contact point
 * ODE reports between two geoms. The per-contact decision is a pure
 * function of the two surfaces (Resolve); the callback itself flags the
 * touched triangles, marks the geoms colliding and queues force feedback
 * for the joints it creates.
 */
module Collisions {
  import opened Wrappers
  import opened Seqs
  import opened Vectors
  import opened Contacts
  import opened Geoms
  import opened CollisionFeedback

  /** One contact point from `dCollide`: the triangle index on each geom, -1 for none. */
  datatype ContactPoint = ContactPoint(side1: int, side2: int)

  /** What one contact turns into. */
  datatype Outcome =
    | Sensor
      /** Handed to the wheel simulation with the configured contact and the other geom's surface. */
    | WheelContact(wheel: WheelSide, surface: ContactSurface, other: Surface)
      /** A contact joint; `feedback` when a Collision_Feedback entry is created for it. */
    | Joint(surface: ContactSurface, feedback: bool)

  /**
   * One contact between surfaces `s1` and `s2`: nothing when either is a
   * sensor; otherwise the combined contact goes to the wheel simulation when
   * one side is a wheel, or becomes a joint that asks for force feedback
   * when `feedback` says so.
   */
  function Resolve(s1: Surface, s2: Surface, wheel: WheelSide, feedback: bool, step: real): (r: Outcome)
    requires SurfaceOk(s1) && SurfaceOk(s2) && step > 0.0
    ensures r.Sensor? <==> SensorOnly(s1, s2)
    ensures r.WheelContact? <==> !SensorOnly(s1, s2) && wheel != NoWheel
    ensures r.WheelContact? ==> r.wheel == wheel && r.other == (if wheel == FirstWheel then s2 else s1)
    ensures !r.Sensor? ==> Combine(s1, s2, step) == Some(r.surface)
    ensures r.Joint? ==> r.feedback == feedback
  {
    match Combine(s1, s2, step)
    case None => Sensor
    case Some(c) =>
      match wheel
      case FirstWheel => WheelContact(FirstWheel, c, s2)
      case SecondWheel => WheelContact(SecondWheel, c, s1)
      case NoWheel => Joint(c, feedback)
  }

  /** The wheel side seen from the other geom. */
  function Swapped(w: WheelSide): (r: WheelSide)
    ensures (r == NoWheel) == (w == NoWheel) && (r == FirstWheel) == (w == SecondWheel)
  {
    match w
    case NoWheel => NoWheel
    case FirstWheel => SecondWheel
    case SecondWheel => FirstWheel
  }

  /**
   * The outcome does not depend on which geom ODE names first: swapping
   * the surfaces and the wheel side gives the same joint, or the same
   * wheel contact seen from the other side with the same other surface.
   */
  lemma ResolveSwap(s1: Surface, s2: Surface, wheel: WheelSide, feedback: bool, step: real)
    requires SurfaceOk(s1) && SurfaceOk(s2) && step > 0.0
    ensures Resolve(s2, s1, Swapped(wheel), feedback, step) ==
            match Resolve(s1, s2, wheel, feedback, step)
            case WheelContact(w, c, o) => WheelContact(Swapped(w), c, o)
            case other => other
  {
    CombineSymmetric(s1, s2, step);
  }

  /** A joint gets force feedback when either geom takes damage or passes it to a body. */
  predicate NeedsFeedback(g1: Geom, g2: Geom)
    reads g1`bufferEvent, g1`forceToBody, g2`bufferEvent, g2`forceToBody
  {
    g1.bufferEvent || g2.bufferEvent || g1.forceToBody != null || g2.forceToBody != null
  }

  /** The number of feedback entries these outcomes create. */
  function FeedbackCount(out: seq<Outcome>): (n: nat)
    ensures n <= |out|
    ensures n == 0 <==> forall i :: 0 <= i < |out| ==> !(out[i].Joint? && out[i].feedback)
  {
    if out == [] then 0
    else FeedbackCount(out[..|out| - 1]) + (if out[|out| - 1].Joint? && out[|out| - 1].feedback then 1 else 0)
  }

  lemma FeedbackCountSnoc(out: seq<Outcome>, o: Outcome)
    ensures FeedbackCount(out + [o]) == FeedbackCount(out) + (if o.Joint? && o.feedback then 1 else 0)
  {
    assert (out + [o])[..|out|] == out;
  }

  /** The surface each contact uses on one geom. */
  function SurfacesAt(m: Trimesh, sides: seq<int>): (r: seq<Surface>)
    requires Indexed(m) && forall i :: 0 <= i < |sides| ==> SideOk(m, sides[i])
    ensures |r| == |sides| && forall i :: 0 <= i < |sides| ==> r[i] == SurfaceAt(m, sides[i])
  {
    if sides == [] then [] else [SurfaceAt(m, sides[0])] + SurfacesAt(m, sides[1..])
  }

  function Firsts(cs: seq<ContactPoint>): (r: seq<int>)
    ensures |r| == |cs| && forall i :: 0 <= i < |cs| ==> r[i] == cs[i].side1
  {
    if cs == [] then [] else [cs[0].side1] + Firsts(cs[1..])
  }

  function Seconds(cs: seq<ContactPoint>): (r: seq<int>)
    ensures |r| == |cs| && forall i :: 0 <= i < |cs| ==> r[i] == cs[i].side2
  {
    if cs == [] then [] else [cs[0].side2] + Seconds(cs[1..])
  }

  /** Some surface among these would generate a collision. */
  predicate AnyTriggers(ss: seq<Surface>)
  {
    ss != [] && (AnyTriggers(ss[..|ss| - 1]) || Triggers(ss[|ss| - 1]))
  }

  /** AnyTriggers holds exactly when one of the surfaces triggers. */
  lemma {:induction false} AnyTriggersExists(ss: seq<Surface>)
    ensures AnyTriggers(ss) <==> exists i :: 0 <= i < |ss| && Triggers(ss[i])
  {
    if ss != [] {
      var init := ss[..|ss| - 1];
      AnyTriggersExists(init);
      if exists i :: 0 <= i < |init| && Triggers(init[i]) {
        var i :| 0 <= i < |init| && Triggers(init[i]);
        assert ss[i] == init[i];
      }
      if exists i :: 0 <= i < |ss| && Triggers(ss[i]) {
        var i :| 0 <= i < |ss| && Triggers(ss[i]);
        if i < |init| {
          assert init[i] == ss[i];
        }
      }
    }
  }

  lemma AnyTriggersPrefix(ss: seq<Surface>, i: nat)
    requires i < |ss|
    ensures AnyTriggers(ss[..i + 1]) == (AnyTriggers(ss[..i]) || Triggers(ss[i]))
  {
    assert ss[..i + 1][..i] == ss[..i];
  }

  /** The triangle flags after contacts on each of `sides`. */
  function FlagAll(flags: seq<bool>, count: int, sides: seq<int>): (r: seq<bool>)
    ensures |r| == |flags|
  {
    if sides == [] then flags
    else Flag(FlagAll(flags, count, sides[..|sides| - 1]), count, sides[|sides| - 1])
  }

  /** After the contacts, exactly the touched triangles of a trimesh are newly flagged. */
  lemma {:induction false} FlagAllMeaning(flags: seq<bool>, count: int, sides: seq<int>, t: int)
    requires 0 <= t < |flags|
    ensures FlagAll(flags, count, sides)[t] == (flags[t] || (count != 0 && t in sides))
  {
    if sides != [] {
      var init := sides[..|sides| - 1];
      FlagAllMeaning(flags, count, init, t);
      assert sides == init + [sides[|sides| - 1]];
    }
  }

  lemma FlagAllSnoc(flags: seq<bool>, count: int, sides: seq<int>, i: nat)
    requires i < |sides|
    ensures FlagAll(flags, count, sides[..i + 1]) == Flag(FlagAll(flags, count, sides[..i]), count, sides[i])
  {
    assert sides[..i + 1][..i] == sides[..i];
  }

  /** The outcome of every contact, in order. */
  function Outcomes(ss1: seq<Surface>, ss2: seq<Surface>, wheel: WheelSide, feedback: bool, step: real): (r: seq<Outcome>)
    requires |ss1| == |ss2| && step > 0.0
    requires forall i :: 0 <= i < |ss1| ==> SurfaceOk(ss1[i]) && SurfaceOk(ss2[i])
    ensures |r| == |ss1| && forall i :: 0 <= i < |ss1| ==> r[i] == Resolve(ss1[i], ss2[i], wheel, feedback, step)
  {
    if ss1 == [] then []
    else [Resolve(ss1[0], ss2[0], wheel, feedback, step)] + Outcomes(ss1[1..], ss2[1..], wheel, feedback, step)
  }

  /**
   * Every non-sensor contact, a joint or a wheel contact, comes from two
   * triggering surfaces, so after the callback both geoms are colliding.
   */
  lemma NonSensorTriggersBoth(ss1: seq<Surface>, ss2: seq<Surface>, wheel: WheelSide, feedback: bool, step: real, i: nat)
    requires |ss1| == |ss2| && step > 0.0 && i < |ss1|
    requires forall j :: 0 <= j < |ss1| ==> SurfaceOk(ss1[j]) && SurfaceOk(ss2[j])
    requires !Outcomes(ss1, ss2, wheel, feedback, step)[i].Sensor?
    ensures AnyTriggers(ss1) && AnyTriggers(ss2)
  {
    assert Triggers(ss1[i]) && Triggers(ss2[i]);
    AnyTriggersExists(ss1);
    AnyTriggersExists(ss2);
  }

  /** Feedback entries for the pair `g1`, `g2`. */
  predicate ForPair(es: seq<Feedback>, g1: Geom, g2: Geom)
  {
    forall j :: 0 <= j < |es| ==> es[j].geom1 == g1 && es[j].geom2 == g2
  }

  /** The collision state of a pair of geoms: both colliding flags and both triangle flag arrays. */
  datatype PairState = PairState(colliding1: bool, colliding2: bool, flags1: seq<bool>, flags2: seq<bool>)

  ghost function Snap(g1: Geom, g2: Geom): PairState
    reads g1`colliding, g2`colliding, g1`triangleColliding, g2`triangleColliding, g1.triangleColliding, g2.triangleColliding
  {
    PairState(g1.colliding, g2.colliding, g1.triangleColliding[..], g2.triangleColliding[..])
  }

  /**
   * One contact on triangles `side1`, `side2` with surfaces `s1`, `s2`: a
   * triggering surface marks the other geom colliding, and each trimesh
   * flags its triangle.
   */
  function Touched(st: PairState, s1: Surface, s2: Surface, side1: int, side2: int, count1: int, count2: int): PairState
  {
    PairState(st.colliding1 || Triggers(s2), st.colliding2 || Triggers(s1),
              Flag(st.flags1, count1, side1), Flag(st.flags2, count2, side2))
  }

  /** The pair state after every contact, in order. */
  function TouchedAll(st: PairState, ss1: seq<Surface>, ss2: seq<Surface>, sides1: seq<int>, sides2: seq<int>,
                      count1: int, count2: int): (r: PairState)
    requires |ss1| == |ss2| == |sides1| == |sides2|
    ensures |r.flags1| == |st.flags1| && |r.flags2| == |st.flags2|
  {
    if ss1 == [] then st
    else
      var n := |ss1| - 1;
      Touched(TouchedAll(st, ss1[..n], ss2[..n], sides1[..n], sides2[..n], count1, count2),
              ss1[n], ss2[n], sides1[n], sides2[n], count1, count2)
  }

  /**
   * After the contacts, a geom is colliding when it was or when some
   * surface of the other geom triggers, and the flagged triangles are the
   * touched ones.
   */
  lemma {:induction false} TouchedAllMeaning(st: PairState, ss1: seq<Surface>, ss2: seq<Surface>, sides1: seq<int>,
                                             sides2: seq<int>, count1: int, count2: int)
    requires |ss1| == |ss2| == |sides1| == |sides2|
    ensures TouchedAll(st, ss1, ss2, sides1, sides2, count1, count2) ==
            PairState(st.colliding1 || AnyTriggers(ss2), st.colliding2 || AnyTriggers(ss1),
                      FlagAll(st.flags1, count1, sides1), FlagAll(st.flags2, count2, sides2))
  {
    if ss1 != [] {
      var n := |ss1| - 1;
      TouchedAllMeaning(st, ss1[..n], ss2[..n], sides1[..n], sides2[..n], count1, count2);
    }
  }

  lemma TouchedAllSnoc(st: PairState, ss1: seq<Surface>, ss2: seq<Surface>, sides1: seq<int>, sides2: seq<int>,
                       count1: int, count2: int, i: nat)
    requires |ss1| == |ss2| == |sides1| == |sides2| && i < |ss1|
    ensures TouchedAll(st, ss1[..i + 1], ss2[..i + 1], sides1[..i + 1], sides2[..i + 1], count1, count2) ==
            Touched(TouchedAll(st, ss1[..i], ss2[..i], sides1[..i], sides2[..i], count1, count2),
                    ss1[i], ss2[i], sides1[i], sides2[i], count1, count2)
  {
    assert ss1[..i + 1][..i] == ss1[..i] && ss2[..i + 1][..i] == ss2[..i];
    assert sides1[..i + 1][..i] == sides1[..i] && sides2[..i + 1][..i] == sides2[..i];
  }

  /**
   * The first half of one contact of the callback: both geoms flag their
   * triangle and look up their surface, and a triggering surface marks the
   * other geom colliding.
   */
  method Touch_Both(g1: Geom, g2: Geom, c: ContactPoint) returns (s1: Surface, s2: Surface)
    requires g1.Covered() && g2.Covered() && g1 != g2 && g1.triangleColliding != g2.triangleColliding
    requires SideOk(g1.Mesh(), c.side1) && SideOk(g2.Mesh(), c.side2)
    modifies g1`colliding, g2`colliding, g1.triangleColliding, g2.triangleColliding
    ensures s1 == SurfaceAt(g1.Mesh(), c.side1) && s2 == SurfaceAt(g2.Mesh(), c.side2)
    ensures Snap(g1, g2) == Touched(old(Snap(g1, g2)), s1, s2, c.side1, c.side2, g1.triangleCount, g2.triangleCount)
  {
    ghost var before := Snap(g1, g2);
    s1 := g1.Touch_Triangle(c.side1);
    s2 := g2.Touch_Triangle(c.side2);
    if Triggers(s1) {
      g2.colliding := true;
    }
    if Triggers(s2) {
      g1.colliding := true;
    }
  }

  /**
   * The body of the callback's contact loop for one contact point: the
   * geoms' side (Touch_Both), the outcome of the two surfaces, and for a
   * feedback joint one new Collision_Feedback entry for the pair (`added`).
   */
  method Contact_Point(g1: Geom, g2: Geom, c: ContactPoint, wheel: WheelSide, wantFeedback: bool,
                       step: real, feedback: FeedbackList)
    returns (o: Outcome, s1: Surface, s2: Surface, ghost added: seq<Feedback>)
    requires g1.Covered() && g2.Covered() && SurfacesOk(g1.Mesh()) && SurfacesOk(g2.Mesh()) && step > 0.0
    requires g1 != g2 && g1.triangleColliding != g2.triangleColliding
    requires SideOk(g1.Mesh(), c.side1) && SideOk(g2.Mesh(), c.side2)
    requires feedback.Linked()
    modifies g1`colliding, g2`colliding, g1.triangleColliding, g2.triangleColliding, feedback`head, feedback`nodes
    ensures s1 == SurfaceAt(g1.Mesh(), c.side1) && s2 == SurfaceAt(g2.Mesh(), c.side2)
    ensures o == Resolve(s1, s2, wheel, wantFeedback, step)
    ensures Snap(g1, g2) == Touched(old(Snap(g1, g2)), s1, s2, c.side1, c.side2, g1.triangleCount, g2.triangleCount)
    ensures feedback.Linked() && feedback.nodes == added + old(feedback.nodes)
    ensures |added| == (if o.Joint? && o.feedback then 1 else 0) && ForPair(added, g1, g2)
  {
    s1, s2 := Touch_Both(g1, g2, c);
    o := Resolve(s1, s2, wheel, wantFeedback, step);
    added := [];
    if o.Joint? && o.feedback {
      var entry := new Feedback(feedback, g1, g2);
      added := [entry];
    }
  }

  /**
   * What the contact loop will do, fixed before it starts: the sides and
   * surfaces of every contact, their outcomes, the pair state, the meshes
   * and the feedback list it starts from.
   */
  datatype Plan = Plan(m1: Trimesh, m2: Trimesh, sides1: seq<int>, sides2: seq<int>, ss1: seq<Surface>,
                       ss2: seq<Surface>, all: seq<Outcome>, st0: PairState, base: seq<Feedback>)

  /** The plan is the one for these contacts. */
  predicate Planned(p: Plan, contacts: seq<ContactPoint>, wheel: WheelSide, wantFeedback: bool, step: real)
  {
    Indexed(p.m1) && Indexed(p.m2) && SurfacesOk(p.m1) && SurfacesOk(p.m2) && step > 0.0 &&
    (forall i :: 0 <= i < |contacts| ==> SideOk(p.m1, contacts[i].side1) && SideOk(p.m2, contacts[i].side2)) &&
    p.sides1 == Firsts(contacts) && p.sides2 == Seconds(contacts) &&
    p.ss1 == SurfacesAt(p.m1, p.sides1) && p.ss2 == SurfacesAt(p.m2, p.sides2) &&
    p.all == Outcomes(p.ss1, p.ss2, wheel, wantFeedback, step)
  }

  /**
   * The contact loop after `i` contacts: the outcomes so far, the pair state
   * after those contacts, and the feedback entries they created on top of
   * the list it started from.
   */
  ghost predicate Progress(g1: Geom, g2: Geom, feedback: FeedbackList, p: Plan, i: int, out: seq<Outcome>,
                           created: seq<Feedback>)
    reads g1, g2, g1.triangleColliding, g2.triangleColliding, feedback
  {
    g1 != g2 && g1.triangleColliding != g2.triangleColliding &&
    g1.triangleColliding.Length == g1.triangleCount && g2.triangleColliding.Length == g2.triangleCount &&
    g1.Mesh() == p.m1 && g2.Mesh() == p.m2 &&
    |p.ss1| == |p.ss2| == |p.sides1| == |p.sides2| == |p.all| && 0 <= i <= |p.all| && out == p.all[..i] &&
    Snap(g1, g2) == TouchedAll(p.st0, p.ss1[..i], p.ss2[..i], p.sides1[..i], p.sides2[..i],
                               p.m1.triangleCount, p.m2.triangleCount) &&
    feedback.Linked() && feedback.nodes == created + p.base &&
    |created| == FeedbackCount(out) && ForPair(created, g1, g2)
  }

  /** What the plan says about contact `i`, which is `c`. */
  predicate PlannedAt(p: Plan, c: ContactPoint, wheel: WheelSide, wantFeedback: bool, step: real, i: int)
  {
    Indexed(p.m1) && Indexed(p.m2) && SurfacesOk(p.m1) && SurfacesOk(p.m2) && step > 0.0 &&
    SideOk(p.m1, c.side1) && SideOk(p.m2, c.side2) &&
    0 <= i < |p.ss1| && i < |p.ss2| && i < |p.sides1| && i < |p.sides2| && i < |p.all| &&
    p.sides1[i] == c.side1 && p.sides2[i] == c.side2 &&
    p.ss1[i] == SurfaceAt(p.m1, c.side1) && p.ss2[i] == SurfaceAt(p.m2, c.side2) &&
    p.all[i] == Resolve(p.ss1[i], p.ss2[i], wheel, wantFeedback, step)
  }

  lemma PlanAt(p: Plan, contacts: seq<ContactPoint>, wheel: WheelSide, wantFeedback: bool, step: real, i: int)
    requires Planned(p, contacts, wheel, wantFeedback, step) && 0 <= i < |contacts|
    ensures PlannedAt(p, contacts[i], wheel, wantFeedback, step, i)
  {
  }

  /** One iteration of the contact loop: contact `i`, which is `c`, goes through Contact_Point. */
  method Contact_Step(g1: Geom, g2: Geom, c: ContactPoint, wheel: WheelSide, wantFeedback: bool,
                      step: real, feedback: FeedbackList, ghost p: Plan, i: int, out: seq<Outcome>,
                      ghost created: seq<Feedback>)
    returns (out': seq<Outcome>, ghost created': seq<Feedback>)
    requires PlannedAt(p, c, wheel, wantFeedback, step, i)
    requires Progress(g1, g2, feedback, p, i, out, created)
    modifies g1`colliding, g2`colliding, g1.triangleColliding, g2.triangleColliding, feedback`head, feedback`nodes
    ensures Progress(g1, g2, feedback, p, i + 1, out', created')
  {
    var o, s1, s2, added := Contact_Point(g1, g2, c, wheel, wantFeedback, step, feedback);
    ConcatAssoc(added, created, p.base);
    created' := added + created;
    TouchedAllSnoc(p.st0, p.ss1, p.ss2, p.sides1, p.sides2, p.m1.triangleCount, p.m2.triangleCount, i);
    FeedbackCountSnoc(out, o);
    PrefixSnoc(p.all, i);
    out' := out + [o];
  }

  /**
   * After the last contact: the outcomes are the planned ones, each geom is
   * colliding when it was or when a surface of the other triggers, the
   * touched triangles are flagged, and the new feedback entries, all for
   * this pair, sit on top of the list the loop started from.
   */
  lemma Finished(g1: Geom, g2: Geom, feedback: FeedbackList, p: Plan, contacts: seq<ContactPoint>, wheel: WheelSide,
                 wantFeedback: bool, step: real, out: seq<Outcome>, created: seq<Feedback>)
    requires Planned(p, contacts, wheel, wantFeedback, step)
    requires Progress(g1, g2, feedback, p, |contacts|, out, created)
    ensures out == p.all
    ensures g1.colliding == (p.st0.colliding1 || AnyTriggers(p.ss2)) &&
            g2.colliding == (p.st0.colliding2 || AnyTriggers(p.ss1))
    ensures forall t :: 0 <= t < g1.triangleColliding.Length ==>
              t < |p.st0.flags1| && g1.triangleColliding[t] == (p.st0.flags1[t] || (g1.triangleCount != 0 && t in p.sides1))
    ensures forall t :: 0 <= t < g2.triangleColliding.Length ==>
              t < |p.st0.flags2| && g2.triangleColliding[t] == (p.st0.flags2[t] || (g2.triangleCount != 0 && t in p.sides2))
    ensures feedback.Linked() && |feedback.nodes| == |p.base| + FeedbackCount(out)
    ensures feedback.nodes[FeedbackCount(out)..] == p.base && ForPair(feedback.nodes[..FeedbackCount(out)], g1, g2)
  {
    var n := |contacts|;
    TakeAll(p.all, n);
    TakeAll(p.ss1, n);
    TakeAll(p.ss2, n);
    TakeAll(p.sides1, n);
    TakeAll(p.sides2, n);
    TouchedAllMeaning(p.st0, p.ss1, p.ss2, p.sides1, p.sides2, p.m1.triangleCount, p.m2.triangleCount);
    forall t | 0 <= t < g1.triangleColliding.Length
      ensures t < |p.st0.flags1| && g1.triangleColliding[t] == (p.st0.flags1[t] || (g1.triangleCount != 0 && t in p.sides1))
    {
      FlagAllMeaning(p.st0.flags1, p.m1.triangleCount, p.sides1, t);
    }
    forall t | 0 <= t < g2.triangleColliding.Length
      ensures t < |p.st0.flags2| && g2.triangleColliding[t] == (p.st0.flags2[t] || (g2.triangleCount != 0 && t in p.sides2))
    {
      FlagAllMeaning(p.st0.flags2, p.m2.triangleCount, p.sides2, t);
    }
    SplitConcat(created, p.base);
  }

  /** The plan of the contact loop for these contacts, from the geoms and the list as they are now. */
  ghost function PlanOf(g1: Geom, g2: Geom, contacts: seq<ContactPoint>, wheel: WheelSide, wantFeedback: bool,
                        step: real, feedback: FeedbackList): (p: Plan)
    reads g1, g2, g1.triangleColliding, g2.triangleColliding, feedback
    requires g1.Covered() && g2.Covered() && SurfacesOk(g1.Mesh()) && SurfacesOk(g2.Mesh()) && step > 0.0
    requires g1 != g2 && g1.triangleColliding != g2.triangleColliding
    requires forall i :: 0 <= i < |contacts| ==> SideOk(g1.Mesh(), contacts[i].side1) && SideOk(g2.Mesh(), contacts[i].side2)
    requires feedback.Linked()
    ensures Planned(p, contacts, wheel, wantFeedback, step) && Progress(g1, g2, feedback, p, 0, [], [])
    ensures p.m1 == g1.Mesh() && p.m2 == g2.Mesh() && p.st0 == Snap(g1, g2) && p.base == feedback.nodes
  {
    var sides1, sides2 := Firsts(contacts), Seconds(contacts);
    var ss1, ss2 := SurfacesAt(g1.Mesh(), sides1), SurfacesAt(g2.Mesh(), sides2);
    Plan(g1.Mesh(), g2.Mesh(), sides1, sides2, ss1, ss2, Outcomes(ss1, ss2, wheel, wantFeedback, step),
         Snap(g1, g2), feedback.nodes)
  }

  /**
   * The contact loop of Geom::Collision_Callback: every contact, in order,
   * goes through Contact_Step.
   */
  method Contact_Loop(g1: Geom, g2: Geom, contacts: seq<ContactPoint>, wheel: WheelSide, wantFeedback: bool,
                      step: real, feedback: FeedbackList, ghost p: Plan)
    returns (out: seq<Outcome>, ghost created: seq<Feedback>)
    requires Planned(p, contacts, wheel, wantFeedback, step)
    requires Progress(g1, g2, feedback, p, 0, [], [])
    modifies g1`colliding, g2`colliding, g1.triangleColliding, g2.triangleColliding, feedback`head, feedback`nodes
    ensures Progress(g1, g2, feedback, p, |contacts|, out, created)
  {
    out, created := [], [];
    var i := 0;
    while i < |contacts|
      invariant i <= |contacts| && Progress(g1, g2, feedback, p, i, out, created)
    {
      PlanAt(p, contacts, wheel, wantFeedback, step, i);
      out, created := Contact_Step(g1, g2, contacts[i], wheel, wantFeedback, step, feedback, p, i, out, created);
      i := i + 1;
    }
  }

  /**
   * Geom::Collision_Callback for two geoms on different bodies (or one with
   * a body and one without): each contact flags its triangles, marks the
   * other geom colliding when a surface has a nonzero spring, and is
   * resolved; every feedback joint pushes a fresh, zeroed Collision_Feedback
   * entry for the pair at the head of the feedback list.
   */
  method Pair_Callback(g1: Geom, g2: Geom, wheel: WheelSide, contacts: seq<ContactPoint>, step: real,
                       feedback: FeedbackList)
    returns (out: seq<Outcome>)
    requires g1.Covered() && g2.Covered() && SurfacesOk(g1.Mesh()) && SurfacesOk(g2.Mesh()) && step > 0.0
    requires g1 != g2 && g1.triangleColliding != g2.triangleColliding
    requires forall i :: 0 <= i < |contacts| ==> SideOk(g1.Mesh(), contacts[i].side1) && SideOk(g2.Mesh(), contacts[i].side2)
    requires feedback.Linked()
    modifies g1`colliding, g2`colliding, g1.triangleColliding, g2.triangleColliding, feedback`head, feedback`nodes
    ensures out == old(Outcomes(SurfacesAt(g1.Mesh(), Firsts(contacts)), SurfacesAt(g2.Mesh(), Seconds(contacts)),
                                wheel, NeedsFeedback(g1, g2), step))
    ensures g1.colliding == (old(g1.colliding) || old(AnyTriggers(SurfacesAt(g2.Mesh(), Seconds(contacts))))) &&
            g2.colliding == (old(g2.colliding) || old(AnyTriggers(SurfacesAt(g1.Mesh(), Firsts(contacts)))))
    ensures forall t :: 0 <= t < g1.triangleColliding.Length ==>
              g1.triangleColliding[t] == (old(g1.triangleColliding[t]) || (g1.triangleCount != 0 && t in Firsts(contacts)))
    ensures forall t :: 0 <= t < g2.triangleColliding.Length ==>
              g2.triangleColliding[t] == (old(g2.triangleColliding[t]) || (g2.triangleCount != 0 && t in Seconds(contacts)))
    ensures feedback.Linked() && |feedback.nodes| == |old(feedback.nodes)| + FeedbackCount(out)
    ensures feedback.nodes[FeedbackCount(out)..] == old(feedback.nodes)
    ensures ForPair(feedback.nodes[..FeedbackCount(out)], g1, g2)
  {
    var wantFeedback := NeedsFeedback(g1, g2);
    ghost var p := PlanOf(g1, g2, contacts, wheel, wantFeedback, step, feedback);
    ghost var created;
    out, created := Contact_Loop(g1, g2, contacts, wheel, wantFeedback, step, feedback, p);
    Finished(g1, g2, feedback, p, contacts, wheel, wantFeedback, step, out, created);
  }

  /**
   * Geom::Collision_Callback for two geoms (not spaces) with the contacts
   * `dCollide` found between them. Geoms on the same body, or both without
   * a body, are skipped; otherwise the contacts go through Pair_Callback
   * with the wheel side WheelChoice picks.
   */
  method Collision_Callback(g1: Geom, g2: Geom, body1: Option<nat>, body2: Option<nat>,
                            contacts: seq<ContactPoint>, step: real, feedback: FeedbackList)
    returns (out: seq<Outcome>)
    requires g1.Covered() && g2.Covered() && SurfacesOk(g1.Mesh()) && SurfacesOk(g2.Mesh()) && step > 0.0
    requires g1 == g2 ==> body1 == body2
    requires g1 != g2 ==> g1.triangleColliding != g2.triangleColliding
    requires forall i :: 0 <= i < |contacts| ==> SideOk(g1.Mesh(), contacts[i].side1) && SideOk(g2.Mesh(), contacts[i].side2)
    requires feedback.Linked()
    modifies g1`colliding, g2`colliding, g1.triangleColliding, g2.triangleColliding, feedback`head, feedback`nodes
    ensures feedback.Linked()
    ensures body1 == body2 ==>
              out == [] && unchanged(g1, g2, g1.triangleColliding, g2.triangleColliding, feedback)
    ensures body1 != body2 ==>
              out == old(Outcomes(SurfacesAt(g1.Mesh(), Firsts(contacts)), SurfacesAt(g2.Mesh(), Seconds(contacts)),
                                  WheelChoice(g1.isWheel, g2.isWheel, body1.Some?, body2.Some?),
                                  NeedsFeedback(g1, g2), step))
    ensures body1 != body2 ==>
              g1.colliding == (old(g1.colliding) || old(AnyTriggers(SurfacesAt(g2.Mesh(), Seconds(contacts))))) &&
              g2.colliding == (old(g2.colliding) || old(AnyTriggers(SurfacesAt(g1.Mesh(), Firsts(contacts)))))
    ensures body1 != body2 ==> forall t :: 0 <= t < g1.triangleColliding.Length ==>
              g1.triangleColliding[t] == (old(g1.triangleColliding[t]) || (g1.triangleCount != 0 && t in Firsts(contacts)))
    ensures body1 != body2 ==> forall t :: 0 <= t < g2.triangleColliding.Length ==>
              g2.triangleColliding[t] == (old(g2.triangleColliding[t]) || (g2.triangleCount != 0 && t in Seconds(contacts)))
    ensures body1 != body2 ==>
              |feedback.nodes| == |old(feedback.nodes)| + FeedbackCount(out) &&
              feedback.nodes[FeedbackCount(out)..] == old(feedback.nodes) &&
              ForPair(feedback.nodes[..FeedbackCount(out)], g1, g2)
  {
    out := [];
    if body1 == body2 {
      return;
    }
    var wheel := WheelChoice(g1.isWheel, g2.isWheel, body1.Some?, body2.Some?);
    out := Pair_Callback(g1, g2, wheel, contacts, step, feedback);
  }
}
