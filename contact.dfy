/**
 * The per-contact decisions of Geom::Collision_Callback (geom.cpp), as pure
 * functions: which material region a triangle index falls into, whether a
 * pair of surfaces only senses or really collides, and how friction,
 * bounce and the spring/damper softness of two surfaces combine.
 */
module Contacts {
  import opened Wrappers

  /**
   * A non-negative surface constant that may be `dInfinity` (the default
   * spring and damping are infinite: a hard contact).
   */
  datatype Ext = Finite(r: real) | Infinite

  /** `1/x` in floating point: 1/inf is 0 and 1/0 is inf. */
  function Recip(a: Ext): (r: Ext)
    ensures r == Infinite <==> a == Finite(0.0)
    ensures r == Finite(0.0) <==> a == Infinite
    ensures a.Finite? && a.r != 0.0 ==> r.Finite? && r.r * a.r == 1.0
  {
    match a
    case Infinite => Finite(0.0)
    case Finite(x) => if x == 0.0 then Infinite else Finite(1.0 / x)
  }

  /** `x + y` where either side may be infinite (both are non-negative here). */
  function Plus(a: Ext, b: Ext): Ext
  {
    if a.Infinite? || b.Infinite? then Infinite else Finite(a.r + b.r)
  }

  /** `1/(1/a + 1/b)`: two springs (or dampers) in series. */
  function Series(a: Ext, b: Ext): Ext
  {
    Recip(Plus(Recip(a), Recip(b)))
  }

  predicate NonNeg(a: Ext)
  {
    a.Finite? ==> a.r >= 0.0
  }

  /** Taking the reciprocal twice gives back the value. */
  lemma RecipInvolutive(a: Ext)
    ensures Recip(Recip(a)) == a
  {
    if a.Finite? && a.r != 0.0 {
      var x := a.r;
      assert Recip(a) == Finite(1.0 / x);
      assert (1.0 / x) * x == 1.0;
      assert 1.0 / (1.0 / x) == x;
    }
  }

  /**
   * An infinitely stiff side drops out of the series combination, and a
   * side of 0 makes the whole combination 0.
   */
  lemma SeriesIdentities(a: Ext, b: Ext)
    requires NonNeg(a) && NonNeg(b)
    ensures Series(a, Infinite) == a && Series(Infinite, b) == b
    ensures Series(a, Finite(0.0)) == Finite(0.0) && Series(Finite(0.0), b) == Finite(0.0)
    ensures Series(a, b) == Series(b, a)
  {
    RecipInvolutive(a);
    RecipInvolutive(b);
    if a.Finite? && a.r != 0.0 {
      assert Plus(Recip(a), Recip(Infinite)) == Recip(a);
    }
    if b.Finite? && b.r != 0.0 {
      assert Plus(Recip(Infinite), Recip(b)) == Recip(b);
    }
  }

  /**
   * Two finite, positive springs in series are softer than either of them,
   * and the combination is positive.
   */
  lemma SeriesSofter(x: real, y: real)
    requires x > 0.0 && y > 0.0
    ensures Series(Finite(x), Finite(y)).Finite?
    ensures 0.0 < Series(Finite(x), Finite(y)).r < x
    ensures Series(Finite(x), Finite(y)).r < y
  {
    var a, b := 1.0 / x, 1.0 / y;
    RecipBelow(x, a + b);
    RecipBelow(y, a + b);
    assert Series(Finite(x), Finite(y)) == Finite(1.0 / (a + b));
  }

  /** A sum exceeding `1/x` has a reciprocal below `x`. */
  lemma RecipBelow(x: real, s: real)
    requires x > 0.0 && s > 1.0 / x
    ensures 1.0 / x > 0.0 && 0.0 < 1.0 / s < x
  {
    var r := 1.0 / x;
    assert r * x == 1.0;
    assert (s - r) * x > 0.0;
    assert s * x == r * x + (s - r) * x;
    var t := 1.0 / s;
    assert t * s == 1.0;
    assert (x - t) * s == x * s - 1.0;
  }

  /** Surface: the collision properties of a geom or of one of its materials. */
  datatype Surface = Surface(mu: real, bounce: real, spring: Ext, damping: Ext,
                             sensitivity: real, rollres: real)

  /** Surface::Surface: no friction, no bounce, infinitely hard, neutral tyre scaling. */
  const DefaultSurface := Surface(0.0, 0.0, Infinite, Infinite, 1.0, 1.0)

  /** Spring and damping are non-negative (infinity included). */
  predicate SurfaceOk(s: Surface)
  {
    NonNeg(s.spring) && NonNeg(s.damping)
  }

  /** A nonzero spring (infinity included) makes the other geom register a collision. */
  predicate Triggers(s: Surface)
  {
    s.spring != Finite(0.0)
  }

  /** A spring of exactly 0 on either side makes the contact sensor-only: no joint. */
  predicate SensorOnly(s1: Surface, s2: Surface)
  {
    !Triggers(s1) || !Triggers(s2)
  }

  /**
   * Finds the material of triangle `t`: the first region whose `end` exceeds
   * `t`, or `|ends|` when there is none.
   */
  function FindMaterial(ends: seq<int>, t: int): (m: nat)
    ensures m <= |ends|
    ensures forall j :: 0 <= j < m ==> ends[j] <= t
    ensures m < |ends| ==> t < ends[m]
  {
    FindMaterialFrom(ends, t, 0)
  }

  function FindMaterialFrom(ends: seq<int>, t: int, i: nat): (m: nat)
    requires i <= |ends|
    ensures i <= m <= |ends|
    ensures forall j :: i <= j < m ==> ends[j] <= t
    ensures m < |ends| ==> t < ends[m]
    decreases |ends| - i
  {
    if i == |ends| || t < ends[i] then i else FindMaterialFrom(ends, t, i + 1)
  }

  /** The material boundaries Model::Create_Mesh produces: strictly increasing ends. */
  predicate Ascending(ends: seq<int>)
  {
    forall i, j :: 0 <= i < j < |ends| ==> ends[i] < ends[j]
  }

  /** Triangle `t` lies in region `m`: `[ends[m-1], ends[m])`, the first region starting at 0. */
  predicate InRegion(ends: seq<int>, t: int, m: nat)
  {
    m < |ends| && (m == 0 || ends[m-1] <= t) && t < ends[m]
  }

  /**
   * With ascending ends, a triangle index in `[0, last end)` finds the one
   * region that contains it, and no other region contains it.
   */
  lemma MaterialRegionUnique(ends: seq<int>, t: int, m': nat)
    requires Ascending(ends) && |ends| > 0 && 0 <= t < ends[|ends| - 1]
    ensures InRegion(ends, t, FindMaterial(ends, t))
    ensures InRegion(ends, t, m') ==> m' == FindMaterial(ends, t)
  {
  }

  /** ODE's soft ERP/CFM pair of a contact. */
  datatype Softness = Softness(erp: real, cfm: real)

  /** What the callback writes into one ODE contact it turns into a joint. */
  datatype ContactSurface = ContactSurface(mu: real, bounce: Option<real>, soft: Option<Softness>)

  /**
   * `erp = h*k/(h*k+d)`, `cfm = 1/(h*k+d)` for a spring `k` and a damping `d`
   * (an infinite damping gives 0 for both).
   */
  function Soften(h: real, k: real, d: Ext): (r: Softness)
    requires h > 0.0 && k > 0.0 && NonNeg(d)
    ensures d.Finite? ==> r.erp == h * k * r.cfm && r.erp + d.r * r.cfm == 1.0
    ensures 0.0 <= r.erp <= 1.0 && r.cfm >= 0.0
    ensures d.Infinite? <==> r.cfm == 0.0
  {
    match d
    case Infinite => Softness(0.0, 0.0)
    case Finite(dd) =>
      var den := h * k + dd;
      assert h * k > 0.0;
      Softness((h * k) / den, 1.0 / den)
  }

  /**
   * The softness is the standard mapping from a spring and a damper: the
   * spring and damping are recovered from it.
   */
  lemma SoftenRoundTrip(h: real, k: real, d: real)
    requires h > 0.0 && k > 0.0 && d >= 0.0
    ensures Soften(h, k, Finite(d)).erp / (h * Soften(h, k, Finite(d)).cfm) == k
    ensures (1.0 - Soften(h, k, Finite(d)).erp) / Soften(h, k, Finite(d)).cfm == d
  {
    var r := Soften(h, k, Finite(d));
    assert r.cfm > 0.0;
    assert r.erp == h * k * r.cfm;
    assert (h * r.cfm) * k == r.erp;
    assert 1.0 - r.erp == d * r.cfm;
  }

  /**
   * The series spring of two non-sensor surfaces, at least one of them
   * finite, is finite and positive.
   */
  lemma SeriesSpringFinite(a: Ext, b: Ext)
    requires NonNeg(a) && NonNeg(b) && a != Finite(0.0) && b != Finite(0.0)
    requires a.Finite? || b.Finite?
    ensures Series(a, b).Finite? && Series(a, b).r > 0.0
  {
    SeriesIdentities(a, b);
    if a.Finite? && b.Finite? {
      SeriesSofter(a.r, b.r);
    }
  }

  /**
   * One contact of the callback: `None` for a sensor-only pair; otherwise
   * the product of frictions, the summed bounce when either bounces, and the
   * series spring/damping softness when either spring is finite.
   */
  function Combine(s1: Surface, s2: Surface, step: real): (r: Option<ContactSurface>)
    requires SurfaceOk(s1) && SurfaceOk(s2) && step > 0.0
    ensures r.None? <==> SensorOnly(s1, s2)
  {
    if SensorOnly(s1, s2) then None
    else
      var bounce := if s1.bounce != 0.0 || s2.bounce != 0.0 then Some(s1.bounce + s2.bounce) else None;
      var soft := SoftOf(s1, s2, step);
      Some(ContactSurface(s1.mu * s2.mu, bounce, soft))
  }

  /** The softness override: only when either spring is finite. */
  function SoftOf(s1: Surface, s2: Surface, step: real): (r: Option<Softness>)
    requires SurfaceOk(s1) && SurfaceOk(s2) && step > 0.0 && !SensorOnly(s1, s2)
    ensures r.None? <==> s1.spring.Infinite? && s2.spring.Infinite?
  {
    if s1.spring.Infinite? && s2.spring.Infinite? then None
    else
      SeriesSpringFinite(s1.spring, s2.spring);
      SeriesNonNeg(s1.damping, s2.damping);
      Some(Soften(step, Series(s1.spring, s2.spring).r, Series(s1.damping, s2.damping)))
  }

  /** The series combination of non-negative values is non-negative. */
  lemma SeriesNonNeg(a: Ext, b: Ext)
    requires NonNeg(a) && NonNeg(b)
    ensures NonNeg(Series(a, b))
  {
    if a.Finite? && a.r > 0.0 { assert 1.0 / a.r > 0.0; }
    if b.Finite? && b.r > 0.0 { assert 1.0 / b.r > 0.0; }
    var p := Plus(Recip(a), Recip(b));
    if p.Finite? && p.r > 0.0 { assert 1.0 / p.r > 0.0; }
  }

  /** The combination does not depend on which geom came first. */
  lemma CombineSymmetric(s1: Surface, s2: Surface, step: real)
    requires SurfaceOk(s1) && SurfaceOk(s2) && step > 0.0
    ensures Combine(s1, s2, step) == Combine(s2, s1, step)
  {
    SeriesIdentities(s1.spring, s2.spring);
    SeriesIdentities(s1.damping, s2.damping);
    assert s1.mu * s2.mu == s2.mu * s1.mu;
    assert s1.bounce + s2.bounce == s2.bounce + s1.bounce;
  }

  /**
   * Two default surfaces make a rigid, frictionless, non-bouncing joint:
   * no softness override, because both springs are infinite.
   */
  lemma DefaultsCollideRigidly(step: real)
    requires step > 0.0
    ensures Combine(DefaultSurface, DefaultSurface, step) == Some(ContactSurface(0.0, None, None))
  {
  }

  /**
   * A finite spring meeting an infinitely hard surface keeps its own spring
   * and damping: `erp = h*k/(h*k+d)` with that side's `k` and `d`.
   */
  lemma SoftAgainstHard(s: Surface, step: real)
    requires SurfaceOk(s) && step > 0.0 && s.spring.Finite? && s.spring.r > 0.0
    ensures Combine(s, DefaultSurface, step).Some?
    ensures Combine(s, DefaultSurface, step).value.soft ==
            Some(Soften(step, s.spring.r, s.damping))
  {
    SeriesIdentities(s.spring, Infinite);
    SeriesIdentities(s.damping, Infinite);
  }

  /** Which side of the pair, if any, the wheel simulation handles. */
  datatype WheelSide = NoWheel | FirstWheel | SecondWheel

  /**
   * The first geom is handled as a wheel when only it is a wheel and it has
   * a body; the second likewise; two wheels, or a wheel without a body, make
   * an ordinary contact.
   */
  function WheelChoice(wheel1: bool, wheel2: bool, body1: bool, body2: bool): (r: WheelSide)
    ensures r == FirstWheel <==> wheel1 && !wheel2 && body1
    ensures r == SecondWheel <==> !wheel1 && wheel2 && body2
  {
    if wheel1 then (if !wheel2 && body1 then FirstWheel else NoWheel)
    else if wheel2 && body2 then SecondWheel
    else NoWheel
  }

  /** Swapping the two geoms swaps the wheel side. */
  lemma WheelChoiceSwap(wheel1: bool, wheel2: bool, body1: bool, body2: bool)
    ensures WheelChoice(wheel2, wheel1, body2, body1) ==
            match WheelChoice(wheel1, wheel2, body1, body2)
            case NoWheel => NoWheel
            case FirstWheel => SecondWheel
            case SecondWheel => FirstWheel
  {
  }
}
