/**
 * The damage buffer that Geom and Body share (geom.cpp and body.cpp carry
 * two copies of the same code): a threshold, a remaining capacity and an
 * enabled flag. These functions are the specification the two classes'
 * methods are proved against.
 */
module DamageBuffer {

  /** `buffer_event`, `threshold` and `buffer` of a Geom or Body. */
  datatype Buffer = Buffer(enabled: bool, threshold: real, level: real)

  /** Set_Buffer_Event: the new buffer, given whether a script handle was passed. */
  function Configure(b: Buffer, thres: real, buff: real, hasScript: bool): (r: Buffer)
    ensures r.enabled <==> thres > 0.0 && buff > 0.0 && hasScript
    ensures r.enabled ==> r.threshold == thres && r.level == buff
    ensures !r.enabled ==> r.threshold == b.threshold && r.level == b.level
  {
    if thres > 0.0 && buff > 0.0 && hasScript then Buffer(true, thres, buff)
    else b.(enabled := false)
  }

  /** Whether a hit of `force` during `step` is taken at all. */
  predicate Accepts(b: Buffer, force: real)
  {
    b.enabled && force >= b.threshold
  }

  /** Damage_Buffer: the buffer after one hit. */
  function Damage(b: Buffer, force: real, step: real): Buffer
  {
    if !Accepts(b, force) then b
    else b.(level := b.level - force * step)
  }

  /** Damage_Buffer: whether the hit queues a "depleted" event. */
  predicate Depletes(b: Buffer, force: real, step: real)
  {
    Accepts(b, force) && b.level > 0.0 && b.level - force * step < 0.0
  }

  /** Increase_Buffer: the buffer after adding capacity; the enabled flag is not consulted. */
  function Increase(b: Buffer, add: real): Buffer
  {
    b.(level := b.level + add)
  }

  /** Increase_Buffer: whether it queues a "depleted" event. */
  predicate IncreaseDepletes(b: Buffer, add: real)
  {
    b.level + add < 0.0
  }

  /**
   * A harder hit over the same non-negative step never leaves more capacity
   * than a softer one, and it queues the event whenever the softer one does.
   */
  lemma DamageMonotone(b: Buffer, f1: real, f2: real, step: real)
    requires 0.0 <= f1 <= f2 && step >= 0.0
    ensures Damage(b, f2, step).level <= Damage(b, f1, step).level <= b.level
    ensures Depletes(b, f1, step) ==> Depletes(b, f2, step)
  {
    assert f1 * step <= f2 * step by {
      assert (f2 - f1) * step >= 0.0;
    }
  }

  /**
   * Two taken hits within one step remove as much as a single hit of their
   * summed force, but they can queue fewer events: a first hit landing exactly
   * on zero leaves a level the second hit can no longer "cross".
   */
  lemma SplitHit(b: Buffer, f1: real, f2: real, step: real)
    requires Accepts(b, f1) && Accepts(b, f2) && f1 >= 0.0 && f2 >= 0.0 && step >= 0.0
    ensures Accepts(b, f1 + f2)
    ensures Damage(Damage(b, f1, step), f2, step) == Damage(b, f1 + f2, step)
    ensures EventsOfRun(b, [Hit(f1, step), Hit(f2, step)]) <= (if Depletes(b, f1 + f2, step) then 1 else 0)
  {
    var hs := [Hit(f1, step), Hit(f2, step)];
    var b1 := Damage(b, f1, step);
    assert hs[1..] == [Hit(f2, step)];
    assert hs[1..][1..] == [];
    assert EventsOfRun(b1, [Hit(f2, step)]) == (if Depletes(b1, f2, step) then 1 else 0);
    assert f2 * step >= 0.0;
    assert EventsOfRun(b, hs) == (if Depletes(b, f1, step) then 1 else 0) + (if Depletes(b1, f2, step) then 1 else 0);
    assert (f1 + f2) * step == f1 * step + f2 * step;
  }

  /** The event a split can lose: a full buffer of 1 hit twice with force 1 for a step of 1. */
  lemma SplitHitLosesEvent()
    ensures var b := Buffer(true, 1.0, 1.0);
            EventsOfRun(b, [Hit(1.0, 1.0), Hit(1.0, 1.0)]) == 0 && Depletes(b, 2.0, 1.0)
  {
    var b := Buffer(true, 1.0, 1.0);
    var hs := [Hit(1.0, 1.0), Hit(1.0, 1.0)];
    assert hs[1..] == [Hit(1.0, 1.0)];
    assert hs[1..][1..] == [];
    assert Damage(b, 1.0, 1.0).level == 0.0;
  }

  /** One hit: its force and the step it lasted. */
  datatype Hit = Hit(force: real, step: real)

  /** A hit of non-negative force over a non-negative step can only lower the level. */
  predicate Harmful(h: Hit)
  {
    h.force >= 0.0 && h.step >= 0.0
  }

  /** The buffer after a run of hits, in order. */
  function DamageRun(b: Buffer, hs: seq<Hit>): Buffer
    decreases |hs|
  {
    if hs == [] then b else DamageRun(Damage(b, hs[0].force, hs[0].step), hs[1..])
  }

  /** The number of "depleted" events a run of hits queues. */
  function EventsOfRun(b: Buffer, hs: seq<Hit>): nat
    decreases |hs|
  {
    if hs == [] then 0
    else (if Depletes(b, hs[0].force, hs[0].step) then 1 else 0)
         + EventsOfRun(Damage(b, hs[0].force, hs[0].step), hs[1..])
  }

  /** Hits never change the enabled flag or the threshold, and never raise the level. */
  lemma {:induction false} RunKeepsSettings(b: Buffer, hs: seq<Hit>)
    requires forall i :: 0 <= i < |hs| ==> Harmful(hs[i])
    ensures DamageRun(b, hs).enabled == b.enabled && DamageRun(b, hs).threshold == b.threshold
    ensures DamageRun(b, hs).level <= b.level
    decreases |hs|
  {
    if hs != [] {
      var h := hs[0];
      assert Harmful(h);
      assert h.force * h.step >= 0.0;
      RunKeepsSettings(Damage(b, h.force, h.step), hs[1..]);
    }
  }

  /**
   * Once the level is at or below zero (a hit that lands exactly on zero
   * included), further hits never queue an event.
   */
  lemma {:induction false} NoEventsOnceEmpty(b: Buffer, hs: seq<Hit>)
    requires b.level <= 0.0
    requires forall i :: 0 <= i < |hs| ==> Harmful(hs[i])
    ensures EventsOfRun(b, hs) == 0
    decreases |hs|
  {
    if hs != [] {
      var h := hs[0];
      assert Harmful(h);
      assert h.force * h.step >= 0.0;
      NoEventsOnceEmpty(Damage(b, h.force, h.step), hs[1..]);
    }
  }

  /** A run of hits queues at most one event, and only if it took the level from above zero to below it. */
  lemma {:induction false} AtMostOneDepletion(b: Buffer, hs: seq<Hit>)
    requires forall i :: 0 <= i < |hs| ==> Harmful(hs[i])
    ensures EventsOfRun(b, hs) <= 1
    ensures EventsOfRun(b, hs) == 1 ==> b.level > 0.0 && DamageRun(b, hs).level < 0.0
    decreases |hs|
  {
    if hs != [] {
      var h := hs[0];
      var b' := Damage(b, h.force, h.step);
      assert Harmful(h);
      assert h.force * h.step >= 0.0;
      if Depletes(b, h.force, h.step) {
        NoEventsOnceEmpty(b', hs[1..]);
        RunKeepsSettings(b', hs[1..]);
      } else {
        AtMostOneDepletion(b', hs[1..]);
      }
    }
  }

  /** One more hit at the end of a run acts on the buffer the run left. */
  lemma {:induction false} RunSnoc(b: Buffer, hs: seq<Hit>, h: Hit)
    ensures DamageRun(b, hs + [h]) == Damage(DamageRun(b, hs), h.force, h.step)
    ensures EventsOfRun(b, hs + [h]) ==
            EventsOfRun(b, hs) + (if Depletes(DamageRun(b, hs), h.force, h.step) then 1 else 0)
    decreases |hs|
  {
    if hs == [] {
      assert [h][1..] == [];
    } else {
      assert (hs + [h])[0] == hs[0];
      assert (hs + [h])[1..] == hs[1..] + [h];
      RunSnoc(Damage(b, hs[0].force, hs[0].step), hs[1..], h);
    }
  }

  /**
   * Increase_Buffer queues a new event whenever the level stays negative,
   * even when no new crossing took place: two small top-ups of an empty
   * buffer queue two events.
   */
  lemma IncreaseRequeues(b: Buffer, add1: real, add2: real)
    requires b.level + add1 + add2 < 0.0
    requires add1 >= 0.0 && add2 >= 0.0
    ensures IncreaseDepletes(b, add1) && IncreaseDepletes(Increase(b, add1), add2)
  {
  }
}
