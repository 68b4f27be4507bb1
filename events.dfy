/**
 * The deferred event queue of the simulation (event_buffers.cpp is not part of
 * this model). Only its interface is modelled: the three `Event_Buffer_Add_*`
 * calls append one entry naming its kind and its target, and
 * `Event_Buffer_Remove_All(t)` drops every pending entry for `t`. Whether the
 * real queue merges duplicates, and how it is flushed, is left open.
 */
module EventBuffers {

  /** What happened: a damage buffer ran out, a sensor changed state, an object became inactive. */
  datatype EventKind = Depleted | Triggered | Inactive

  /** One queued entry: the kind of event and the Body, Geom or Object it is about. */
  datatype Event = Event(kind: EventKind, target: object)

  /** The pending entries that `Event_Buffer_Remove_All(t)` leaves behind, in their original order. */
  function Purge(s: seq<Event>, t: object): (r: seq<Event>)
    ensures |r| <= |s|
    ensures forall e :: e in r ==> e in s && e.target != t
    ensures forall e :: e in s && e.target != t ==> e in r
  {
    if s == [] then []
    else (if s[0].target == t then [] else [s[0]]) + Purge(s[1..], t)
  }

  /** The queue after purging each target of `ts` in turn. */
  function PurgeAll(s: seq<Event>, ts: seq<object>): (r: seq<Event>)
    ensures forall e :: e in r ==> e in s && e.target !in ts
    ensures forall e :: e in s && e.target !in ts ==> e in r
    decreases ts
  {
    if ts == [] then s else PurgeAll(Purge(s, ts[0]), ts[1..])
  }

  /** Number of entries of one kind for one target. */
  function Count(s: seq<Event>, k: EventKind, t: object): nat
  {
    if s == [] then 0
    else (if s[0] == Event(k, t) then 1 else 0) + Count(s[1..], k, t)
  }

  /** Purging distributes over the two halves of a queue. */
  lemma {:induction false} PurgeAppend(a: seq<Event>, b: seq<Event>, t: object)
    ensures Purge(a + b, t) == Purge(a, t) + Purge(b, t)
  {
    if a == [] {
      assert a + b == b;
    } else {
      assert (a + b)[1..] == a[1..] + b;
      PurgeAppend(a[1..], b, t);
    }
  }

  /** An entry appended for the purged target itself disappears in the purge. */
  lemma PurgeDropsOwnEvent(s: seq<Event>, k: EventKind, t: object)
    ensures Purge(s + [Event(k, t)], t) == Purge(s, t)
  {
    PurgeAppend(s, [Event(k, t)], t);
    assert [Event(k, t)][1..] == [];
  }

  /** An entry appended for some other target survives a purge, still last. */
  lemma PurgeKeepsOtherEvent(s: seq<Event>, e: Event, t: object)
    requires e.target != t
    ensures Purge(s + [e], t) == Purge(s, t) + [e]
  {
    PurgeAppend(s, [e], t);
    assert [e][1..] == [];
  }

  /** Purging twice is purging once. */
  lemma {:induction false} PurgeIdempotent(s: seq<Event>, t: object)
    ensures Purge(Purge(s, t), t) == Purge(s, t)
  {
    if s != [] {
      PurgeIdempotent(s[1..], t);
      PurgeAppend(if s[0].target == t then [] else [s[0]], Purge(s[1..], t), t);
      if s[0].target != t {
        assert [s[0]][1..] == [];
      }
    }
  }

  /** After `Event_Buffer_Remove_All(t)` no entry of any kind is pending for `t`. */
  lemma {:induction false} PurgeLeavesNone(s: seq<Event>, k: EventKind, t: object)
    ensures Count(Purge(s, t), k, t) == 0
  {
    if s != [] {
      PurgeLeavesNone(s[1..], k, t);
      CountAppend(if s[0].target == t then [] else [s[0]], Purge(s[1..], t), k, t);
      if s[0].target != t {
        assert [s[0]][1..] == [];
      }
    }
  }

  lemma {:induction false} CountAppend(a: seq<Event>, b: seq<Event>, k: EventKind, t: object)
    ensures Count(a + b, k, t) == Count(a, k, t) + Count(b, k, t)
  {
    if a == [] {
      assert a + b == b;
    } else {
      assert (a + b)[1..] == a[1..] + b;
      CountAppend(a[1..], b, k, t);
    }
  }

  /** The queue itself: a class whose one field the three add calls and the purge update. */
  class EventQueue {
    var entries: seq<Event>

    constructor ()
      ensures entries == []
    {
      entries := [];
    }

    /** Event_Buffer_Add_Depleted */
    method AddDepleted(t: object)
      modifies this
      ensures entries == old(entries) + [Event(Depleted, t)]
    {
      entries := entries + [Event(Depleted, t)];
    }

    /** Event_Buffer_Add_Triggered */
    method AddTriggered(t: object)
      modifies this
      ensures entries == old(entries) + [Event(Triggered, t)]
    {
      entries := entries + [Event(Triggered, t)];
    }

    /** Event_Buffer_Add_Inactive */
    method AddInactive(t: object)
      modifies this
      ensures entries == old(entries) + [Event(Inactive, t)]
    {
      entries := entries + [Event(Inactive, t)];
    }

    /** Event_Buffer_Remove_All */
    method RemoveAll(t: object)
      modifies this
      ensures entries == Purge(old(entries), t)
    {
      entries := Purge(entries, t);
    }
  }
}
