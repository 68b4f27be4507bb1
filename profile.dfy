/**
 * Player profiles (profile.cpp): the global `profile_head` list, the key
 * lookup `get_key`, and Profile_Load, which fills a new profile from the
 * defaults, the profile's conf file and its key list (`keys.lst`).
 *
 * The conf part of a profile is the typed slot block Load_Conf writes
 * (`settings`); the nine input bindings are `input`. `SDL_GetKeyName` is
 * the parameter `keyName`, `atoi` the parameter `atoi`; the files are given
 * as their lines of words, or None when they cannot be opened.
 */
module Profiles {
  import opened Wrappers
  import opened Seqs
  import opened Conf

  const SDLK_FIRST: int := 0
  const SDLK_UNKNOWN: int := 0
  const SDLK_LAST: int := 323

  const SDL_HAT_UP: int := 1
  const SDL_HAT_RIGHT: int := 2
  const SDL_HAT_DOWN: int := 4
  const SDL_HAT_LEFT: int := 8

  /** `profile_input_list`: the nine actions, in the order of `input`. */
  const ACTIONS: seq<string> := ["forward", "reverse", "right", "left", "drift_brake", "camera1", "camera2", "camera3", "camera4"]

  /** One input binding: keyboard key, joystick axis with its range, button, hat and hat position. */
  datatype Input = Input(key: int, axis: int, axisMin: int, axisMax: int, button: int, hat: int, hatpos: int)

  /** `profile_defaults`: the values every new profile starts from. */
  datatype Defaults = Defaults(settings: seq<Value>, input: seq<Input>)

  /** `enum_increment`: the successor in `begin..end`, wrapping from `end` back to `begin`. */
  function EnumIncrement(v: int, begin: int, end: int): (r: int)
    ensures begin <= v <= end ==> begin <= r <= end
    ensures r == begin <==> v == end || v + 1 == begin
    ensures v != end ==> r == v + 1
  {
    if v == end then begin else v + 1
  }

  /** The first key in `k..SDLK_LAST` whose name is `name`, or SDLK_UNKNOWN. */
  function KeyFrom(name: string, keyName: int -> string, k: int): (r: int)
    requires SDLK_FIRST <= k <= SDLK_LAST
    ensures r == SDLK_UNKNOWN || (k <= r < SDLK_LAST && keyName(r) == name)
    ensures forall j :: k <= j < SDLK_LAST && j < r ==> keyName(j) != name
    ensures r == SDLK_UNKNOWN && k > SDLK_UNKNOWN ==> forall j :: k <= j < SDLK_LAST ==> keyName(j) != name
    decreases SDLK_LAST - k
  {
    if k == SDLK_LAST then SDLK_UNKNOWN
    else if keyName(k) == name then k
    else KeyFrom(name, keyName, k + 1)
  }

  /**
   * The key `get_key` returns: the first key whose name is `name`; when
   * none has it, SDLK_UNKNOWN.
   */
  function KeyOf(name: string, keyName: int -> string): (r: int)
    ensures SDLK_FIRST <= r < SDLK_LAST
    ensures r != SDLK_UNKNOWN ==> keyName(r) == name && forall j :: SDLK_FIRST <= j < r ==> keyName(j) != name
    ensures (forall j :: SDLK_FIRST <= j < SDLK_LAST ==> keyName(j) != name) ==> r == SDLK_UNKNOWN
  {
    KeyFrom(name, keyName, SDLK_FIRST)
  }

  /** get_key: walks the keys with `++key` (enum_increment) until a name matches. */
  method Get_Key(name: string, keyName: int -> string) returns (key: int)
    ensures key == KeyOf(name, keyName)
  {
    key := SDLK_FIRST;
    while key < SDLK_LAST
      invariant SDLK_FIRST <= key <= SDLK_LAST
      invariant KeyFrom(name, keyName, key) == KeyOf(name, keyName)
      decreases SDLK_LAST - key
    {
      if keyName(key) == name {
        return key;
      }
      key := EnumIncrement(key, SDLK_FIRST, SDLK_LAST);
    }
    return SDLK_UNKNOWN;
  }

  /** The SDL hat position a direction word names. */
  function HatPosition(w: string): Option<int>
  {
    if w == "up" then Some(SDL_HAT_UP)
    else if w == "down" then Some(SDL_HAT_DOWN)
    else if w == "right" then Some(SDL_HAT_RIGHT)
    else if w == "left" then Some(SDL_HAT_LEFT)
    else None
  }

  /** The four line shapes a binding may take. */
  predicate WellShaped(words: seq<string>)
  {
    (|words| == 3 && words[1] == "key") || (|words| == 5 && words[1] == "axis") ||
    (|words| == 3 && words[1] == "button") || (|words| == 4 && words[1] == "hat")
  }

  /**
   * A binding after a line naming its action: each shape sets only its own
   * fields; a hat line with an unknown direction sets `hat` to 255 and
   * keeps the position; a line of any other shape changes nothing.
   */
  function Bind(b: Input, words: seq<string>, atoi: string -> int, keyName: int -> string): (r: Input)
    ensures !WellShaped(words) ==> r == b
    ensures |words| == 3 && words[1] == "key" ==> r.key == KeyOf(words[2], keyName) && r.(key := b.key) == b
    ensures |words| == 5 && words[1] == "axis" ==>
      r.axis == atoi(words[2]) && r.axisMin == atoi(words[3]) && r.axisMax == atoi(words[4]) &&
      r.(axis := b.axis, axisMin := b.axisMin, axisMax := b.axisMax) == b
    ensures |words| == 3 && words[1] == "button" ==> r.button == atoi(words[2]) && r.(button := b.button) == b
    ensures |words| == 4 && words[1] == "hat" ==>
      r.(hat := b.hat, hatpos := b.hatpos) == b &&
      (r.hat == 255 || r.hat == atoi(words[2])) &&
      (r.hatpos in {SDL_HAT_UP, SDL_HAT_DOWN, SDL_HAT_RIGHT, SDL_HAT_LEFT} || r.hatpos == b.hatpos) &&
      (HatPosition(words[3]).None? ==> r.hat == 255 && r.hatpos == b.hatpos) &&
      (HatPosition(words[3]).Some? ==> r.hat == atoi(words[2]) && r.hatpos == HatPosition(words[3]).value)
  {
    if |words| == 3 && words[1] == "key" then b.(key := KeyOf(words[2], keyName))
    else if |words| == 5 && words[1] == "axis" then b.(axis := atoi(words[2]), axisMin := atoi(words[3]), axisMax := atoi(words[4]))
    else if |words| == 3 && words[1] == "button" then b.(button := atoi(words[2]))
    else if |words| == 4 && words[1] == "hat" then
      match HatPosition(words[3])
      case Some(p) => b.(hat := atoi(words[2]), hatpos := p)
      case None => b.(hat := 255)
    else b
  }

  /** Binding `i` after one key-list line: changed only by a line naming action `i`. */
  function InputAfter(b: Input, i: int, words: seq<string>, atoi: string -> int, keyName: int -> string): Input
    requires |words| > 0
  {
    if 0 <= i < |ACTIONS| && words[0] == ACTIONS[i] then Bind(b, words, atoi, keyName) else b
  }

  /** Binding `i` after a sequence of key-list lines. */
  function InputAfterAll(b: Input, i: int, lines: seq<seq<string>>, atoi: string -> int, keyName: int -> string): Input
    requires forall l :: 0 <= l < |lines| ==> |lines[l]| > 0
    decreases |lines|
  {
    if lines == [] then b
    else
      var last := |lines| - 1;
      InputAfter(InputAfterAll(b, i, lines[..last], atoi, keyName), i, lines[last], atoi, keyName)
  }

  /** Lines whose first word is no action name leave every binding as it was. */
  lemma {:induction false} UnknownActionsIgnored(b: Input, i: int, lines: seq<seq<string>>, atoi: string -> int, keyName: int -> string)
    requires forall l :: 0 <= l < |lines| ==> |lines[l]| > 0 && lines[l][0] !in ACTIONS
    ensures InputAfterAll(b, i, lines, atoi, keyName) == b
    decreases |lines|
  {
    if lines != [] {
      UnknownActionsIgnored(b, i, lines[..|lines| - 1], atoi, keyName);
    }
  }

  /** The camera check: a default camera outside 1..4 becomes 3. */
  function CameraChecked(v: Value): (r: Value)
    ensures r.Int? && 1 <= r.i <= 4
    ensures v.Int? && 0 < v.i < 5 ==> r == v
    ensures r != v ==> r == Int(3)
  {
    if v.Int? && 0 < v.i && v.i < 5 then v else Int(3)
  }

  /** The branches of the key-list loop for a line naming the action bound by `b0`. */
  method Bind_Line(b0: Input, words: seq<string>, atoi: string -> int, keyName: int -> string) returns (b: Input)
    requires |words| > 0
    ensures b == Bind(b0, words, atoi, keyName)
  {
    b := b0;
    if |words| == 3 && words[1] == "key" {
      var k := Get_Key(words[2], keyName);
      b := b.(key := k);
    } else if |words| == 5 && words[1] == "axis" {
      b := b.(axis := atoi(words[2]), axisMin := atoi(words[3]), axisMax := atoi(words[4]));
    } else if |words| == 3 && words[1] == "button" {
      b := b.(button := atoi(words[2]));
    } else if |words| == 4 && words[1] == "hat" {
      b := b.(hat := atoi(words[2]));
      if words[3] == "up" {
        b := b.(hatpos := SDL_HAT_UP);
      } else if words[3] == "down" {
        b := b.(hatpos := SDL_HAT_DOWN);
      } else if words[3] == "right" {
        b := b.(hatpos := SDL_HAT_RIGHT);
      } else if words[3] == "left" {
        b := b.(hatpos := SDL_HAT_LEFT);
      } else {
        b := b.(hat := 255);
      }
    }
  }

  class Profile {
    /** The slots of `profile_index` (among them `camera_default`). */
    const settings: array<Value>
    const input: array<Input>
    var prev: Profile?
    var next: Profile?

    /** A profile holding the defaults, not yet in the list. */
    constructor (d: Defaults)
      ensures fresh(settings) && fresh(input)
      ensures settings[..] == d.settings && input[..] == d.input
      ensures prev == null && next == null
    {
      settings := new Value[|d.settings|](i requires 0 <= i < |d.settings| => d.settings[i]);
      input := new Input[|d.input|](i requires 0 <= i < |d.input| => d.input[i]);
      prev := null;
      next := null;
    }

    /**
     * The key-list loop of Profile_Load: each line is matched against the
     * nine action names, and a matching action takes the line's binding.
     */
    method Load_Keys(lines: seq<seq<string>>, atoi: string -> int, keyName: int -> string)
      requires input.Length == |ACTIONS|
      requires forall l :: 0 <= l < |lines| ==> |lines[l]| > 0
      modifies input
      ensures forall i :: 0 <= i < input.Length ==> input[i] == InputAfterAll(old(input[i]), i, lines, atoi, keyName)
    {
      var n := 0;
      while n < |lines|
        invariant n <= |lines|
        invariant forall i :: 0 <= i < input.Length ==> input[i] == InputAfterAll(old(input[i]), i, lines[..n], atoi, keyName)
      {
        assert lines[..n + 1][..n] == lines[..n];
        Key_Line(lines[n], atoi, keyName);
        n := n + 1;
      }
      assert lines[..n] == lines;
    }

    /** One key-list line: `for (i=0; i<9; ++i)` over the action names. */
    method Key_Line(words: seq<string>, atoi: string -> int, keyName: int -> string)
      requires input.Length == |ACTIONS| && |words| > 0
      modifies input
      ensures forall i :: 0 <= i < input.Length ==> input[i] == InputAfter(old(input[i]), i, words, atoi, keyName)
    {
      for i := 0 to 9
        invariant forall j :: 0 <= j < input.Length ==> input[j] == if j < i then InputAfter(old(input[j]), j, words, atoi, keyName) else old(input[j])
      {
        if ACTIONS[i] == words[0] {
          input[i] := Bind_Line(input[i], words, atoi, keyName);
        }
      }
    }
  }

  /** The global list `profile_head`, with the sequence of profiles it links. */
  class ProfileList {
    var head: Profile?
    ghost var nodes: seq<Profile>

    ghost function Members(): set<Profile>
      reads this
    {
      set x | x in nodes
    }

    /** `head` is the first node, every `prev`/`next` names its neighbour, and no node repeats. */
    ghost predicate Linked()
      reads this, Members()`prev, Members()`next
    {
      (head == if nodes == [] then null else nodes[0]) &&
      (forall i {:trigger nodes[i].prev} :: 0 <= i < |nodes| ==>
         nodes[i].prev == (if i == 0 then null else nodes[i-1])) &&
      (forall i {:trigger nodes[i].next} :: 0 <= i < |nodes| ==>
         nodes[i].next == (if i + 1 < |nodes| then nodes[i+1] else null)) &&
      Distinct(nodes)
    }

    ghost function IndexOf(n: Profile): (i: nat)
      reads this
      requires n in nodes
      ensures i < |nodes| && nodes[i] == n
    {
      var i :| 0 <= i < |nodes| && nodes[i] == n; i
    }

    constructor ()
      ensures Linked() && nodes == [] && head == null
    {
      head := null;
      nodes := [];
    }

    /** The list insertion of Profile_Load: `next = profile_head`, `prev = NULL`, `profile_head = prof`. */
    method Push(n: Profile)
      requires Linked() && n !in nodes
      modifies this`head, this`nodes, n`prev, n`next, {head}`prev
      ensures Linked() && nodes == [n] + old(nodes) && head == n
    {
      ghost var s := nodes;
      n.next := head;
      n.prev := null;
      head := n;
      if n.next != null {
        n.next.prev := n;
      }
      nodes := [n] + s;
      forall j | 0 <= j < |nodes|
        ensures nodes[j].prev == (if j == 0 then null else nodes[j-1])
        ensures nodes[j].next == (if j + 1 < |nodes| then nodes[j+1] else null)
      {
        if j > 0 {
          assert nodes[j] == s[j-1] && s[j-1] != n;
          if j + 1 < |nodes| { assert nodes[j+1] == s[j]; }
          if j > 1 { DistinctAt(s, j - 1, 0); }
        }
      }
      assert nodes[1..] == s;
    }

    /** The link surgery of Profile_Remove: fix `profile_head` or `prev->next`, then `next->prev`. */
    method Splice(n: Profile)
      modifies this`head, {n.prev}`next, {n.next}`prev
      ensures head == if old(n.prev) == null then old(n.next) else old(head)
      ensures forall x: Profile :: old(allocated(x)) ==> x.prev == if x == old(n.next) then old(n.prev) else old(x.prev)
      ensures forall x: Profile :: old(allocated(x)) ==> x.next == if x == old(n.prev) then old(n.next) else old(x.next)
    {
      if n.prev == null {
        head := n.next;
      } else {
        n.prev.next := n.next;
      }
      if n.next != null {
        n.next.prev := n.prev;
      }
    }

    /** Profile_Remove: the list stays linked and loses exactly `target`. */
    method Profile_Remove(target: Profile)
      requires Linked() && target in nodes
      modifies this`head, this`nodes, Members()`prev, Members()`next
      ensures Linked() && nodes == Without(old(nodes), target)
    {
      ghost var i := IndexOf(target);
      ghost var s := nodes;
      ghost var p: Profile? := if i == 0 then null else s[i-1];
      ghost var q: Profile? := if i + 1 < |s| then s[i+1] else null;
      assert target.prev == p && target.next == q;
      Splice(target);
      WithoutAt(s, i);
      DistinctRemove(s, i);
      nodes := s[..i] + s[i+1..];
      ProfileUnlinkKeepsLinked(this, s, i, p, q);
    }

    /** Profile_Remove_All: removes the head until the list is empty. */
    method Profile_Remove_All()
      requires Linked()
      modifies this`head, this`nodes, Members()`prev, Members()`next
      ensures Linked() && nodes == [] && head == null
    {
      while head != null
        invariant Linked()
        invariant forall x :: x in nodes ==> x in old(nodes)
        decreases |nodes|
      {
        ghost var s := nodes;
        WithoutAt(s, 0);
        Profile_Remove(head);
        WithoutIncluded(s, s[0]);
      }
    }

    /**
     * Profile_Load, with the defaults assigned before the profile is
     * linked: the new profile heads the list, its conf slots are the
     * defaults after the conf lines (with the camera checked), and each
     * binding is its default after the key-list lines.
     */
    method Profile_Load(d: Defaults, conf: Option<seq<seq<string>>>, keys: Option<seq<seq<string>>>,
                        index: seq<Entry>, conv: Converters, stringSize: int, camera: nat,
                        atoi: string -> int, keyName: int -> string)
      returns (prof: Profile)
      requires Linked()
      requires Terminated(index) && Fits(index, |d.settings|) && camera < |d.settings| && |d.input| == |ACTIONS|
      requires conf.Some? ==> forall l :: 0 <= l < |conf.value| ==> |conf.value[l]| > 0
      requires keys.Some? ==> forall l :: 0 <= l < |keys.value| ==> |keys.value[l]| > 0
      modifies this`head, this`nodes, Members()`prev
      ensures fresh(prof) && Linked() && nodes == [prof] + old(nodes) && head == prof
      ensures prof.settings.Length == |d.settings| && prof.input.Length == |ACTIONS|
      ensures forall j :: 0 <= j < prof.settings.Length && j != camera ==>
        prof.settings[j] == ConfSlot(d.settings[j], j, conf, index, conv, stringSize)
      ensures prof.settings[camera] == CameraChecked(ConfSlot(d.settings[camera], camera, conf, index, conv, stringSize))
      ensures forall i :: 0 <= i < |ACTIONS| ==>
        prof.input[i] == (if keys.Some? then InputAfterAll(d.input[i], i, keys.value, atoi, keyName) else d.input[i])
    {
      prof := new Profile(d);
      Push(prof);
      var _ := Load_Conf(conf, prof.settings, index, conv, stringSize);
      if !(prof.settings[camera].Int? && 0 < prof.settings[camera].i && prof.settings[camera].i < 5) {
        prof.settings[camera] := Int(3);
      }
      if keys.Some? {
        prof.Load_Keys(keys.value, atoi, keyName);
      }
    }

    /**
     * Profile_Load's list handling as written: the profile is linked at
     * the head, then `*prof = profile_defaults` copies the whole struct,
     * links included, and the defaults' links are null. The old head still
     * points back at the new profile, but the new profile no longer leads
     * to it: every earlier profile drops out of the list.
     */
    method Profile_Link_AsWritten(d: Defaults) returns (prof: Profile)
      requires Linked()
      modifies this`head, this`nodes, Members()`prev
      ensures fresh(prof) && head == prof && prof.next == null && prof.prev == null
      ensures nodes == [prof] + old(nodes)
      ensures old(nodes) != [] ==> old(nodes)[0].prev == prof && !Linked()
    {
      prof := new Profile(d);
      Push(prof);
      prof.next, prof.prev := null, null;
      if |nodes| > 1 {
        assert nodes[1] == old(nodes)[0] && nodes[0].next != nodes[1];
      }
    }
  }

  /** A conf slot after Load_Conf: the defaults when the file is missing. */
  function ConfSlot(v: Value, j: int, conf: Option<seq<seq<string>>>, index: seq<Entry>, conv: Converters, stringSize: int): Value
    requires Terminated(index)
    requires conf.Some? ==> forall l :: 0 <= l < |conf.value| ==> |conf.value[l]| > 0
  {
    if conf.Some? then SlotAfterAll(v, j, conf.value, index, conv, stringSize) else v
  }

  /** After Splice, the list without the `i`-th node is linked again. */
  twostate lemma ProfileUnlinkKeepsLinked(new l: ProfileList, new s: seq<Profile>, new i: nat, new p: Profile?, new q: Profile?)
    requires old(allocated(l)) && old(allocated(s))
    requires old(l.Linked()) && old(l.nodes) == s && i < |s|
    requires p == (if i == 0 then null else s[i-1]) && q == (if i + 1 < |s| then s[i+1] else null)
    requires forall x: Profile :: old(allocated(x)) ==> x.prev == if x == q then p else old(x.prev)
    requires forall x: Profile :: old(allocated(x)) ==> x.next == if x == p then q else old(x.next)
    requires l.head == if i == 0 then q else old(l.head)
    requires l.nodes == s[..i] + s[i+1..] && Distinct(l.nodes)
    ensures l.Linked()
  {
    ProfileUnlinkKeepsLinkedPrev(l, s, i, p, q);
    ProfileUnlinkKeepsLinkedNext(l, s, i, p, q);
  }

  twostate lemma ProfileUnlinkKeepsLinkedPrev(new l: ProfileList, new s: seq<Profile>, new i: nat, new p: Profile?, new q: Profile?)
    requires old(allocated(l)) && old(allocated(s))
    requires old(l.Linked()) && old(l.nodes) == s && i < |s|
    requires p == (if i == 0 then null else s[i-1]) && q == (if i + 1 < |s| then s[i+1] else null)
    requires forall x: Profile :: old(allocated(x)) ==> x.prev == if x == q then p else old(x.prev)
    requires l.nodes == s[..i] + s[i+1..]
    ensures forall j {:trigger l.nodes[j].prev} :: 0 <= j < |l.nodes| ==>
              l.nodes[j].prev == (if j == 0 then null else l.nodes[j-1])
  {
    forall j | 0 <= j < |s|
      ensures s[j].prev == if j == i + 1 then p else old(s[j].prev)
    {
      if j != i + 1 && q != null { DistinctAt(s, j, i + 1); }
    }
    var t := l.nodes;
    forall j {:trigger t[j].prev} | 0 <= j < |t|
      ensures t[j].prev == (if j == 0 then null else t[j-1])
    {
      if j < i {
        assert t[j] == s[j];
        assert old(s[j].prev) == (if j == 0 then null else s[j-1]);
      } else {
        assert t[j] == s[j+1];
        assert old(s[j+1].prev) == s[j];
        if j > 0 { assert t[j-1] == if j - 1 < i then s[j-1] else s[j]; }
      }
    }
  }

  twostate lemma ProfileUnlinkKeepsLinkedNext(new l: ProfileList, new s: seq<Profile>, new i: nat, new p: Profile?, new q: Profile?)
    requires old(allocated(l)) && old(allocated(s))
    requires old(l.Linked()) && old(l.nodes) == s && i < |s|
    requires p == (if i == 0 then null else s[i-1]) && q == (if i + 1 < |s| then s[i+1] else null)
    requires forall x: Profile :: old(allocated(x)) ==> x.next == if x == p then q else old(x.next)
    requires l.nodes == s[..i] + s[i+1..]
    ensures forall j {:trigger l.nodes[j].next} :: 0 <= j < |l.nodes| ==>
              l.nodes[j].next == (if j + 1 < |l.nodes| then l.nodes[j+1] else null)
  {
    forall j | 0 <= j < |s|
      ensures s[j].next == if j + 1 == i then q else old(s[j].next)
    {
      if j + 1 != i && p != null { DistinctAt(s, j, i - 1); }
    }
    var t := l.nodes;
    forall j {:trigger t[j].next} | 0 <= j < |t|
      ensures t[j].next == (if j + 1 < |t| then t[j+1] else null)
    {
      if j < i {
        assert t[j] == s[j];
        assert old(s[j].next) == s[j+1];
        if j + 1 < |t| { assert t[j+1] == if j + 1 < i then s[j+1] else s[j+2]; }
      } else {
        assert t[j] == s[j+1];
        assert old(s[j+1].next) == (if j + 2 < |s| then s[j+2] else null);
        if j + 1 < |t| { assert t[j+1] == s[j+2]; }
      }
    }
  }
}
