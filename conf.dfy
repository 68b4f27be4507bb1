/**
 * Load_Conf (conf.cpp): a table-driven loader of `name value...` lines.
 * The table (`Conf_Index`) names each parameter with its type letter, its
 * place in the caller's memory block and how many values it takes; a line
 * naming a parameter writes each of its values into the parameter's slots.
 *
 * The memory block is an array of typed slots: `offset` counts slots, not
 * bytes, and slot `offset + argnr` is the `argnr`-th value of the
 * parameter. The number converters (`strtof`, `strtod`, `strtol`) are
 * parameters: each says whether it consumed any character and what it read.
 */
module Conf {
  import opened Wrappers

  datatype Value = Float(f: real) | Double(d: real) | DReal(r: real) | Bool(b: bool) | Int(i: int) | Str(s: string)

  /** One `Conf_Index` entry; the list ends at the first entry whose `type` is 0. */
  datatype Entry = Entry(name: string, kind: char, offset: int, length: int)

  /** What a C number converter reports: whether `endptr` moved, and the value read. */
  datatype Parsed<T> = Parsed(consumed: bool, value: T)

  datatype Converters = Converters(
    strtof: string -> Parsed<real>,
    strtod: string -> Parsed<real>,
    strtol: string -> Parsed<int>)

  /** The table has its terminator. */
  predicate Terminated(index: seq<Entry>)
  {
    exists t :: 0 <= t < |index| && index[t].kind == 0 as char
  }

  /** Every parameter that takes values has its slots inside a memory block of `size` slots. */
  predicate Fits(index: seq<Entry>, size: int)
  {
    forall i :: 0 <= i < |index| && index[i].kind != 0 as char && index[i].length > 0 ==>
      0 <= index[i].offset && index[i].offset + index[i].length <= size
  }

  /**
   * The index lookup: the first entry that is either the terminator or
   * named `w`; all entries before it are neither.
   */
  function Lookup(index: seq<Entry>, w: string): (i: nat)
    requires Terminated(index)
    ensures i < |index| && (index[i].kind == 0 as char || index[i].name == w)
    ensures forall j :: 0 <= j < i ==> index[j].kind != 0 as char && index[j].name != w
  {
    LookupFrom(index, w, 0)
  }

  function LookupFrom(index: seq<Entry>, w: string, i: nat): (r: nat)
    requires exists t :: i <= t < |index| && index[t].kind == 0 as char
    ensures i <= r < |index| && (index[r].kind == 0 as char || index[r].name == w)
    ensures forall j :: i <= j < r ==> index[j].kind != 0 as char && index[j].name != w
    decreases |index| - i
  {
    if index[i].kind == 0 as char || index[i].name == w then i
    else LookupFrom(index, w, i + 1)
  }

  /** ASCII lower case, as `strcasecmp` compares in the C locale. */
  function Lower(c: char): char
  {
    if 'A' <= c <= 'Z' then (c as int - 'A' as int + 'a' as int) as char else c
  }

  /** `strcasecmp(a, b) == 0`. */
  predicate SameIgnoringCase(a: string, b: string)
  {
    |a| == |b| && forall k :: 0 <= k < |a| ==> Lower(a[k]) == Lower(b[k])
  }

  predicate MeansTrue(w: string)
  {
    SameIgnoringCase(w, "true") || SameIgnoringCase(w, "on") || SameIgnoringCase(w, "yes") || w == "1"
  }

  predicate MeansFalse(w: string)
  {
    SameIgnoringCase(w, "false") || SameIgnoringCase(w, "off") || SameIgnoringCase(w, "no") || w == "0"
  }

  /**
   * The value a slot of type `kind` holds after reading word `w`: a number
   * only when the converter consumed something, a boolean only for a word
   * of the two lists, a string only when shorter than `stringSize`
   * (`Conf_String_Size`); otherwise, and for an unknown type, the slot
   * keeps `v`.
   */
  function Store(kind: char, w: string, v: Value, conv: Converters, stringSize: int): (r: Value)
    ensures r != v ==> kind in {'f', 'd', 'R', 'b', 'i', 's'}
    ensures kind == 'b' ==> r == (if MeansTrue(w) then Bool(true) else if MeansFalse(w) then Bool(false) else v)
    ensures kind == 's' ==> (r == Str(w) <==> |w| < stringSize || v == Str(w))
  {
    match kind
    case 'f' => var p := conv.strtof(w); if p.consumed then Float(p.value) else v
    case 'd' => var p := conv.strtod(w); if p.consumed then Double(p.value) else v
    case 'R' => var p := conv.strtod(w); if p.consumed then DReal(p.value) else v
    case 'b' => if MeansTrue(w) then Bool(true) else if MeansFalse(w) then Bool(false) else v
    case 'i' => var p := conv.strtol(w); if p.consumed then Int(p.value) else v
    case 's' => if |w| < stringSize then Str(w) else v
    case _ => v
  }

  /**
   * Slot `j` after one line: changed only when the line names a parameter,
   * has exactly one word per value, and `j` is one of the parameter's slots;
   * then it reads the word for that slot.
   */
  function SlotAfter(v: Value, j: int, words: seq<string>, index: seq<Entry>, conv: Converters, stringSize: int): Value
    requires Terminated(index) && |words| > 0
  {
    var e := index[Lookup(index, words[0])];
    if e.kind == 0 as char || e.length + 1 != |words| || !(e.offset <= j < e.offset + e.length) then v
    else Store(e.kind, words[j - e.offset + 1], v, conv, stringSize)
  }

  /** Slot `j` after a sequence of lines. */
  function SlotAfterAll(v: Value, j: int, lines: seq<seq<string>>, index: seq<Entry>, conv: Converters, stringSize: int): Value
    requires Terminated(index) && forall l :: 0 <= l < |lines| ==> |lines[l]| > 0
    decreases |lines|
  {
    if lines == [] then v
    else
      var last := |lines| - 1;
      SlotAfter(SlotAfterAll(v, j, lines[..last], index, conv, stringSize), j, lines[last], index, conv, stringSize)
  }

  /** The slots a line may write: those of the parameter it names. */
  predicate Covers(words: seq<string>, index: seq<Entry>, j: int)
    requires Terminated(index) && |words| > 0
  {
    var e := index[Lookup(index, words[0])];
    e.kind != 0 as char && e.length + 1 == |words| && e.offset <= j < e.offset + e.length
  }

  /** A slot no line covers keeps its value, whatever the lines say. */
  lemma {:induction false} UncoveredKept(v: Value, j: int, lines: seq<seq<string>>, index: seq<Entry>, conv: Converters, stringSize: int)
    requires Terminated(index) && forall l :: 0 <= l < |lines| ==> |lines[l]| > 0
    requires forall l :: 0 <= l < |lines| ==> !Covers(lines[l], index, j)
    ensures SlotAfterAll(v, j, lines, index, conv, stringSize) == v
    decreases |lines|
  {
    if lines != [] {
      UncoveredKept(v, j, lines[..|lines| - 1], index, conv, stringSize);
    }
  }

  /**
   * Load_Conf, for an opened file: each line goes through Conf_Line in
   * order. A file that cannot be opened yields false and changes nothing;
   * otherwise the result is true, however malformed the lines.
   */
  method Load_Conf(file: Option<seq<seq<string>>>, memory: array<Value>, index: seq<Entry>, conv: Converters, stringSize: int)
    returns (ok: bool)
    requires Terminated(index) && Fits(index, memory.Length)
    requires file.Some? ==> forall l :: 0 <= l < |file.value| ==> |file.value[l]| > 0
    modifies memory
    ensures ok == file.Some?
    ensures ok ==> forall j :: 0 <= j < memory.Length ==>
      memory[j] == SlotAfterAll(old(memory[j]), j, file.value, index, conv, stringSize)
    ensures !ok ==> memory[..] == old(memory[..])
  {
    if file.None? {
      return false;
    }
    var lines := file.value;
    var n := 0;
    while n < |lines|
      invariant n <= |lines|
      invariant forall j :: 0 <= j < memory.Length ==>
        memory[j] == SlotAfterAll(old(memory[j]), j, lines[..n], index, conv, stringSize)
    {
      assert lines[..n + 1][..n] == lines[..n];
      Conf_Line(lines[n], memory, index, conv, stringSize);
      n := n + 1;
    }
    assert lines[..n] == lines;
    return true;
  }

  /**
   * One line of Load_Conf: find the entry, check the word count, then store
   * each value in its slot.
   */
  method Conf_Line(words: seq<string>, memory: array<Value>, index: seq<Entry>, conv: Converters, stringSize: int)
    requires Terminated(index) && Fits(index, memory.Length) && |words| > 0
    modifies memory
    ensures forall j :: 0 <= j < memory.Length ==>
      memory[j] == SlotAfter(old(memory[j]), j, words, index, conv, stringSize)
  {
    var i := 0;
    while index[i].kind != 0 as char && index[i].name != words[0]
      invariant i <= Lookup(index, words[0])
      decreases Lookup(index, words[0]) - i
    {
      i := i + 1;
    }
    var e := index[i];
    if e.kind == 0 as char {
      return;
    }
    if e.length + 1 != |words| {
      return;
    }
    var argnr := 0;
    while argnr < e.length
      invariant 0 <= argnr <= e.length
      invariant forall j :: 0 <= j < memory.Length ==>
        memory[j] == if e.offset <= j < e.offset + argnr then Store(e.kind, words[j - e.offset + 1], old(memory[j]), conv, stringSize) else old(memory[j])
    {
      var slot := e.offset + argnr;
      memory[slot] := Store(e.kind, words[argnr + 1], memory[slot], conv, stringSize);
      argnr := argnr + 1;
    }
  }
}
