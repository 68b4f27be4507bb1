/**
 * Text_File (text_file.cpp): reads a text file line by line and splits
 * each line into words. Whitespace separates words; a word that starts
 * with `"` runs to the next `"` and may hold spaces; `#` at the start of a
 * word ends the line; lines that are blank or start with `#` are skipped.
 *
 * The open file is its contents and a read position; `fgetc`, `ungetc` and
 * `fgets` are modelled on them. The line buffer and the word list are
 * arrays the methods regrow; each word is an offset into the buffer where
 * a NUL-terminated string starts.
 */
module TextFiles {
  import opened Wrappers

  /** `isspace` in the C locale: space, \t, \n, \v, \f and \r. */
  predicate IsSpace(c: char)
  {
    c == ' ' || c == '\t' || c == '\n' || c as int == 11 || c as int == 12 || c == '\r'
  }

  const NUL: char := 0 as char

  /** A text holds no NUL character (it would end a C string early). */
  predicate NoNul(s: string)
  {
    forall k :: 0 <= k < |s| ==> s[k] != NUL
  }

  // ---------------------------------------------------------------- positions in a text

  /** The first position at or after `i` that is not whitespace (or the end). */
  function SkipSpaces(s: string, i: nat): (j: nat)
    requires i <= |s|
    ensures i <= j <= |s| && (j < |s| ==> !IsSpace(s[j]))
    decreases |s| - i
  {
    if i == |s| || !IsSpace(s[i]) then i else SkipSpaces(s, i + 1)
  }

  /** The first `"` at or after `i` (or the end). */
  function QuoteEnd(s: string, i: nat): (j: nat)
    requires i <= |s|
    ensures i <= j <= |s| && (j < |s| ==> s[j] == '"')
    decreases |s| - i
  {
    if i == |s| || s[i] == '"' then i else QuoteEnd(s, i + 1)
  }

  /** The first whitespace at or after `i` (or the end). */
  function WordEnd(s: string, i: nat): (j: nat)
    requires i <= |s|
    ensures i <= j <= |s| && (j < |s| ==> IsSpace(s[j]))
    decreases |s| - i
  {
    if i == |s| || IsSpace(s[i]) then i else WordEnd(s, i + 1)
  }

  /**
   * The position just after the first newline at or after `i`, or the end
   * of the text when there is none: where the next line starts.
   */
  function LineStop(s: string, i: nat): (j: nat)
    requires i <= |s|
    ensures i <= j <= |s|
    ensures j < |s| ==> j > i && s[j - 1] == '\n'
    decreases |s| - i
  {
    if i == |s| then i
    else if s[i] == '\n' then i + 1
    else LineStop(s, i + 1)
  }

  // ---------------------------------------------------------------- words of a line

  /** Where scanning goes on after a word that ended at `e`: past the separator, or at the end. */
  function Past(s: string, e: nat): (n: nat)
    requires e <= |s|
    ensures e <= n <= |s| && (e < |s| ==> n == e + 1)
  {
    if e < |s| then e + 1 else e
  }

  /** One round of the word loop: the line ends, or the word `s[start..end]` was found and scanning goes on at `next`. */
  datatype Step = Done | Found(start: nat, end: nat, next: nat)

  /**
   * The word that starts at `j`, a position that is not whitespace
   * (text_file.cpp:186-229): the end, `#` or a newline ends the line; a `"`
   * starts a word that runs to the next `"` or the end (a `"` as the last
   * character gives no word); any other character starts a word that runs
   * to the next whitespace.
   */
  function WordAt(s: string, j: nat): (r: Step)
    requires j <= |s|
    ensures r.Found? ==> j <= r.start <= r.end <= |s| && r.next == Past(s, r.end) && r.next > j
  {
    if j == |s| || s[j] == '#' || s[j] == '\n' then Done
    else if s[j] == '"' then
      if j + 1 == |s| then Done
      else
        var e := QuoteEnd(s, j + 1);
        Found(j + 1, e, Past(s, e))
    else
      var e := WordEnd(s, j + 1);
      Found(j, e, Past(s, e))
  }

  /** One round of Buffer_To_List's loop (text_file.cpp:177-230) from position `i`: skip whitespace, then take the word there. */
  function NextWord(s: string, i: nat): (r: Step)
    requires i <= |s|
    ensures r.Found? ==> i <= r.start <= r.end <= |s| && r.next == Past(s, r.end) && r.next > i
  {
    WordAt(s, SkipSpaces(s, i))
  }

  /** The words of a line from position `i` on. */
  function TokensFrom(s: string, i: nat): (r: seq<string>)
    requires i <= |s|
    decreases |s| - i
  {
    match NextWord(s, i)
    case Done => []
    case Found(a, b, n) => [s[a..b]] + TokensFrom(s, n)
  }

  /** The words Buffer_To_List splits a line into. */
  function Tokens(s: string): seq<string>
  {
    TokensFrom(s, 0)
  }

  /** A word a plain line can hold: not empty, no whitespace, and not starting with `"` or `#`. */
  predicate PlainWord(w: string)
  {
    |w| > 0 && w[0] != '"' && w[0] != '#' && forall k :: 0 <= k < |w| ==> !IsSpace(w[k])
  }

  predicate AllPlain(ws: seq<string>)
  {
    forall k :: 0 <= k < |ws| ==> PlainWord(ws[k])
  }

  /** The words joined by single spaces. */
  function Join(ws: seq<string>): (s: string)
    ensures ws == [] ==> s == []
    decreases |ws|
  {
    if ws == [] then []
    else if |ws| == 1 then ws[0]
    else ws[0] + " " + Join(ws[1..])
  }

  /** Whitespace before a position does not change the words from there. */
  lemma SpaceSkipped(s: string, k: nat)
    requires k < |s| && IsSpace(s[k])
    ensures TokensFrom(s, k) == TokensFrom(s, k + 1)
  {
    assert SkipSpaces(s, k) == SkipSpaces(s, k + 1);
  }

  /** The words from `i` on are the next word and the words after it. */
  lemma TokensStep(s: string, i: nat)
    requires i <= |s|
    ensures NextWord(s, i).Done? ==> TokensFrom(s, i) == []
    ensures NextWord(s, i).Found? ==>
      TokensFrom(s, i) == [s[NextWord(s, i).start..NextWord(s, i).end]] + TokensFrom(s, NextWord(s, i).next)
  {
  }

  /** TokensStep for a word found at known positions. */
  lemma TokensAt(s: string, i: nat, start: nat, end: nat, next: nat)
    requires i <= |s| && NextWord(s, i) == Found(start, end, next)
    ensures TokensFrom(s, i) == [s[start..end]] + TokensFrom(s, next)
  {
  }

  /** A plain word at `i`, followed by whitespace or the end, is the next word found. */
  lemma FirstWord(s: string, i: nat, w: string)
    requires PlainWord(w) && i + |w| <= |s| && s[i..i + |w|] == w
    requires i + |w| < |s| ==> IsSpace(s[i + |w|])
    ensures NextWord(s, i) == Found(i, i + |w|, Past(s, i + |w|))
  {
    var e := i + |w|;
    assert s[i] == w[0];
    assert SkipSpaces(s, i) == i;
    forall k | i + 1 <= k < e
      ensures !IsSpace(s[k])
    {
      assert s[k] == w[k - i];
    }
    WordEndAt(s, i + 1, e);
  }

  /** A step found `d` positions further on. */
  function Shift(r: Step, d: nat): Step
  {
    match r
    case Done => Done
    case Found(a, b, n) => Found(a + d, b + d, n + d)
  }

  /** Scanning `t` after a prefix `p` stops at the same places, shifted by `|p|`. */
  lemma {:induction false} ShiftScan(p: string, t: string, i: nat)
    requires i <= |t|
    ensures SkipSpaces(p + t, |p| + i) == |p| + SkipSpaces(t, i)
    ensures QuoteEnd(p + t, |p| + i) == |p| + QuoteEnd(t, i)
    ensures WordEnd(p + t, |p| + i) == |p| + WordEnd(t, i)
    decreases |t| - i
  {
    if i < |t| {
      assert (p + t)[|p| + i] == t[i];
      ShiftScan(p, t, i + 1);
    }
  }

  lemma ShiftWordAt(p: string, t: string, j: nat)
    requires j <= |t|
    ensures WordAt(p + t, |p| + j) == Shift(WordAt(t, j), |p|)
  {
    if j < |t| {
      assert (p + t)[|p| + j] == t[j];
      ShiftScan(p, t, j + 1);
    }
  }

  lemma ShiftNext(s: string, p: string, t: string, k: nat, i: nat)
    requires s == p + t && k == |p| + i && i <= |t|
    ensures NextWord(s, k) == Shift(NextWord(t, i), |p|)
  {
    ShiftScan(p, t, i);
    ShiftWordAt(p, t, SkipSpaces(t, i));
  }

  /**
   * The words after a prefix do not depend on the prefix: in `s`, which is
   * `t` after `p`, the words from `k` are those of `t` from `i`.
   */
  lemma {:induction false} ShiftTokens(s: string, p: string, t: string, k: nat, i: nat)
    requires s == p + t && k == |p| + i && i <= |t|
    ensures TokensFrom(s, k) == TokensFrom(t, i)
    decreases |t| - i
  {
    match NextWord(t, i)
    case Found(a, b, n) =>
      ShiftTokens(s, p, t, |p| + n, n);
      ShiftFound(s, p, t, i, a, b, n, k, |p| + a, |p| + b, |p| + n);
    case Done =>
      ShiftNext(s, p, t, k, i);
      TokensStep(t, i);
      TokensStep(s, k);
  }

  /** One step of ShiftTokens: the word found at `a'..b'` in `s` is `t[a..b]`, and the words after it agree. */
  lemma ShiftFound(s: string, p: string, t: string, i: nat, a: nat, b: nat, n: nat, k: nat, a': nat, b': nat, n': nat)
    requires s == p + t && k == |p| + i && a' == |p| + a && b' == |p| + b && n' == |p| + n
    requires i <= |t| && NextWord(t, i) == Found(a, b, n)
    requires TokensFrom(s, n') == TokensFrom(t, n)
    ensures TokensFrom(s, k) == TokensFrom(t, i)
  {
    ShiftNext(s, p, t, k, i);
    TokensAt(t, i, a, b, n);
    TokensAt(s, k, a', b', n');
    ShiftSlice(s, p, t, a, b, a', b');
    ConsEq(s[a'..b'], t[a..b], TokensFrom(s, n'), TokensFrom(t, n), TokensFrom(s, k), TokensFrom(t, i));
  }

  /** Two word lists that are the same word followed by the same rest are equal. */
  lemma ConsEq(w: string, w': string, ws: seq<string>, ws': seq<string>, x: seq<string>, x': seq<string>)
    requires w == w' && ws == ws'
    requires x == [w] + ws && x' == [w'] + ws'
    ensures x == x'
  {
  }

  lemma ShiftSlice(s: string, p: string, t: string, a: nat, b: nat, a': nat, b': nat)
    requires s == p + t && a' == |p| + a && b' == |p| + b && a <= b <= |t|
    ensures s[a'..b'] == t[a..b]
  {
    assert forall k :: a <= k < b ==> s[|p| + k] == t[k];
  }

  /** Whitespace in front of a line does not change its words. */
  lemma LeadingSpace(c: char, t: string)
    requires IsSpace(c)
    ensures Tokens([c] + t) == Tokens(t)
  {
    SpaceSkipped([c] + t, 0);
    ShiftTokens([c] + t, [c], t, 1, 0);
  }

  /** A plain word followed by whitespace or nothing is the first word; the rest follows. */
  lemma HeadWord(w: string, r: string)
    requires PlainWord(w) && (r == [] || IsSpace(r[0]))
    ensures Tokens(w + r) == [w] + Tokens(r)
  {
    var s := w + r;
    assert s[0..|w|] == w;
    FirstWord(s, 0, w);
    TokensStep(s, 0);
    ShiftTokens(s, w, r, |w|, 0);
    if r != [] {
      SpaceSkipped(s, |w|);
    }
  }

  lemma Assoc(ws: seq<string>, t: seq<string>)
    requires |ws| > 0
    ensures [ws[0]] + (ws[1..] + t) == ws + t
  {
    assert [ws[0]] + ws[1..] == ws;
  }

  /** The tail of a list of plain words is plain. */
  lemma AllPlainTail(ws: seq<string>)
    requires |ws| > 0 && AllPlain(ws)
    ensures AllPlain(ws[1..]) && PlainWord(ws[0])
  {
    forall k | 0 <= k < |ws| - 1
      ensures PlainWord(ws[1..][k])
    {
      assert ws[1..][k] == ws[k + 1];
    }
  }

  /**
   * Splitting undoes joining: plain words joined by single spaces, followed
   * by a tail that starts with whitespace (or is empty), split into the same
   * words followed by the words of the tail.
   */
  lemma {:induction false} JoinTail(ws: seq<string>, tail: string)
    requires AllPlain(ws) && (tail == [] || IsSpace(tail[0]))
    ensures Tokens(Join(ws) + tail) == ws + Tokens(tail)
    decreases |ws|
  {
    if ws == [] {
      assert Join(ws) + tail == tail;
    } else {
      AllPlainTail(ws);
      var w := ws[0];
      if |ws| == 1 {
        HeadWord(w, tail);
        assert Join(ws) + tail == w + tail;
        assert ws == [w];
      } else {
        var more := Join(ws[1..]) + tail;
        assert Join(ws) + tail == w + ([' '] + more);
        HeadWord(w, [' '] + more);
        LeadingSpace(' ', more);
        JoinTail(ws[1..], tail);
        Assoc(ws, Tokens(tail));
      }
    }
  }

  /** Splitting undoes joining. */
  lemma JoinSplits(ws: seq<string>)
    requires AllPlain(ws)
    ensures Tokens(Join(ws)) == ws
  {
    JoinTail(ws, []);
    assert Join(ws) + [] == Join(ws);
  }

  /** A `#` where a word would start ends the line: nothing after it counts. */
  lemma CommentEndsLine(ws: seq<string>, comment: string)
    requires AllPlain(ws)
    ensures Tokens(Join(ws) + " #" + comment) == ws
  {
    var tail := " #" + comment;
    JoinTail(ws, tail);
    assert Join(ws) + " #" + comment == Join(ws) + tail;
    assert SkipSpaces(tail, 0) == 1;
    assert Tokens(tail) == [];
  }

  /** A quoted word keeps its spaces and loses its quotes. */
  lemma QuotedWord(q: string)
    requires forall k :: 0 <= k < |q| ==> q[k] != '"'
    ensures Tokens(['"'] + q + ['"']) == [q]
  {
    var s := ['"'] + q + ['"'];
    assert s[0] == '"' && s[|s| - 1] == '"';
    assert forall k :: 1 <= k < |q| + 1 ==> s[k] == q[k - 1];
    QuoteEndAt(s, 1, |q| + 1);
    assert s[1..|q| + 1] == q;
    assert SkipSpaces(s, 0) == 0;
    assert NextWord(s, 0) == Found(1, |q| + 1, |s|);
    assert TokensFrom(s, |s|) == [] by { assert NextWord(s, |s|) == Done; }
  }

  /** WordEnd stops at the first whitespace. */
  lemma WordEndAt(s: string, i: nat, e: nat)
    requires i <= e <= |s| && (e < |s| ==> IsSpace(s[e]))
    requires forall k :: i <= k < e ==> !IsSpace(s[k])
    ensures WordEnd(s, i) == e
    decreases e - i
  {
    if i < e {
      WordEndAt(s, i + 1, e);
    }
  }

  lemma QuoteEndAt(s: string, i: nat, e: nat)
    requires i <= e < |s| && s[e] == '"'
    requires forall k :: i <= k < e ==> s[k] != '"'
    ensures QuoteEnd(s, i) == e
    decreases e - i
  {
    if i < e {
      QuoteEndAt(s, i + 1, e);
    }
  }

  // ---------------------------------------------------------------- lines of a file

  /**
   * Where Seek_First leaves the file (text_file.cpp:115-138): whitespace is
   * skipped, a line whose first other character is `#` is thrown away, and
   * the first remaining character is the result, still unread; None at the
   * end of the file.
   */
  function SeekFrom(s: string, i: nat): (r: Option<nat>)
    requires i <= |s|
    ensures r.Some? ==> i <= r.value < |s| && !IsSpace(s[r.value]) && s[r.value] != '#'
    decreases |s| - i
  {
    if i == |s| then None
    else if IsSpace(s[i]) then SeekFrom(s, i + 1)
    else if s[i] == '#' then SeekFrom(s, LineStop(s, i + 1))
    else Some(i)
  }

  /**
   * The word lists successive calls of Read_Line return for a file read
   * from position `i`, up to the first call that returns false. Each is
   * the words of the line Seek_First finds.
   */
  function FileLines(s: string, i: nat): (r: seq<seq<string>>)
    requires i <= |s|
    ensures forall k :: 0 <= k < |r| ==> |r[k]| > 0
    decreases |s| - i
  {
    match SeekFrom(s, i)
    case None => []
    case Some(j) =>
      var e := LineStop(s, j);
      var t := Tokens(s[j..e]);
      if t == [] then [] else [t] + FileLines(s, e)
  }

  /**
   * One call of Read_Line on values: Seek_First from `i` finds the line at
   * `j`, which ends at `e` and holds the words `w`; the call succeeds
   * exactly when there are lines left, and then `w` is the first of them.
   */
  lemma LineTaken(s: string, i: nat, j: nat, e: nat, w: seq<string>)
    requires i <= |s| && SeekFrom(s, i) == Some(j) && e == LineStop(s, j) && w == Tokens(s[j..e])
    ensures w != [] <==> FileLines(s, i) != []
    ensures w != [] ==> FileLines(s, i)[0] == w && FileLines(s, e) == FileLines(s, i)[1..]
  {
  }

  /** A comment line is thrown away whole: what follows it is read as if it were the start of the file. */
  lemma CommentLineSkipped(c: string, rest: string)
    requires forall k :: 0 <= k < |c| ==> c[k] != '\n'
    ensures SeekFrom("#" + c + "\n" + rest, 0) ==
      (match SeekFrom(rest, 0) case None => None case Some(j) => Some(|c| + 2 + j))
  {
    var s := "#" + c + "\n" + rest;
    assert s[0] == '#' && s[|c| + 1] == '\n';
    assert forall k :: 1 <= k < |c| + 1 ==> s[k] == c[k - 1];
    LineStopAt(s, 1, |c| + 2);
    SeekShift(s, "#" + c + "\n", rest, |c| + 2, 0);
  }

  lemma LineStopAt(s: string, i: nat, e: nat)
    requires i < e <= |s| && s[e - 1] == '\n'
    requires forall k :: i <= k < e - 1 ==> s[k] != '\n'
    ensures LineStop(s, i) == e
    decreases e - i
  {
    if i < e - 1 {
      LineStopAt(s, i + 1, e);
    }
  }

  lemma {:induction false} LineStopShift(s: string, p: string, t: string, k: nat, i: nat)
    requires s == p + t && k == |p| + i && i <= |t|
    ensures LineStop(s, k) == |p| + LineStop(t, i)
    decreases |t| - i
  {
    if i < |t| {
      assert s[k] == t[i];
      LineStopShift(s, p, t, k + 1, i + 1);
    }
  }

  /** Seek_First over `t` after a prefix `p` stops at the same place, shifted by `|p|`. */
  lemma {:induction false} SeekShift(s: string, p: string, t: string, k: nat, i: nat)
    requires s == p + t && k == |p| + i && i <= |t|
    ensures SeekFrom(s, k).Some? <==> SeekFrom(t, i).Some?
    ensures SeekFrom(t, i).Some? ==> SeekFrom(s, k).value == |p| + SeekFrom(t, i).value
    decreases |t| - i
  {
    if i < |t| {
      assert s[k] == t[i];
      if IsSpace(t[i]) {
        assert SeekFrom(s, k) == SeekFrom(s, k + 1) && SeekFrom(t, i) == SeekFrom(t, i + 1);
        SeekShift(s, p, t, k + 1, i + 1);
      } else if t[i] == '#' {
        assert SeekFrom(s, k) == SeekFrom(s, LineStop(s, k + 1)) && SeekFrom(t, i) == SeekFrom(t, LineStop(t, i + 1));
        LineStopShift(s, p, t, k + 1, i + 1);
        SeekShift(s, p, t, LineStop(s, k + 1), LineStop(t, i + 1));
      }
    }
  }

  // ---------------------------------------------------------------- the C library calls

  /** `NULL` in the word list. */
  const NULL: int := -1

  /** The first NUL at or after `k` (or the end). */
  function FirstNul(a: seq<char>, k: nat): (e: nat)
    requires k <= |a|
    ensures k <= e <= |a| && (e < |a| ==> a[e] == NUL)
    ensures NoNul(a[k..e])
    decreases |a| - k
  {
    if k == |a| || a[k] == NUL then k else FirstNul(a, k + 1)
  }

  /** The C string that starts at offset `k` of a buffer. */
  function CString(a: seq<char>, k: int): string
  {
    if 0 <= k <= |a| then a[k..FirstNul(a, k)] else []
  }

  lemma FirstNulAt(a: seq<char>, k: nat, e: nat)
    requires k <= e < |a| && a[e] == NUL && NoNul(a[k..e])
    ensures FirstNul(a, k) == e
    decreases e - k
  {
    if k < e {
      assert a[k] == a[k..e][0];
      assert a[k + 1..e] == a[k..e][1..];
      FirstNulAt(a, k + 1, e);
    }
  }

  /** The strings a word list points at. */
  function WordList(a: seq<char>, offsets: seq<int>): (r: seq<string>)
    ensures |r| == |offsets|
  {
    seq(|offsets|, i requires 0 <= i < |offsets| => CString(a, offsets[i]))
  }

  /** Where `fgets` stops reading with room for `max` characters: after a newline, at the end, or when full. */
  function FgetsEnd(s: string, i: nat, max: nat): (e: nat)
    requires i <= |s|
    ensures i <= e <= |s| && e <= i + max && e <= LineStop(s, i)
    ensures e == i + max || e == LineStop(s, i)
  {
    if i + max < LineStop(s, i) then i + max else LineStop(s, i)
  }

  /** Whether that read runs into the end of the file, which sets its end-of-file indicator. */
  predicate FgetsHitsEof(s: string, i: nat, max: nat)
    requires i <= |s|
  {
    var e := LineStop(s, i);
    e - i < max && (e == i || s[e - 1] != '\n')
  }

  /** The word placed at `start` of a buffer, ended by the NUL at `end`. */
  ghost predicate WordIn(a: seq<char>, start: int, end: nat, w: string)
  {
    0 <= start <= end < |a| && a[start..end] == w && a[end] == NUL && NoNul(w)
  }

  /** Reads that stop short of the end of the line stop after a character that is not a newline, in the same line. */
  lemma {:induction false} FgetsInLine(s: string, i: nat, max: nat)
    requires i <= |s|
    ensures FgetsEnd(s, i, max) < LineStop(s, i) ==>
      LineStop(s, FgetsEnd(s, i, max)) == LineStop(s, i) && (FgetsEnd(s, i, max) > i ==> s[FgetsEnd(s, i, max) - 1] != '\n')
    decreases max
  {
    if max > 0 && i < |s| && s[i] != '\n' {
      assert LineStop(s, i) == LineStop(s, i + 1);
      assert FgetsEnd(s, i, max) == FgetsEnd(s, i + 1, max - 1);
      FgetsInLine(s, i + 1, max - 1);
    }
  }

  /** With no newline ahead, the line runs to the end of the file. */
  lemma {:induction false} LineStopNone(s: string, i: nat)
    requires i <= |s| && forall k :: i <= k < |s| ==> s[k] != '\n'
    ensures LineStop(s, i) == |s|
    decreases |s| - i
  {
    if i < |s| {
      LineStopNone(s, i + 1);
    }
  }

  /**
   * Line_To_Buffer as written (text_file.cpp:145-166), on positions: the
   * outcome of the rounds of `fgets` from position `i` of a file whose
   * end-of-file indicator is clear, with `read` characters of the line
   * already in a buffer of `size` characters that grows by `step`. A NULL
   * from `fgets` gives false even when part of the line was already read.
   */
  function LineToBufferAsWritten(s: string, i: nat, read: nat, size: nat, step: nat): bool
    requires i <= |s| && size >= read + 2 && step >= 1
    decreases |s| - i
  {
    var e := FgetsEnd(s, i, size - read - 1);
    if e == i then false
    else if FgetsHitsEof(s, i, size - read - 1) || s[e - 1] == '\n' then true
    else LineToBufferAsWritten(s, e, read + (e - i), size + step, step)
  }

  /**
   * A last line with no newline after it that exactly fills the buffer is
   * dropped as written: `fgets` stops at the full buffer without running
   * into the end of the file, and the next `fgets` finds nothing left. The
   * corrected Line_To_Buffer reads that line.
   */
  lemma ExactFillDropped(s: string, size: nat, step: nat)
    requires size >= 2 && step >= 1 && |s| == size - 1
    requires forall k :: 0 <= k < |s| ==> s[k] != '\n'
    ensures !LineToBufferAsWritten(s, 0, 0, size, step)
  {
    LineStopNone(s, 0);
    assert FgetsEnd(s, 0, size - 1) == |s|;
    assert !FgetsHitsEof(s, 0, size - 1);
    assert FgetsEnd(s, |s|, size + step - |s| - 1) == |s|;
  }

  /**
   * The entries the `memcpy` of Append_To_List copies into a grown list, as
   * written (text_file.cpp:264): `word_count` of them from the old array,
   * or None when that reads past the old array's end.
   */
  function GrowCopyAsWritten(oldWords: seq<int>, wordCount: nat): (r: Option<seq<int>>)
    ensures r.None? <==> wordCount > |oldWords|
    ensures r.Some? ==> wordCount <= |oldWords| && r.value == oldWords[..wordCount]
  {
    if wordCount <= |oldWords| then Some(oldWords[..wordCount]) else None
  }

  /**
   * The list grows only once the incremented count exceeds the old size,
   * so the copy as written always reads one entry past the old array.
   */
  lemma GrowCopyOverreads(oldWords: seq<int>, wordCount: nat)
    requires wordCount == |oldWords| + 1
    ensures GrowCopyAsWritten(oldWords, wordCount).None?
    ensures GrowCopyAsWritten(oldWords, wordCount - 1) == Some(oldWords)
  {
    assert oldWords[..wordCount - 1] == oldWords;
  }

  /** The part of `line` from `p` on is in buffer `b`, and the line is ended by a NUL. */
  ghost predicate Holds(b: seq<char>, line: string, p: nat)
  {
    NoNul(line) && p <= |line| < |b| && b[|line|] == NUL
    && forall k :: p <= k < |line| ==> b[k] == line[k]
  }

  /** Word `i` of `found` is the C string at `offs[i]`, ended by the NUL at `ends[i]`. */
  ghost predicate Placed(b: seq<char>, offs: seq<int>, ends: seq<nat>, found: seq<string>)
  {
    |offs| == |ends| == |found| && forall i :: 0 <= i < |found| ==> WordIn(b, offs[i], ends[i], found[i])
  }

  /** Every NUL placed so far lies before `p`, or at the line's end `p`. */
  ghost predicate EndsBefore(ends: seq<nat>, p: nat, len: nat)
  {
    forall i :: 0 <= i < |ends| ==> ends[i] < p || ends[i] == p == len
  }

  /**
   * Buffer_To_List's scan of `line`, held in buffer `b`, at position `p`:
   * the words found so far start at `offs` and are NUL-terminated at
   * `ends`, the rest of the line is untouched, and what is left to find is
   * TokensFrom(line, p).
   */
  ghost predicate Scanned(b: seq<char>, line: string, p: nat, offs: seq<int>, ends: seq<nat>, found: seq<string>)
  {
    && Holds(b, line, p)
    && Placed(b, offs, ends, found) && EndsBefore(ends, p, |line|)
    && Tokens(line) == found + TokensFrom(line, p)
  }

  lemma ScanStart(b: seq<char>)
    requires NUL in b
    ensures Scanned(b, CString(b, 0), 0, [], [], [])
  {
    var e := FirstNul(b, 0);
    assert CString(b, 0) == b[0..e];
  }

  /** A scan that finds the line's end has found all its words, each a C string at its offset. */
  lemma ScanDone(b: seq<char>, line: string, p: nat, offs: seq<int>, ends: seq<nat>, found: seq<string>)
    requires Scanned(b, line, p, offs, ends, found) && NextWord(line, p).Done?
    ensures WordList(b, offs) == found == Tokens(line)
  {
    TokensStep(line, p);
    forall i | 0 <= i < |found|
      ensures CString(b, offs[i]) == found[i]
    {
      FirstNulAt(b, offs[i], ends[i]);
    }
  }

  /** A NUL written at or after every placed word's end leaves the words in place. */
  lemma PlacedKept(b: seq<char>, e: nat, offs: seq<int>, ends: seq<nat>, found: seq<string>)
    requires Placed(b, offs, ends, found) && e < |b|
    requires forall i :: 0 <= i < |ends| ==> ends[i] < e
    ensures Placed(b[e := NUL], offs, ends, found)
  {
    forall i | 0 <= i < |found|
      ensures WordIn(b[e := NUL], offs[i], ends[i], found[i])
    {
      assert b[e := NUL][offs[i]..ends[i]] == b[offs[i]..ends[i]];
    }
  }

  lemma PlacedSnoc(b: seq<char>, offs: seq<int>, ends: seq<nat>, found: seq<string>, start: nat, end: nat, w: string)
    requires Placed(b, offs, ends, found) && WordIn(b, start, end, w)
    ensures Placed(b, offs + [start], ends + [end], found + [w])
  {
  }

  /** The next word of the line, NUL-terminated in the buffer unless the line ends there. */
  lemma WordPlaced(b: seq<char>, line: string, p: nat, start: nat, end: nat)
    requires Holds(b, line, p) && p <= start <= end <= |line|
    ensures WordIn(if end < |line| then b[end := NUL] else b, start, end, line[start..end])
  {
    var b' := if end < |line| then b[end := NUL] else b;
    assert b'[start..end] == line[start..end] by {
      assert forall k :: start <= k < end ==> b'[k] == line[k];
    }
  }

  /**
   * One more word: the next word of the line, at `start` to `end`, is
   * listed and ended by a NUL unless the line ends there anyway, and the
   * scan goes on at `next`.
   */
  lemma ScanWord(b: seq<char>, line: string, p: nat, offs: seq<int>, ends: seq<nat>, found: seq<string>,
                 start: nat, end: nat, next: nat,
                 b': seq<char>, offs': seq<int>, ends': seq<nat>, found': seq<string>)
    requires Scanned(b, line, p, offs, ends, found) && NextWord(line, p) == Found(start, end, next)
    requires b' == if end < |line| then b[end := NUL] else b
    requires offs' == offs + [start] && ends' == ends + [end] && found' == found + [line[start..end]]
    ensures Scanned(b', line, next, offs', ends', found')
  {
    var w := line[start..end];
    TokensStep(line, p);
    assert found + ([w] + TokensFrom(line, next)) == (found + [w]) + TokensFrom(line, next);
    if end < |line| {
      PlacedKept(b, end, offs, ends, found);
    }
    WordPlaced(b, line, p, start, end);
    PlacedSnoc(b', offs, ends, found, start, end, w);
    HoldsPast(b, line, p, ends, start, end, next, b', ends');
  }

  /** Past the word's end, the rest of the line is still untouched and every NUL placed lies behind. */
  lemma HoldsPast(b: seq<char>, line: string, p: nat, ends: seq<nat>, start: nat, end: nat, next: nat,
                  b': seq<char>, ends': seq<nat>)
    requires Holds(b, line, p) && EndsBefore(ends, p, |line|) && NextWord(line, p) == Found(start, end, next)
    requires b' == if end < |line| then b[end := NUL] else b
    requires ends' == ends + [end]
    ensures Holds(b', line, next) && EndsBefore(ends', next, |line|)
  {
  }

  /** A C string has one length: two NULs with no NUL before either are the same NUL. */
  lemma NulUnique(b: seq<char>, n: nat, m: nat)
    requires n < |b| && m < |b| && b[n] == NUL && b[m] == NUL
    requires NoNul(b[..n]) && NoNul(b[..m])
    ensures n == m
  {
  }

  /**
   * Line_To_Buffer's progress: the line that starts at `start` has been
   * read up to `pos` into buffer `b`, which still has room for another
   * round of `fgets`; a partial read ends in a NUL, not in a newline and
   * not at the end of the file.
   */
  ghost predicate LineSoFar(data: string, start: nat, pos: nat, b: seq<char>, eof: bool)
  {
    && start <= pos <= |data| && |b| - (pos - start) >= 2
    && LineStop(data, pos) == LineStop(data, start)
    && b[..pos - start] == data[start..pos]
    && (pos > start ==> b[pos - start] == NUL && !eof && data[pos - 1] != '\n')
  }

  /**
   * The text of a round of `fgets` appended to the line read so far is the
   * line read so far, and `strlen` finds its end.
   */
  lemma RoundText(data: string, start: nat, p0: nat, pos: nat, b0: seq<char>, b: seq<char>, m: nat, n: nat)
    requires NoNul(data) && start <= p0 < pos <= |data| && p0 - start <= |b0| && m == pos - start < |b|
    requires b0[..p0 - start] == data[start..p0]
    requires b[..m] == b0[..p0 - start] + data[p0..pos] && b[m] == NUL
    requires n < |b| && b[n] == NUL && NoNul(b[..n])
    ensures n == m && b[..n] == data[start..pos] && b[n - 1] == data[pos - 1]
  {
    assert data[start..pos] == data[start..p0] + data[p0..pos];
    NulUnique(b, n, m);
    assert b[..n][n - 1] == data[start..pos][n - 1];
  }

  /**
   * After a round of `fgets` from `p0`, inside the line that starts at
   * `start`, the line is complete exactly when `fgets` ran into the end of
   * the file or read the newline; otherwise the rest of the same line is
   * still ahead.
   */
  lemma RoundStop(data: string, start: nat, p0: nat, max: nat, pos: nat, eof0: bool, eof: bool)
    requires start <= p0 <= |data| && LineStop(data, p0) == LineStop(data, start) && (eof0 ==> p0 == |data|)
    requires pos == FgetsEnd(data, p0, max) && pos > p0
    requires eof <==> eof0 || FgetsHitsEof(data, p0, max)
    ensures eof || data[pos - 1] == '\n' ==> pos == LineStop(data, start)
    ensures !(eof || data[pos - 1] == '\n') ==> LineStop(data, pos) == LineStop(data, start) && !eof
  {
    FgetsInLine(data, p0, max);
  }

  /** Buffer `b` holds the line of `data` from `start` to its end `pos` as a C string. */
  ghost predicate LineRead(data: string, start: nat, pos: nat, b: seq<char>)
  {
    start <= pos <= |data| && pos == LineStop(data, start) && pos - start < |b|
    && b[..pos - start] == data[start..pos] && b[pos - start] == NUL
  }

  /** The line read so far is the whole line once the file ends. */
  lemma LineComplete(data: string, start: nat, pos: nat, b: seq<char>, eof: bool)
    requires LineSoFar(data, start, pos, b, eof) && start < pos == |data|
    ensures LineRead(data, start, pos, b)
  {
  }

  /** A larger buffer that keeps the line read so far and its NUL keeps Line_To_Buffer's progress. */
  lemma GrownSoFar(data: string, start: nat, pos: nat, b: seq<char>, b': seq<char>, eof: bool, n: nat)
    requires RoundRead(data, start, pos, b, eof, n) && !(eof || b[n - 1] == '\n')
    requires |b'| >= |b| + 2 && b'[..n + 1] == b[..n + 1]
    ensures LineSoFar(data, start, pos, b', eof)
  {
    assert b'[..n] == b'[..n + 1][..n];
    assert b[..n] == b[..n + 1][..n];
    assert b'[n] == b'[..n + 1][n];
  }

  /**
   * Where a round of Line_To_Buffer leaves the line that starts at
   * `start`: the `n` characters read so far, up to `pos`, are in buffer `b`
   * followed by a NUL; if the file ended or a newline was read, the line
   * is complete; otherwise the rest of the same line is still ahead.
   */
  ghost predicate RoundRead(data: string, start: nat, pos: nat, b: seq<char>, eof: bool, n: nat)
  {
    && start < pos <= |data| && n == pos - start && n < |b|
    && b[..n] == data[start..pos] && b[n] == NUL && b[n - 1] == data[pos - 1]
    && (eof || data[pos - 1] == '\n' ==> LineRead(data, start, pos, b))
    && (!(eof || data[pos - 1] == '\n') ==> LineStop(data, pos) == LineStop(data, start) && !eof)
  }

  lemma ReadRoundDone(data: string, start: nat, p0: nat, b0: seq<char>, eof0: bool, room: nat,
                      pos: nat, b: seq<char>, eof: bool, m: nat, n: nat)
    requires NoNul(data) && LineSoFar(data, start, p0, b0, eof0) && (eof0 ==> p0 == |data|)
    requires room == |b0| - (p0 - start) && |b| == |b0|
    requires pos == FgetsEnd(data, p0, room - 1) && pos > p0 && m == pos - start
    requires m < |b| && b[..m] == b0[..p0 - start] + data[p0..pos] && b[m] == NUL
    requires eof <==> eof0 || FgetsHitsEof(data, p0, room - 1)
    requires n < |b| && b[n] == NUL && NoNul(b[..n])
    ensures RoundRead(data, start, pos, b, eof, n)
  {
    RoundText(data, start, p0, pos, b0, b, m, n);
    RoundStop(data, start, p0, room - 1, pos, eof0, eof);
  }

  /** The line Line_To_Buffer leaves in the buffer is the C string at its start. */
  lemma LineString(data: string, start: nat, pos: nat, b: seq<char>)
    requires LineRead(data, start, pos, b) && NoNul(data)
    ensures CString(b, 0) == data[start..pos]
  {
    assert b[0..pos - start] == b[..pos - start];
    FirstNulAt(b, 0, pos - start);
  }

  // ---------------------------------------------------------------- the reader

  class TextFile {
    /** Whether `fp` is set; the file's contents, its read position and its end-of-file indicator. */
    var open: bool
    var data: string
    var pos: nat
    var eof: bool
    /** The line buffer; its length is `buffer_size`. */
    var buffer: array<char>
    /** The word list, as offsets into `buffer`; its length is `list_size`. */
    var words: array<int>
    var wordCount: nat
    /** INITIAL_TEXT_FILE_BUFFER_SIZE and INITIAL_TEXT_FILE_LIST_SIZE. */
    const bufferStep: nat
    const listStep: nat

    ghost predicate Valid()
      reads this
    {
      && pos <= |data| && NoNul(data) && (eof ==> pos == |data|)
      && bufferStep >= 2 && listStep >= 1
      && buffer.Length >= 2 && wordCount <= words.Length
    }

    /** The words of the current line. */
    ghost function Words(): seq<string>
      reads this, buffer, words
      requires wordCount <= words.Length
    {
      WordList(buffer[..], words[..wordCount])
    }

    /** Text_File::Text_File: no file yet, no words, both arrays at their initial sizes. */
    constructor (initialBuffer: nat, initialList: nat)
      requires initialBuffer >= 2 && initialList >= 1
      ensures Valid() && !open && wordCount == 0
      ensures bufferStep == initialBuffer && listStep == initialList
      ensures buffer.Length == initialBuffer && words.Length == initialList
    {
      open, data, pos, eof := false, [], 0, false;
      bufferStep, listStep := initialBuffer, initialList;
      wordCount := 0;
      buffer := new char[initialBuffer];
      words := new int[initialList];
    }

    /**
     * Text_File::Open: the old file is closed (clearing the words) and the
     * outcome of `fopen` is `file`: its contents, or None when it failed.
     */
    method Open(file: Option<string>) returns (ok: bool)
      requires Valid() && (file.Some? ==> NoNul(file.value))
      modifies this`open, this`data, this`pos, this`eof, this`wordCount, words
      ensures Valid() && (ok <==> file.Some?) && open == ok
      ensures ok ==> data == file.value && pos == 0 && !eof
      ensures old(open) ==> wordCount == 0
      ensures !old(open) ==> wordCount == old(wordCount)
    {
      if open {
        Clear_List();
      }
      match file {
        case Some(contents) =>
          open, data, pos, eof := true, contents, 0, false;
          ok := true;
        case None =>
          open := false;
          ok := false;
      }
    }

    /** `fgetc(fp)`: the next character, or None at the end (which sets the end-of-file indicator). */
    method Getc() returns (c: Option<char>)
      requires Valid()
      modifies this`pos, this`eof
      ensures Valid()
      ensures old(pos) < |data| ==> c == Some(data[old(pos)]) && pos == old(pos) + 1 && eof == old(eof)
      ensures old(pos) == |data| ==> c == None && pos == old(pos) && eof
    {
      if pos < |data| {
        c := Some(data[pos]);
        pos := pos + 1;
      } else {
        c := None;
        eof := true;
      }
    }

    /** Text_File::Throw_Line: reads past the next newline; false when the file ends first. */
    method Throw_Line() returns (ok: bool)
      requires Valid()
      modifies this`pos, this`eof
      ensures Valid() && pos == LineStop(data, old(pos))
      ensures ok <==> pos > old(pos) && data[pos - 1] == '\n'
      ensures ok ==> eof == old(eof)
    {
      while true
        invariant Valid() && old(pos) <= pos && LineStop(data, pos) == LineStop(data, old(pos))
        invariant pos > old(pos) ==> data[pos - 1] != '\n'
        invariant eof == old(eof)
        decreases |data| - pos
      {
        var c := Getc();
        if c.None? {
          return false;
        }
        if c.value == '\n' {
          return true;
        }
      }
    }

    /**
     * Text_File::Seek_First: skips whitespace and comment lines, and leaves
     * the first character of the next line's first word unread; false at
     * the end of the file.
     */
    method Seek_First() returns (found: bool)
      requires Valid()
      modifies this`pos, this`eof
      ensures Valid()
      ensures found <==> SeekFrom(data, old(pos)).Some?
      ensures found ==> pos == SeekFrom(data, old(pos)).value && eof == old(eof)
      ensures !found ==> pos == |data| && eof
      decreases |data| - pos
    {
      while true
        invariant Valid() && old(pos) <= pos && SeekFrom(data, pos) == SeekFrom(data, old(pos))
        invariant eof == old(eof)
        decreases |data| - pos
      {
        var c := Getc();
        if c.None? {
          return false;
        }
        if !IsSpace(c.value) {
          if c.value == '#' {
            var _ := Throw_Line();
            found := Seek_First();
            return;
          }
          pos := pos - 1;  // ungetc
          return true;
        }
      }
    }

    /**
     * `fgets(&buffer[off], n, fp)`: reads up to `n - 1` characters, stopping
     * after a newline, and ends them with a NUL; when nothing is left to
     * read it returns NULL and leaves the buffer as it was.
     */
    method Fgets(off: nat, n: nat) returns (ok: bool)
      requires Valid() && n >= 2 && off + n <= buffer.Length
      modifies buffer, this`pos, this`eof
      ensures Valid() && pos == FgetsEnd(data, old(pos), n - 1)
      ensures ok <==> pos > old(pos)
      ensures !ok ==> old(pos) == |data| && unchanged(buffer)
      ensures ok ==> buffer[..off + (pos - old(pos))] == old(buffer[..off]) + data[old(pos)..pos]
      ensures ok ==> buffer[off + (pos - old(pos))] == NUL
      ensures ok ==> forall m :: off + (pos - old(pos)) < m < buffer.Length ==> buffer[m] == old(buffer[m])
      ensures eof <==> old(eof) || FgetsHitsEof(data, old(pos), n - 1)
    {
      var e := FgetsEnd(data, pos, n - 1);
      eof := eof || FgetsHitsEof(data, pos, n - 1);
      if e == pos {
        return false;
      }
      forall m | off <= m < off + (e - pos) {
        buffer[m] := data[pos + (m - off)];
      }
      buffer[off + (e - pos)] := NUL;
      assert buffer[..off + (e - pos)] == old(buffer[..off]) + data[pos..e];
      pos := e;
      ok := true;
    }

    /** Text_File::Clear_List: every listed word is reset to NULL and the count to zero. */
    method Clear_List()
      requires Valid()
      modifies words, this`wordCount
      ensures Valid() && wordCount == 0
      ensures forall i :: 0 <= i < old(wordCount) ==> words[i] == NULL
      ensures forall i :: old(wordCount) <= i < words.Length ==> words[i] == old(words[i])
    {
      var i := 0;
      while i < wordCount
        invariant i <= wordCount == old(wordCount) <= words.Length
        invariant forall m :: 0 <= m < i ==> words[m] == NULL
        invariant forall m :: i <= m < words.Length ==> words[m] == old(words[m])
      {
        words[i] := NULL;
        i := i + 1;
      }
      wordCount := 0;
    }

    /**
     * Text_File::Append_To_List: the word goes last and the earlier entries
     * stay; a full list first grows by INITIAL_TEXT_FILE_LIST_SIZE entries,
     * copying the entries it holds.
     */
    method Append_To_List(word: int)
      requires Valid()
      modifies this`words, this`wordCount, words
      ensures Valid() && wordCount == old(wordCount) + 1
      ensures words[..wordCount] == old(words[..wordCount]) + [word]
      ensures old(wordCount) < old(words.Length) ==> words == old(words)
      ensures old(wordCount) == old(words.Length) ==> fresh(words) && words.Length == old(words.Length) + listStep
    {
      wordCount := wordCount + 1;
      if wordCount > words.Length {
        var oldWords := words;
        words := new int[oldWords.Length + listStep];
        forall m | 0 <= m < wordCount - 1 {
          words[m] := oldWords[m];
        }
      }
      words[wordCount - 1] := word;
    }

    /** `strlen(buffer)`. */
    method Strlen() returns (n: nat)
      requires NUL in buffer[..]
      ensures n < buffer.Length && buffer[n] == NUL && NoNul(buffer[..n])
    {
      n := FirstNul(buffer[..], 0);
      assert buffer[..][0..n] == buffer[..n];
    }

    /**
     * One round of Line_To_Buffer's loop: `fgets` appends to the `textRead`
     * characters of the line that starts at `start`, and `strlen` gives the
     * new length of the line read so far.
     */
    method ReadRound(ghost start: nat, textRead: nat) returns (got: bool, n: nat)
      requires Valid() && textRead == pos - start && LineSoFar(data, start, pos, buffer[..], eof)
      modifies buffer, this`pos, this`eof
      ensures Valid() && (got <==> old(pos) < |data|)
      ensures !got ==> pos == old(pos) && eof && unchanged(buffer)
      ensures got ==> pos > old(pos) && RoundRead(data, start, pos, buffer[..], eof, n)
    {
      ghost var p0, b0, eof0 := pos, buffer[..], eof;
      var room := buffer.Length - textRead;
      n := 0;
      got := Fgets(textRead, room);
      if got {
        ghost var m := textRead + (pos - p0);
        assert buffer[..][m] == NUL;
        n := Strlen();
        ReadRoundDone(data, start, p0, b0, eof0, room, pos, buffer[..], eof, m, n);
      }
    }

    /**
     * The growth step of Line_To_Buffer: a buffer `bufferStep` characters
     * larger, into which `strcpy` copies the line read so far and its NUL.
     */
    method Grow(n: nat)
      requires Valid() && n < buffer.Length && buffer[n] == NUL
      modifies this`buffer
      ensures Valid() && fresh(buffer) && buffer.Length == old(buffer.Length) + bufferStep
      ensures buffer[..n + 1] == old(buffer[..n + 1])
    {
      var oldBuffer := buffer;
      buffer := new char[oldBuffer.Length + bufferStep];
      forall m | 0 <= m <= n {
        buffer[m] := oldBuffer[m];
      }
      assert buffer[..n + 1] == oldBuffer[..n + 1];
    }

    /**
     * Text_File::Line_To_Buffer, with its end-of-file case corrected: the
     * rest of the current line, through its newline, is read into the
     * buffer by rounds of `fgets`, growing the buffer by `bufferStep` and
     * keeping what was read whenever the line does not fit yet. False only
     * when there is nothing left to read.
     */
    method Line_To_Buffer() returns (ok: bool)
      requires Valid()
      modifies this`buffer, buffer, this`pos, this`eof
      ensures Valid() && (ok <==> old(pos) < |data|)
      ensures ok ==> LineRead(data, old(pos), pos, buffer[..])
      ensures !ok ==> pos == old(pos) && eof
      ensures buffer == old(buffer) || fresh(buffer)
    {
      var textRead: nat := 0;
      ghost var start := pos;
      while true
        invariant Valid() && start <= pos && textRead == pos - start
        invariant LineSoFar(data, start, pos, buffer[..], eof)
        invariant buffer == old(buffer) || fresh(buffer)
        decreases |data| - pos
      {
        ghost var eof0 := eof;
        var got, n := ReadRound(start, textRead);
        if !got {
          // nothing more to read: the line so far, if any, is the last one
          if textRead > 0 {
            LineComplete(data, start, pos, buffer[..], eof0);
          }
          return textRead > 0;
        }
        textRead := n;
        if eof || buffer[textRead - 1] == '\n' {
          return true;
        }
        ghost var b := buffer[..];
        Grow(textRead);
        GrownSoFar(data, start, pos, b, buffer[..], eof, textRead);
      }
    }

    /** Buffer_To_List's loop over whitespace, from `p`. */
    method SkipBlanks(ghost line: string, p: nat) returns (q: nat)
      requires Holds(buffer[..], line, p)
      ensures q == SkipSpaces(line, p)
    {
      q := p;
      while buffer[q] != NUL && IsSpace(buffer[q])
        invariant p <= q <= |line| && SkipSpaces(line, q) == SkipSpaces(line, p)
        decreases |line| - q
      {
        q := q + 1;
      }
    }

    /** Buffer_To_List's loop to the closing quotation mark, from `p`. */
    method FindQuoteEnd(ghost line: string, p: nat) returns (q: nat)
      requires Holds(buffer[..], line, p)
      ensures q == QuoteEnd(line, p)
    {
      q := p;
      while buffer[q] != '"' && buffer[q] != NUL
        invariant p <= q <= |line| && QuoteEnd(line, q) == QuoteEnd(line, p)
        decreases |line| - q
      {
        q := q + 1;
      }
    }

    /** Buffer_To_List's loop to the end of a plain word, from `p`. */
    method FindWordEnd(ghost line: string, p: nat) returns (q: nat)
      requires Holds(buffer[..], line, p)
      ensures q == WordEnd(line, p)
    {
      q := p;
      while buffer[q] != NUL && !IsSpace(buffer[q])
        invariant p <= q <= |line| && WordEnd(line, q) == WordEnd(line, p)
        decreases |line| - q
      {
        q := q + 1;
      }
    }

    /**
     * The word half of Buffer_To_List's loop: the next word of the line
     * after `p` starts at `start`, quoted or plain; it is listed, its end is
     * found, and a NUL is written there unless the line ends there.
     */
    method ListWord(ghost line: string, ghost p: nat, start: nat, quoted: bool, ghost end: nat, ghost ends: seq<nat>, ghost found: seq<string>)
        returns (next: nat, ghost ends': seq<nat>, ghost found': seq<string>)
      requires Valid() && Scanned(buffer[..], line, p, words[..wordCount], ends, found)
      requires start < |line| && end <= |line| && NextWord(line, p) == Found(start, end, Past(line, end))
      requires end == if quoted then QuoteEnd(line, start) else WordEnd(line, start + 1)
      modifies buffer, this`words, words, this`wordCount
      ensures Valid() && (words == old(words) || fresh(words))
      ensures next > p && Scanned(buffer[..], line, next, words[..wordCount], ends', found')
    {
      ghost var b, offs := buffer[..], words[..wordCount];
      Append_To_List(start);
      ghost var offs' := words[..wordCount];
      next := EndWord(line, start, quoted, end);
      ends', found' := ends + [end], found + [line[start..end]];
      ScanWord(b, line, p, offs, ends, found, start, end, next, buffer[..], offs', ends', found');
    }

    /**
     * The end of a word that starts at `start`: the closing `"` of a quoted
     * word, or the whitespace after a plain one, is overwritten with a NUL
     * and scanning goes on after it; at the end of the line nothing is
     * written.
     */
    method EndWord(ghost line: string, start: nat, quoted: bool, ghost end: nat) returns (next: nat)
      requires Holds(buffer[..], line, start) && start < |line|
      requires end == if quoted then QuoteEnd(line, start) else WordEnd(line, start + 1)
      modifies buffer
      ensures next == Past(line, end)
      ensures buffer[..] == if end < |line| then old(buffer[..])[end := NUL] else old(buffer[..])
    {
      if quoted {
        next := FindQuoteEnd(line, start);
      } else {
        next := FindWordEnd(line, start + 1);
      }
      if buffer[next] != NUL {
        buffer[next] := NUL;
        next := next + 1;
      }
    }

    /**
     * One pass of Buffer_To_List's loop from `p`: past the whitespace, then
     * either the end of the line's words, or one more word listed and
     * ended by a NUL.
     */
    method ListNextWord(ghost line: string, p: nat, ghost ends: seq<nat>, ghost found: seq<string>)
        returns (more: bool, next: nat, ghost ends': seq<nat>, ghost found': seq<string>)
      requires Valid() && Scanned(buffer[..], line, p, words[..wordCount], ends, found)
      modifies buffer, this`words, words, this`wordCount
      ensures Valid() && (words == old(words) || fresh(words))
      ensures !more ==> Words() == Tokens(line)
      ensures more ==> next > p && Scanned(buffer[..], line, next, words[..wordCount], ends', found')
    {
      next := SkipBlanks(line, p);
      assert NextWord(line, p) == WordAt(line, next);
      if buffer[next] == NUL || buffer[next] == '#' || buffer[next] == '\n' {
        ScanDone(buffer[..], line, p, words[..wordCount], ends, found);
        return false, next, ends, found;
      }
      if buffer[next] == '"' {
        next := next + 1;
        if buffer[next] == NUL {
          ScanDone(buffer[..], line, p, words[..wordCount], ends, found);
          return false, next, ends, found;
        }
        next, ends', found' := ListWord(line, p, next, true, QuoteEnd(line, next), ends, found);
      } else {
        next, ends', found' := ListWord(line, p, next, false, WordEnd(line, next + 1), ends, found);
      }
      more := true;
    }

    /**
     * Text_File::Buffer_To_List: splits the C string in the buffer into
     * words in place, ending each with a NUL and listing where it starts,
     * and reports whether there was any. The words are those Tokens finds
     * in the line.
     */
    method Buffer_To_List() returns (ok: bool)
      requires Valid() && wordCount == 0 && NUL in buffer[..]
      modifies buffer, this`words, words, this`wordCount
      ensures Valid()
      ensures Words() == Tokens(CString(old(buffer[..]), 0))
      ensures ok <==> Words() != []
    {
      ghost var line := CString(buffer[..], 0);
      ghost var ends: seq<nat> := [];
      ghost var found: seq<string> := [];
      ScanStart(buffer[..]);
      var p: nat := 0;
      while true
        invariant Valid() && Scanned(buffer[..], line, p, words[..wordCount], ends, found)
        invariant words == old(words) || fresh(words)
        decreases |line| - p
      {
        var more;
        more, p, ends, found := ListNextWord(line, p, ends, found);
        if !more {
          break;
        }
      }
      ok := wordCount != 0;
    }

    /**
     * Text_File::Read_Line: the words of the next line of the file that
     * has any, after blank and comment lines; false when no file is open,
     * at the end of the file, or when the line found yields no word.
     */
    method Read_Line() returns (ok: bool)
      requires Valid()
      modifies this`pos, this`eof, this`buffer, buffer, this`words, words, this`wordCount
      ensures Valid()
      ensures !old(open) ==> !ok && unchanged(this) && unchanged(buffer) && unchanged(words)
      ensures old(open) ==> (ok <==> FileLines(data, old(pos)) != [])
      ensures ok ==> Words() == FileLines(data, old(pos))[0] && FileLines(data, pos) == FileLines(data, old(pos))[1..]
      ensures old(open) && !ok ==> wordCount == 0
    {
      if !open {
        return false;
      }
      Clear_List();
      ghost var start := pos;
      var found := Seek_First();
      if !found {
        return false;
      }
      ghost var j := pos;
      var read := Line_To_Buffer();
      if !read {
        return false;
      }
      LineString(data, j, pos, buffer[..]);
      assert buffer[..][pos - j] == NUL;
      ok := Buffer_To_List();
      LineTaken(data, start, j, pos, Words());
    }
  }
}
