/** Blanking strings and comments out of source text, character for character. */
module Lexer {

  datatype State = Code | LineComment | BlockComment(depth: nat) | Str | RawStr(hashes: nat)

  /** What one pass of the loop emits, where it goes on, and in which state. */
  datatype Move = Move(out: string, next: nat, state: State)

  function At(t: string, i: nat): string {
    if i < |t| then [t[i]] else ""
  }

  function Spaces(n: nat): (r: string)
    ensures |r| == n && forall c :: c in r ==> c == ' '
  {
    seq(n, _ => ' ')
  }

  /** How many `#` stand at `i`. */
  function Hashes(t: string, i: nat): (h: nat)
    requires i <= |t|
    ensures i + h <= |t| && (forall k :: i <= k < i + h ==> t[k] == '#')
    decreases |t| - i
  {
    if i < |t| && t[i] == '#' then 1 + Hashes(t, i + 1) else 0
  }

  /** Whether a quote at `i` is followed by `h` hashes. */
  predicate ClosesRaw(t: string, i: nat, h: nat)
    requires i < |t|
  {
    t[i] == '"' && i + 1 + h <= |t| && forall k :: i < k <= i + h ==> t[k] == '#'
  }

  function Keep(c: char): string {
    if c == '\n' then [c] else " "
  }

  function CodeMove(t: string, i: nat): Move
    requires i < |t|
  {
    var c, nxt := t[i], At(t, i + 1);
    if c == '/' && nxt == "/" then Move("  ", i + 2, LineComment)
    else if c == '/' && nxt == "*" then Move("  ", i + 2, BlockComment(1))
    else if c == 'r' && (nxt == "\"" || nxt == "#") && OpensRaw(t, i) then
      var h := Hashes(t, i + 1);
      Move(Spaces(h + 2), i + h + 2, RawStr(h))
    else if c == '"' then Move(" ", i + 1, Str)
    else Move([c], i + 1, Code)
  }

  /** Hashes and then a quote follow. */
  predicate OpensRaw(t: string, i: nat)
    requires i < |t|
  {
    var j := i + 1 + Hashes(t, i + 1);
    j < |t| && t[j] == '"'
  }

  function MoveOf(t: string, i: nat, st: State): Move
    requires i < |t|
  {
    var c, nxt := t[i], At(t, i + 1);
    match st
    case Code => CodeMove(t, i)
    case LineComment => if c == '\n' then Move([c], i + 1, Code) else Move(" ", i + 1, LineComment)
    case BlockComment(d) =>
      if c == '/' && nxt == "*" then Move("  ", i + 2, BlockComment(d + 1))
      else if c == '*' && nxt == "/" then Move("  ", i + 2, if d <= 1 then Code else BlockComment(d - 1))
      else Move(Keep(c), i + 1, st)
    case Str =>
      if c == '\\' then Move(" " + (if nxt == "\n" then nxt else " "), i + 2, Str)
      else if c == '"' then Move(" ", i + 1, Code)
      else Move(Keep(c), i + 1, Str)
    case RawStr(h) =>
      if ClosesRaw(t, i, h) then Move(Spaces(1 + h), i + 1 + h, Code)
      else Move(Keep(c), i + 1, st)
  }

  /** What the text from `i` on becomes. */
  function Stripped(t: string, i: nat, st: State): string
    decreases |t| - i
  {
    if i >= |t| then ""
    else
      MoveAdvances(t, i, st);
      var m := MoveOf(t, i, st);
      m.out + Stripped(t, m.next, m.state)
  }

  lemma MoveAdvances(t: string, i: nat, st: State)
    requires i < |t|
    ensures var m := MoveOf(t, i, st);
            && i < m.next <= |t| + 1 && |m.out| == m.next - i
            && (m.next == |t| + 1 <==> st.Str? && i == |t| - 1 && t[i] == '\\')
  {
  }

  function StripStringsAndComments(t: string): string {
    Stripped(t, 0, Code)
  }

  /** The code state: openers are blanked, everything else is kept. */
  method ScanCode(t: string, i: nat) returns (m: Move)
    requires i < |t|
    ensures m == CodeMove(t, i)
  {
    var c, nxt := t[i], At(t, i + 1);
    if c == '/' && nxt == "/" {
      return Move("  ", i + 2, LineComment);
    }
    if c == '/' && nxt == "*" {
      return Move("  ", i + 2, BlockComment(1));
    }
    if c == 'r' && (nxt == "\"" || nxt == "#") {
      var j, h := i + 1, 0;
      while j < |t| && t[j] == '#'
        invariant j == i + 1 + h <= |t| && Hashes(t, i + 1) == h + Hashes(t, j)
        decreases |t| - j
      {
        h, j := h + 1, j + 1;
      }
      if j < |t| && t[j] == '"' {
        return Move(Spaces(h + 2), j + 1, RawStr(h));
      }
    }
    if c == '"' {
      return Move(" ", i + 1, Str);
    }
    m := Move([c], i + 1, Code);
  }

  /** The loop's body: one state's branch at one character. */
  method Advance(text: string, i: nat, state: State) returns (m: Move)
    requires i < |text|
    ensures m == MoveOf(text, i, state)
  {
    var c, nxt := text[i], At(text, i + 1);
    match state
    case Code =>
      m := ScanCode(text, i);
    case LineComment =>
      m := if c == '\n' then Move([c], i + 1, Code) else Move(" ", i + 1, LineComment);
    case BlockComment(depth) =>
      if c == '/' && nxt == "*" {
        return Move("  ", i + 2, BlockComment(depth + 1));
      }
      if c == '*' && nxt == "/" {
        return Move("  ", i + 2, if depth <= 1 then Code else BlockComment(depth - 1));
      }
      m := Move(Keep(c), i + 1, state);
    case Str =>
      if c == '\\' {
        return Move(" " + (if nxt == "\n" then nxt else " "), i + 2, Str);
      }
      m := if c == '"' then Move(" ", i + 1, Code) else Move(Keep(c), i + 1, Str);
    case RawStr(hashes) =>
      if ClosesRaw(text, i, hashes) {
        return Move(Spaces(1 + hashes), i + 1 + hashes, Code);
      }
      m := Move(Keep(c), i + 1, state);
  }

  lemma StrippedStep(t: string, i: nat, st: State, out: string)
    requires i < |t|
    ensures i < MoveOf(t, i, st).next
    ensures var m := MoveOf(t, i, st); out + Stripped(t, i, st) == out + m.out + Stripped(t, m.next, m.state)
  {
    MoveAdvances(t, i, st);
  }

  method Strip(text: string) returns (r: string)
    ensures r == StripStringsAndComments(text)
  {
    var i, state := 0, Code;
    r := "";
    while i < |text|
      invariant r + Stripped(text, i, state) == StripStringsAndComments(text)
      decreases |text| - i
    {
      StrippedStep(text, i, state, r);
      var m := Advance(text, i, state);
      r, i, state := r + m.out, m.next, m.state;
    }
  }

  // ---------------------------------------------------------------------------------------------
  // Every index keeps its character or becomes a space
  // ---------------------------------------------------------------------------------------------

  /** Index `k` of the output against the text: its own character or a space, newlines kept, no opener. */
  ghost predicate Blanked(t: string, k: nat, c: char) {
    if k >= |t| then c == ' '
    else
      && (c == t[k] || c == ' ') && (t[k] == '\n' ==> c == '\n')
      && c != '"' && (c == '/' && k + 1 < |t| ==> t[k + 1] != '/' && t[k + 1] != '*')
  }

  lemma MoveBlanks(t: string, i: nat, st: State, k: nat)
    requires i < |t| && k < |MoveOf(t, i, st).out|
    ensures Blanked(t, i + k, MoveOf(t, i, st).out[k])
  {
    if st.Code? {
      CodeMoveBlanks(t, i, k);
    } else if st.RawStr? && ClosesRaw(t, i, st.hashes) {
      assert MoveOf(t, i, st).out[k] in MoveOf(t, i, st).out;
    }
  }

  lemma CodeMoveBlanks(t: string, i: nat, k: nat)
    requires i < |t| && k < |CodeMove(t, i).out|
    ensures Blanked(t, i + k, CodeMove(t, i).out[k])
  {
    var m := CodeMove(t, i);
    if m.state.RawStr? {
      assert m.out[k] in m.out;
    }
  }

  lemma {:induction false} StrippedBlanks(t: string, i: nat, st: State, k: nat)
    requires k < |Stripped(t, i, st)|
    ensures Blanked(t, i + k, Stripped(t, i, st)[k])
    decreases |t| - i
  {
    MoveAdvances(t, i, st);
    var m := MoveOf(t, i, st);
    var rest := Stripped(t, m.next, m.state);
    assert Stripped(t, i, st) == m.out + rest;
    if k < |m.out| {
      MoveBlanks(t, i, st, k);
      assert (m.out + rest)[k] == m.out[k];
    } else {
      StrippedBlanks(t, m.next, m.state, k - |m.out|);
      assert (m.out + rest)[k] == rest[k - |m.out|];
    }
  }

  /** The scan comes to index `k` in that state. */
  ghost predicate Reaches(t: string, i: nat, st: State, k: nat, state: State)
    decreases |t| - i
  {
    if i >= |t| || i >= k then i == k && st == state
    else
      MoveAdvances(t, i, st);
      Reaches(t, MoveOf(t, i, st).next, MoveOf(t, i, st).state, k, state)
  }

  lemma {:induction false} StrippedLength(t: string, i: nat, st: State)
    requires i < |t|
    ensures |Stripped(t, i, st)| ==
            |t| - i + if t[|t| - 1] == '\\' && Reaches(t, i, st, |t| - 1, Str) then 1 else 0
    decreases |t| - i
  {
    MoveAdvances(t, i, st);
    var m := MoveOf(t, i, st);
    if m.next < |t| {
      StrippedLength(t, m.next, m.state);
    } else {
      assert Stripped(t, m.next, m.state) == "";
    }
  }

  ghost predicate HasOpener(s: string) {
    || '"' in s
    || exists k :: 0 <= k < |s| - 1 && s[k] == '/' && (s[k + 1] == '/' || s[k + 1] == '*')
  }

  /**
    The output is the input with some characters blanked: newlines stay at their index, every index keeps its
    character or holds a space, no quote or comment opener is left, and the length is the same but for
    one space more when the input ends inside a string on a lone backslash.
   */
  lemma StrippedKeepsLines(t: string)
    ensures var r := StripStringsAndComments(t);
            && |t| <= |r| <= |t| + 1
            && (|r| == |t| + 1 <==> t != "" && t[|t| - 1] == '\\' && Reaches(t, 0, Code, |t| - 1, Str))
            && (forall k :: 0 <= k < |t| ==> (r[k] == t[k] || r[k] == ' ') && (r[k] == '\n' <==> t[k] == '\n'))
            && (|r| > |t| ==> r[|t|] == ' ')
            && !HasOpener(r)
  {
    var r := StripStringsAndComments(t);
    if t != "" {
      StrippedLength(t, 0, Code);
    }
    forall k | 0 <= k < |r|
      ensures Blanked(t, k, r[k])
    {
      StrippedBlanks(t, 0, Code, k);
    }
    forall k | 0 <= k < |r| - 1 && r[k] == '/'
      ensures r[k + 1] != '/' && r[k + 1] != '*'
    {
      assert Blanked(t, k, r[k]) && Blanked(t, k + 1, r[k + 1]);
    }
  }

  // ---------------------------------------------------------------------------------------------
  // Text without openers is left alone
  // ---------------------------------------------------------------------------------------------

  lemma {:induction false} PlainIsKept(t: string, i: nat)
    requires !HasOpener(t) && i <= |t|
    ensures Stripped(t, i, Code) == t[i..]
    decreases |t| - i
  {
    if i < |t| {
      assert t[i] != '"' by {
        assert t[i] in t;
      }
      assert !OpensRaw(t, i) by {
        var j := i + 1 + Hashes(t, i + 1);
        assert j < |t| ==> t[j] in t;
      }
      assert i + 1 < |t| && t[i] == '/' ==> t[i + 1] != '/' && t[i + 1] != '*';
      assert MoveOf(t, i, Code) == Move([t[i]], i + 1, Code);
      PlainIsKept(t, i + 1);
      assert t[i..] == [t[i]] + t[i + 1..];
    }
  }

  /** Blanking twice blanks nothing more. */
  lemma StripIsIdempotent(t: string)
    ensures StripStringsAndComments(StripStringsAndComments(t)) == StripStringsAndComments(t)
  {
    var r := StripStringsAndComments(t);
    StrippedKeepsLines(t);
    PlainIsKept(r, 0);
    assert r[0..] == r;
  }

  // ---------------------------------------------------------------------------------------------
  // Line numbers
  // ---------------------------------------------------------------------------------------------

  /** How many lines end before index `k`. */
  function LinesBefore(t: string, k: nat): nat
    requires k <= |t|
  {
    if k == 0 then 0 else LinesBefore(t, k - 1) + if t[k - 1] == '\n' then 1 else 0
  }

  lemma {:induction false} SameNewlinesSameLines(t: string, r: string, k: nat)
    requires k <= |t| <= |r| && forall i :: 0 <= i < |t| ==> (r[i] == '\n' <==> t[i] == '\n')
    ensures LinesBefore(r, k) == LinesBefore(t, k)
  {
    if k > 0 {
      SameNewlinesSameLines(t, r, k - 1);
    }
  }

  /** Every index stands on the same line of the output as of the input, and both have as many lines. */
  lemma LineNumbersKept(t: string, k: nat)
    requires k <= |t|
    ensures var r := StripStringsAndComments(t);
            && |t| <= |r| && LinesBefore(r, k) == LinesBefore(t, k)
            && LinesBefore(r, |r|) == LinesBefore(t, |t|)
  {
    StrippedKeepsLines(t);
    var r := StripStringsAndComments(t);
    SameNewlinesSameLines(t, r, k);
    SameNewlinesSameLines(t, r, |t|);
  }
}
