/** The lines of a source file and of its blanked text, and the test lines of a whole file. */
module SourceLines {
  import Json
  import opened Text
  import opened Lexer
  import opened TestLines

  // ---------------------------------------------------------------------------------------------
  // Lines
  // ---------------------------------------------------------------------------------------------

  /** The characters a line can end on. */
  predicate IsBreak(c: char) {
    || c == '\n' || c == '\r' || c == '\U{0B}' || c == '\U{0C}' || c == '\U{1C}' || c == '\U{1D}' || c == '\U{1E}'
    || c == '\U{85}' || c == '\U{2028}' || c == '\U{2029}'
  }

  /** A line ends at index `k`; a carriage return before a newline ends none itself. */
  predicate EndsLine(t: string, k: nat)
    requires k < |t|
  {
    IsBreak(t[k]) && !(t[k] == '\r' && k + 1 < |t| && t[k + 1] == '\n')
  }

  function LineEnd(t: string, a: nat): (e: nat)
    requires a <= |t|
    ensures a <= e <= |t| && (e < |t| ==> EndsLine(t, e))
    ensures forall k :: a <= k < e ==> !EndsLine(t, k)
    decreases |t| - a
  {
    if a == |t| || EndsLine(t, a) then a else LineEnd(t, a + 1)
  }

  /** What stands between, without the line's end. */
  function Content(t: string, a: nat, e: nat): string
    requires a <= e <= |t|
  {
    if e < |t| && t[e] == '\n' && a < e && t[e - 1] == '\r' then t[a..e - 1] else t[a..e]
  }

  /** The lines from index `a` on; nothing after the last line's end is no line. */
  function SplitFrom(t: string, a: nat): seq<string>
    decreases |t| - a
  {
    if a >= |t| then []
    else
      var e := LineEnd(t, a);
      [Content(t, a, e)] + SplitFrom(t, e + 1)
  }

  function SplitLines(t: string): seq<string> {
    SplitFrom(t, 0)
  }

  /** How many lines end at `a`, .., `b - 1`. */
  function Ends(t: string, a: nat, b: nat): nat
    requires a <= b <= |t|
  {
    if a == b then 0 else Ends(t, a, b - 1) + if EndsLine(t, b - 1) then 1 else 0
  }

  lemma {:induction false} EndsSplit(t: string, a: nat, m: nat, b: nat)
    requires a <= m <= b <= |t|
    ensures Ends(t, a, b) == Ends(t, a, m) + Ends(t, m, b)
  {
    if m < b {
      EndsSplit(t, a, m, b - 1);
    }
  }

  lemma {:induction false} NoEnds(t: string, a: nat, b: nat)
    requires a <= b <= |t| && forall k :: a <= k < b ==> !EndsLine(t, k)
    ensures Ends(t, a, b) == 0
  {
    if a < b {
      NoEnds(t, a, b - 1);
    }
  }

  /** The last line may have no end. */
  function Open(t: string, a: nat): nat {
    if a < |t| && !EndsLine(t, |t| - 1) then 1 else 0
  }

  lemma {:induction false} SplitCount(t: string, a: nat)
    requires a <= |t|
    ensures |SplitFrom(t, a)| == Ends(t, a, |t|) + Open(t, a)
    decreases |t| - a
  {
    if a < |t| {
      var e := LineEnd(t, a);
      NoEnds(t, a, e);
      if e < |t| {
        SplitCount(t, e + 1);
        EndsSplit(t, a, e, |t|);
        EndsSplit(t, e, e + 1, |t|);
        assert Ends(t, e, e + 1) == Ends(t, e, e) + 1;
      }
    }
  }

  // ---------------------------------------------------------------------------------------------
  // The lines are the text cut at its line ends
  // ---------------------------------------------------------------------------------------------

  /** The code points a line can end on: line feed to carriage return, three separators, and three of Unicode's. */
  lemma BreaksAre(c: char)
    ensures var n := c as int;
            IsBreak(c) <==> 10 <= n <= 13 || 28 <= n <= 30 || n == 0x85 || 0x2028 <= n <= 0x2029
  {
  }

  /** A line end: one break, or a carriage return and a newline. */
  predicate IsEnd(s: string) {
    s == "\r\n" || (|s| == 1 && IsBreak(s[0]))
  }

  /** The lines, each followed by what ended it. */
  function Rejoined(lines: seq<string>, ends: seq<string>): string
    requires |lines| == |ends|
  {
    if lines == [] then "" else lines[0] + ends[0] + Rejoined(lines[1..], ends[1..])
  }

  /**
    How `lines` cut `t`: with `ends` after them they are the text; no line holds a break; every end is one,
    but that the last may be missing after a line that is not empty; and no newline follows a carriage return
    that is an end on its own.
   */
  ghost predicate Cuts(t: string, lines: seq<string>, ends: seq<string>) {
    && |lines| == |ends| && Rejoined(lines, ends) == t
    && (forall i :: 0 <= i < |lines| ==> forall c :: c in lines[i] ==> !IsBreak(c))
    && (forall i :: 0 <= i < |ends| ==> IsEnd(ends[i]) || (i == |ends| - 1 && ends[i] == "" && lines[i] != ""))
    && (forall i :: 0 <= i < |ends| - 1 && ends[i] == "\r" ==> !(lines[i + 1] == "" && ends[i + 1] == "\n"))
  }

  /** Where the line from `a` on ends, and with what. */
  function EndAt(t: string, a: nat): (end: string)
    requires a <= |t|
  {
    var e := LineEnd(t, a);
    t[a + |Content(t, a, e)|..if e < |t| then e + 1 else e]
  }

  lemma LineIs(t: string, a: nat)
    requires a < |t|
    ensures var e := LineEnd(t, a);
            var line, next := Content(t, a, e), if e < |t| then e + 1 else e;
            && a < next <= |t| && t[a..next] == line + EndAt(t, a) && (forall c :: c in line ==> !IsBreak(c))
            && (if e < |t| then IsEnd(EndAt(t, a)) else EndAt(t, a) == "" && line != "")
            && (EndAt(t, a) == "\r" ==> next == |t| || t[next] != '\n')
  {
    var e := LineEnd(t, a);
    var line := Content(t, a, e);
    BreaksInside(t, a, e);
    if e < |t| && t[e] == '\n' && a < e && t[e - 1] == '\r' {
      assert t[e - 1..e + 1] == "\r\n";
      assert EndAt(t, a) == "\r\n";
    } else {
      assert EndAt(t, a) == if e < |t| then [t[e]] else "";
    }
  }

  /** Before its end a line holds no break but the carriage return of a pair. */
  lemma BreaksInside(t: string, a: nat, e: nat)
    requires a <= |t| && e == LineEnd(t, a)
    ensures forall k :: a <= k < e && IsBreak(t[k]) ==> k == e - 1 && t[k] == '\r' && e < |t| && t[e] == '\n'
  {
    forall k | a <= k < e && IsBreak(t[k])
      ensures k == e - 1 && t[k] == '\r' && e < |t| && t[e] == '\n'
    {
      assert !EndsLine(t, k);
      assert t[k] == '\r' && t[k + 1] == '\n';
      assert EndsLine(t, k + 1);
    }
  }

  lemma StartsWithNewline(t: string, lines: seq<string>, ends: seq<string>)
    requires |lines| == |ends| > 0 && lines[0] == "" && ends[0] == "\n" && Rejoined(lines, ends) == t
    ensures t != "" && t[0] == '\n'
  {
    assert t == "\n" + Rejoined(lines[1..], ends[1..]);
  }

  lemma OneMoreCut(t: string, a: nat, next: nat, lines: seq<string>, ends: seq<string>, line: string, end: string)
    requires a < next <= |t| && Cuts(t[next..], lines, ends) && t[a..next] == line + end
    requires (forall c :: c in line ==> !IsBreak(c)) && (IsEnd(end) || (end == "" && line != "" && lines == []))
    requires end == "\r" ==> next == |t| || t[next] != '\n'
    ensures Cuts(t[a..], [line] + lines, [end] + ends)
  {
    var ls, es := [line] + lines, [end] + ends;
    assert ls[1..] == lines && es[1..] == ends;
    assert t[a..] == t[a..next] + t[next..];
    if lines != [] && lines[0] == "" && ends[0] == "\n" {
      StartsWithNewline(t[next..], lines, ends);
    }
    forall i | 0 <= i < |es|
      ensures IsEnd(es[i]) || (i == |es| - 1 && es[i] == "" && ls[i] != "")
    {
      if i > 0 {
        assert es[i] == ends[i - 1] && ls[i] == lines[i - 1];
      }
    }
    forall i | 0 <= i < |es| - 1 && es[i] == "\r"
      ensures !(ls[i + 1] == "" && es[i + 1] == "\n")
    {
      if i > 0 {
        assert es[i] == ends[i - 1] && ls[i + 1] == lines[i] && es[i + 1] == ends[i];
      }
    }
  }

  lemma LineCut(t: string, a: nat, lines: seq<string>, ends: seq<string>)
    requires a < |t| && LineEnd(t, a) < |t| && Cuts(t[LineEnd(t, a) + 1..], lines, ends)
    ensures Cuts(t[a..], [Content(t, a, LineEnd(t, a))] + lines, [EndAt(t, a)] + ends)
  {
    LineIs(t, a);
    OneMoreCut(t, a, LineEnd(t, a) + 1, lines, ends, Content(t, a, LineEnd(t, a)), EndAt(t, a));
  }

  lemma LastCut(t: string, a: nat)
    requires a < |t| == LineEnd(t, a)
    ensures SplitFrom(t, a) == [Content(t, a, |t|)] && Cuts(t[a..], [Content(t, a, |t|)], [EndAt(t, a)])
  {
    LineIs(t, a);
    assert t[|t|..] == "";
    OneMoreCut(t, a, |t|, [], [], Content(t, a, |t|), EndAt(t, a));
    assert [Content(t, a, |t|)] + [] == [Content(t, a, |t|)] && [EndAt(t, a)] + [] == [EndAt(t, a)];
  }

  lemma NothingCut(t: string)
    ensures SplitFrom(t, |t|) == [] && Cuts(t[|t|..], [], [])
  {
    assert t[|t|..] == "";
  }

  lemma SplitMore(t: string, a: nat)
    requires a < |t| && LineEnd(t, a) < |t|
    ensures SplitFrom(t, a) == [Content(t, a, LineEnd(t, a))] + SplitFrom(t, LineEnd(t, a) + 1)
  {
  }

  lemma {:induction false} CutFrom(t: string, a: nat) returns (lines: seq<string>, ends: seq<string>)
    requires a <= |t|
    ensures lines == SplitFrom(t, a) && Cuts(t[a..], lines, ends)
    decreases |t| - a
  {
    if a == |t| {
      lines, ends := [], [];
      NothingCut(t);
    } else if LineEnd(t, a) == |t| {
      lines, ends := [Content(t, a, |t|)], [EndAt(t, a)];
      LastCut(t, a);
    } else {
      var rest, more := CutFrom(t, LineEnd(t, a) + 1);
      lines, ends := [Content(t, a, LineEnd(t, a))] + rest, [EndAt(t, a)] + more;
      LineCut(t, a, rest, more);
      SplitMore(t, a);
    }
  }

  /** The lines cut the text at its line ends. */
  lemma LinesCutTheText(t: string) returns (ends: seq<string>)
    ensures Cuts(t, SplitLines(t), ends)
  {
    var lines;
    lines, ends := CutFrom(t, 0);
    assert t[0..] == t;
  }

  // ---------------------------------------------------------------------------------------------
  // The blanked text's lines
  // ---------------------------------------------------------------------------------------------

  /** The line's end stands in the blanked text as well; a newline always does. */
  predicate BreakKept(t: string, k: nat)
    requires k < |t|
  {
    var r := StripStringsAndComments(t);
    k < |r| && (EndsLine(t, k) ==> r[k] == t[k])
  }

  ghost predicate BreaksKeptTo(t: string, k: nat)
    requires k <= |t|
  {
    forall i: nat :: i < k ==> BreakKept(t, i)
  }

  /** No line ends in a string or a comment, but at a newline. */
  ghost predicate BreaksKept(t: string) {
    BreaksKeptTo(t, |t|)
  }

  lemma EndKeptIff(t: string, k: nat)
    requires k < |t|
    ensures var r := StripStringsAndComments(t);
            |t| <= |r| && (EndsLine(r, k) <==> EndsLine(t, k) && r[k] == t[k])
  {
    StrippedKeepsLines(t);
  }

  lemma KeptStep(t: string, k: nat)
    requires k < |t|
    ensures BreaksKeptTo(t, k + 1) <==> BreaksKeptTo(t, k) && BreakKept(t, k)
  {
    if BreaksKeptTo(t, k + 1) {
      assert BreakKept(t, k);
    }
  }

  lemma {:induction false} EndsFewer(t: string, r: string, k: nat)
    requires r == StripStringsAndComments(t) && k <= |t| <= |r|
    ensures Ends(r, 0, k) <= Ends(t, 0, k)
    ensures Ends(r, 0, k) == Ends(t, 0, k) <==> BreaksKeptTo(t, k)
  {
    if k > 0 {
      EndsFewer(t, r, k - 1);
      EndKeptIff(t, k - 1);
      KeptStep(t, k - 1);
    }
  }

  /** Every index stands on the same line of both texts. */
  ghost predicate SameLineNumbers(t: string, r: string) {
    |t| <= |r| && forall k :: 0 <= k <= |t| ==> Ends(r, 0, k) == Ends(t, 0, k)
  }

  /**
    Every index stands on the same line of the blanked text as of the original exactly when no line of
    it ends in a string or a comment, but at a newline.
   */
  lemma LinesAlignedIff(t: string)
    ensures SameLineNumbers(t, StripStringsAndComments(t)) <==> BreaksKept(t)
  {
    var r := StripStringsAndComments(t);
    StrippedKeepsLines(t);
    EndsFewer(t, r, |t|);
    if BreaksKept(t) {
      forall k | 0 <= k <= |t|
        ensures Ends(r, 0, k) == Ends(t, 0, k)
      {
        assert BreaksKeptTo(t, k);
        EndsFewer(t, r, k);
      }
    }
  }

  /** A file whose lines end in newlines only, after a carriage return or not, is aligned. */
  lemma NewlinesAreKept(t: string)
    requires forall k :: 0 <= k < |t| && EndsLine(t, k) ==> t[k] == '\n'
    ensures BreaksKept(t)
  {
    StrippedKeepsLines(t);
  }

  /** The blanked text never has more lines, so each of its lines has one of the text's beside it. */
  lemma NoMoreLines(t: string)
    ensures |SplitLines(StripStringsAndComments(t))| <= |SplitLines(t)|
  {
    var r := StripStringsAndComments(t);
    SplitCount(t, 0);
    SplitCount(r, 0);
    if t != "" {
      LastLine(t, r, |t| - 1);
    }
  }

  lemma LastLine(t: string, r: string, last: nat)
    requires r == StripStringsAndComments(t) && |t| == last + 1
    ensures Ends(r, 0, |r|) + Open(r, 0) <= Ends(t, 0, |t|) + Open(t, 0)
  {
    StrippedKeepsLines(t);
    EndKeptIff(t, last);
    EndsFewer(t, r, last);
    assert Ends(r, 0, last + 1) == Ends(r, 0, last) + if EndsLine(r, last) then 1 else 0;
    assert |r| > |t| ==> Ends(r, 0, last + 2) == Ends(r, 0, last + 1) + if EndsLine(r, last + 1) then 1 else 0;
  }

  lemma FormFeedBlanked()
    ensures StripStringsAndComments("//\U{0C}\nx") == "   \nx"
  {
    var t := "//\U{0C}\nx";
    assert Stripped(t, 5, Code) == "";
    assert Stripped(t, 4, Code) == "x";
    assert Stripped(t, 3, LineComment) == "\nx";
    assert Stripped(t, 2, LineComment) == " \nx";
  }

  /** A form feed in a comment is blanked, and every line below moves up by one. */
  lemma FormFeedExample()
    ensures var t := "//\U{0C}\nx";
            |SplitLines(t)| == 3 && |SplitLines(StripStringsAndComments(t))| == 2 && !BreaksKept(t)
  {
    var t, r := "//\U{0C}\nx", "   \nx";
    FormFeedBlanked();
    assert Ends(t, 0, 2) == 0 && Ends(t, 0, 4) == 2;
    assert Ends(r, 0, 2) == 0 && Ends(r, 0, 4) == 1;
    SplitCount(t, 0);
    SplitCount(r, 0);
    assert !BreakKept(t, 2);
  }

  // ---------------------------------------------------------------------------------------------
  // The test lines of a whole file
  // ---------------------------------------------------------------------------------------------

  /** White space as a Unicode regular expression reads it. */
  predicate IsSpace(c: char) {
    || IsBreak(c) || c == ' ' || c == '\t' || c == '\U{1F}' || c == '\U{A0}' || c == '\U{1680}' || '\U{2000}' <= c <= '\U{200A}'
    || c == '\U{202F}' || c == '\U{205F}' || c == '\U{3000}'
  }

  /** The bare word `test` among a cfg's predicates. */
  predicate TestAt(line: string, i: nat) {
    && i + 6 <= |line| && line[i + 1..i + 5] == "test"
    && (line[i] == '(' || line[i] == ',' || IsSpace(line[i]))
    && (line[i + 5] == ')' || line[i + 5] == ',' || IsSpace(line[i + 5]))
  }

  predicate IsTestAttribute(line: string) {
    || Contains(line, "#[cfg(test)]")
    || (Contains(line, "#[cfg(") && exists i :: 0 <= i < |line| && TestAt(line, i))
  }

  /** The word `test` stands in the line between an opening mark and a closing one. */
  ghost predicate BareTest(line: string) {
    exists before, l, r, after: string :: line == before + [l] + "test" + [r] + after && Opens(l) && Closes(r)
  }

  predicate Opens(c: char) {
    c in "(," || Json.IsSpace(c)
  }

  predicate Closes(c: char) {
    c in ")," || Json.IsSpace(c)
  }

  lemma MarksAre(c: char)
    ensures Opens(c) <==> c == '(' || c == ',' || IsSpace(c)
    ensures Closes(c) <==> c == ')' || c == ',' || IsSpace(c)
  {
    BreaksAre(c);
  }

  lemma TestBetween(line: string, before: string, l: char, r: char, after: string)
    requires line == before + [l] + "test" + [r] + after && Opens(l) && Closes(r)
    ensures TestAt(line, |before|)
  {
    MarksAre(l);
    MarksAre(r);
    assert line[|before| + 1..|before| + 5] == "test";
  }

  lemma TestStands(line: string, i: nat)
    requires TestAt(line, i)
    ensures BareTest(line)
  {
    MarksAre(line[i]);
    MarksAre(line[i + 5]);
    assert line == line[..i] + [line[i]] + "test" + [line[i + 5]] + line[i + 6..];
  }

  /** A test attribute is a `cfg` of `test`, or one whose line also has the bare word somewhere. */
  lemma AttributeIff(line: string)
    ensures IsTestAttribute(line) <==>
            || (exists before, after: string :: line == before + "#[cfg(test)]" + after)
            || ((exists before, after: string :: line == before + "#[cfg(" + after) && BareTest(line))
  {
    ContainsIff(line, "#[cfg(test)]");
    ContainsIff(line, "#[cfg(");
    if i: nat :| i < |line| && TestAt(line, i) {
      TestStands(line, i);
    }
    if BareTest(line) {
      var before, l, r, after: string :| line == before + [l] + "test" + [r] + after && Opens(l) && Closes(r);
      TestBetween(line, before, l, r, after);
    }
  }

  /** Attributes are looked for in the text as it is, modules and braces in the blanked text. */
  function LinesOf(text: string): (r: seq<Line>)
    ensures |r| == |SplitLines(StripStringsAndComments(text))|
  {
    NoMoreLines(text);
    var blanked, lines := SplitLines(StripStringsAndComments(text)), SplitLines(text);
    seq(|blanked|, i requires 0 <= i < |blanked| =>
      Line(IsTestAttribute(lines[i]), Contains(blanked[i], "mod "), multiset(blanked[i])['{'], multiset(blanked[i])['}']))
  }

  /** The numbers of the lines of a file that stand in test modules. */
  method TestLinesOf(text: string) returns (inside: set<nat>)
    ensures exists blocks :: Found(LinesOf(text), 0, blocks) && inside == Covered(blocks)
  {
    var stripped := Strip(text);
    var lines, origLines := SplitLines(stripped), SplitLines(text);
    NoMoreLines(text);
    var ls := seq(|lines|, i requires 0 <= i < |lines| =>
      Line(IsTestAttribute(origLines[i]), Contains(lines[i], "mod "), multiset(lines[i])['{'], multiset(lines[i])['}']));
    assert ls == LinesOf(text);
    ghost var blocks;
    inside, blocks := TestModuleLines(ls);
  }

  /** What is found is determined by the lines. */
  lemma {:induction false} FoundOnce(ls: seq<Line>, i: nat, b: seq<(nat, nat)>, c: seq<(nat, nat)>)
    requires Found(ls, i, b) && Found(ls, i, c)
    ensures b == c
    decreases |ls| - i
  {
    if i < |ls| {
      if ls[i].attribute && exists j :: NamesAt(ls, i, j) {
        assert b[0].0 == c[0].0 && b[0].1 == c[0].1;
        FoundOnce(ls, b[0].1 + 1, b[1..], c[1..]);
        assert b == [b[0]] + b[1..] && c == [c[0]] + c[1..];
      } else {
        FoundOnce(ls, i + 1, b, c);
      }
    }
  }

  /** Line by line, both texts carry a test attribute or neither does. */
  predicate SameAttributes(t: string, u: string) {
    var n := |SplitLines(StripStringsAndComments(t))|;
    && n <= |SplitLines(t)| && n <= |SplitLines(u)|
    && forall i :: 0 <= i < n ==> IsTestAttribute(SplitLines(t)[i]) == IsTestAttribute(SplitLines(u)[i])
  }

  /** What strings and comments hold, attributes aside, changes no test line: the blanked text decides. */
  lemma BlankedTextDecides(t: string, u: string, b: seq<(nat, nat)>, c: seq<(nat, nat)>)
    requires StripStringsAndComments(t) == StripStringsAndComments(u) && SameAttributes(t, u)
    requires Found(LinesOf(t), 0, b) && Found(LinesOf(u), 0, c)
    ensures Covered(b) == Covered(c)
  {
    assert LinesOf(t) == LinesOf(u);
    FoundOnce(LinesOf(t), 0, b, c);
  }
}
