/** What blanking does, piece by piece: where each comment and string ends is read off the text alone. */
module LexerMeaning {
  import opened Lexer

  // ---------------------------------------------------------------------------------------------
  // Pieces
  // ---------------------------------------------------------------------------------------------

  function BlankChar(c: char): char {
    if c == '\n' then '\n' else ' '
  }

  /** Every character a space, newlines kept. */
  function Blanked(s: string): (r: string)
    ensures |r| == |s| && forall i :: 0 <= i < |s| ==> r[i] == BlankChar(s[i])
  {
    seq(|s|, i requires 0 <= i < |s| => BlankChar(s[i]))
  }

  /** The text reads so at that place. */
  predicate Reads(t: string, i: nat, word: string) {
    i + |word| <= |t| && t[i..i + |word|] == word
  }

  function HashMarks(h: nat): (r: string)
    ensures |r| == h
  {
    seq(h, _ => '#')
  }

  predicate RawOpens(t: string, i: nat, h: nat) {
    Reads(t, i, "r" + HashMarks(h) + "\"")
  }

  predicate RawCloses(t: string, i: nat, h: nat) {
    Reads(t, i, "\"" + HashMarks(h))
  }

  /** How many backslashes stand right before `k`, none counted at `i` or before. */
  function Backslashes(t: string, i: nat, k: nat): nat
    requires i < k <= |t|
  {
    if k - 1 > i && t[k - 1] == '\\' then 1 + Backslashes(t, i, k - 1) else 0
  }

  /** A quote that an even number of backslashes precedes ends the string opened at `i`. */
  predicate QuoteCloses(t: string, i: nat, k: nat)
    requires i < k < |t|
  {
    t[k] == '"' && Backslashes(t, i, k) % 2 == 0
  }

  /** The comment is at that depth at `k`: where it closes. */
  function BlockEnd(t: string, k: nat, depth: nat): (e: nat)
    requires k <= |t| && depth > 0
    ensures k <= e <= |t|
    decreases |t| - k
  {
    if Reads(t, k, "/*") then BlockEnd(t, k + 2, depth + 1)
    else if Reads(t, k, "*/") then if depth == 1 then k + 2 else BlockEnd(t, k + 2, depth - 1)
    else if k < |t| then BlockEnd(t, k + 1, depth)
    else k
  }

  lemma BlankedParts(a: string, b: string)
    ensures Blanked(a + b) == Blanked(a) + Blanked(b)
  {
  }

  /** A piece, and the rest of it. */
  lemma BlankedFrom(t: string, k: nat, m: nat, e: nat)
    requires k <= m <= e <= |t|
    ensures Blanked(t[k..e]) == Blanked(t[k..m]) + Blanked(t[m..e])
  {
    assert t[k..e] == t[k..m] + t[m..e];
    BlankedParts(t[k..m], t[m..e]);
  }

  lemma Glue(out: string, mid: string, all: string, rest: string, tail: string)
    requires all == out + mid && rest == mid + tail
    ensures out + rest == all + tail
  {
  }

  /** One move that blanks what it passes, and a rest that is known. */
  lemma Moved(t: string, k: nat, st: State, m: Move, e: nat, tail: string)
    requires k < |t| && m == MoveOf(t, k, st) && k <= m.next <= e <= |t| && m.out == Blanked(t[k..m.next])
    requires Stripped(t, m.next, m.state) == Blanked(t[m.next..e]) + tail
    ensures Stripped(t, k, st) == Blanked(t[k..e]) + tail
  {
    BlankedFrom(t, k, m.next, e);
    Glue(m.out, Blanked(t[m.next..e]), Blanked(t[k..e]), Stripped(t, m.next, m.state), tail);
  }

  lemma BlankedOne(t: string, k: nat)
    requires k < |t|
    ensures Blanked(t[k..k + 1]) == [BlankChar(t[k])]
  {
  }

  lemma BlankedTwo(t: string, k: nat)
    requires k + 1 < |t|
    ensures Blanked(t[k..k + 2]) == [BlankChar(t[k]), BlankChar(t[k + 1])]
  {
  }

  lemma BlankedNone(t: string, k: nat)
    requires k <= |t|
    ensures Blanked(t[k..k]) == ""
  {
  }

  lemma ReadsTwo(t: string, k: nat, a: char, b: char)
    ensures Reads(t, k, [a, b]) <==> k + 1 < |t| && t[k] == a && t[k + 1] == b
  {
    if k + 1 < |t| {
      assert t[k..k + 2] == [t[k], t[k + 1]];
    }
  }

  // ---------------------------------------------------------------------------------------------
  // Line comments
  // ---------------------------------------------------------------------------------------------

  lemma {:induction false} LineRest(t: string, k: nat, e: nat)
    requires k <= e <= |t| && (forall m :: k <= m < e ==> t[m] != '\n') && (e == |t| || t[e] == '\n')
    ensures Stripped(t, k, LineComment) == Blanked(t[k..e]) + Stripped(t, e, Code)
    decreases e - k
  {
    if k < e {
      LineRest(t, k + 1, e);
      BlankedOne(t, k);
      Moved(t, k, LineComment, Move(" ", k + 1, LineComment), e, Stripped(t, e, Code));
    } else {
      BlankedNone(t, e);
    }
  }

  /** A line comment is blanked up to the end of its line, and code goes on there. */
  lemma LineCommentBlanked(t: string, i: nat, e: nat)
    requires Reads(t, i, "//") && i + 2 <= e <= |t| && (forall m :: i + 2 <= m < e ==> t[m] != '\n') && (e == |t| || t[e] == '\n')
    ensures Stripped(t, i, Code) == Blanked(t[i..e]) + Stripped(t, e, Code)
  {
    ReadsTwo(t, i, '/', '/');
    LineRest(t, i + 2, e);
    BlankedTwo(t, i);
    Moved(t, i, Code, Move("  ", i + 2, LineComment), e, Stripped(t, e, Code));
  }

  // ---------------------------------------------------------------------------------------------
  // Block comments
  // ---------------------------------------------------------------------------------------------

  lemma BlockMove(t: string, k: nat, depth: nat)
    requires k < |t| && depth > 0
    ensures MoveOf(t, k, BlockComment(depth)) ==
            if Reads(t, k, "/*") then Move("  ", k + 2, BlockComment(depth + 1))
            else if Reads(t, k, "*/") then Move("  ", k + 2, if depth == 1 then Code else BlockComment(depth - 1))
            else Move([BlankChar(t[k])], k + 1, BlockComment(depth))
  {
    ReadsTwo(t, k, '/', '*');
    ReadsTwo(t, k, '*', '/');
  }

  lemma {:induction false} BlockRest(t: string, k: nat, depth: nat)
    requires k <= |t| && depth > 0
    ensures var e := BlockEnd(t, k, depth); Stripped(t, k, BlockComment(depth)) == Blanked(t[k..e]) + Stripped(t, e, Code)
    decreases |t| - k
  {
    var e := BlockEnd(t, k, depth);
    var tail := Stripped(t, e, Code);
    if k == |t| {
      BlankedNone(t, k);
    } else {
      BlockMove(t, k, depth);
      BlockNext(t, k, depth);
      if Reads(t, k, "/*") {
        BlockRest(t, k + 2, depth + 1);
        Moved(t, k, BlockComment(depth), Move("  ", k + 2, BlockComment(depth + 1)), e, tail);
      } else if Reads(t, k, "*/") {
        if depth > 1 {
          BlockRest(t, k + 2, depth - 1);
        } else {
          BlankedNone(t, e);
        }
        Moved(t, k, BlockComment(depth), MoveOf(t, k, BlockComment(depth)), e, tail);
      } else {
        BlockRest(t, k + 1, depth);
        Moved(t, k, BlockComment(depth), MoveOf(t, k, BlockComment(depth)), e, tail);
      }
    }
  }

  lemma BlockNext(t: string, k: nat, depth: nat)
    requires k < |t| && depth > 0
    ensures Reads(t, k, "/*") || Reads(t, k, "*/") ==> k + 2 <= |t| && Blanked(t[k..k + 2]) == "  "
    ensures Blanked(t[k..k + 1]) == [BlankChar(t[k])]
  {
    ReadsTwo(t, k, '/', '*');
    ReadsTwo(t, k, '*', '/');
    BlankedOne(t, k);
    if k + 1 < |t| {
      BlankedTwo(t, k);
    }
  }

  /** A block comment is blanked up to the end of the one that matches its opening, comments within it counted. */
  lemma BlockCommentBlanked(t: string, i: nat)
    requires Reads(t, i, "/*")
    ensures var e := BlockEnd(t, i + 2, 1); Stripped(t, i, Code) == Blanked(t[i..e]) + Stripped(t, e, Code)
  {
    ReadsTwo(t, i, '/', '*');
    BlockRest(t, i + 2, 1);
    BlankedTwo(t, i);
    var e := BlockEnd(t, i + 2, 1);
    Moved(t, i, Code, Move("  ", i + 2, BlockComment(1)), e, Stripped(t, e, Code));
  }

  // ---------------------------------------------------------------------------------------------
  // Strings
  // ---------------------------------------------------------------------------------------------

  /** No quote before `e` ends the string opened at `i`. */
  predicate OpenUntil(t: string, i: nat, e: nat)
    requires i < e <= |t|
  {
    forall k :: i < k < e ==> !QuoteCloses(t, i, k)
  }

  lemma QuoteMove(t: string, k: nat)
    requires k < |t|
    ensures t[k] == '\\' && k + 1 < |t| ==> MoveOf(t, k, Str) == Move(Blanked(t[k..k + 2]), k + 2, Str)
    ensures t[k] == '\\' && k + 1 == |t| ==> MoveOf(t, k, Str) == Move("  ", k + 2, Str)
    ensures t[k] == '"' ==> MoveOf(t, k, Str) == Move(Blanked(t[k..k + 1]), k + 1, Code)
    ensures t[k] != '\\' && t[k] != '"' ==> MoveOf(t, k, Str) == Move(Blanked(t[k..k + 1]), k + 1, Str)
  {
    BlankedOne(t, k);
    if k + 1 < |t| {
      BlankedTwo(t, k);
    }
  }

  /** After an escape, or after anything but a backslash, the count of backslashes is even again. */
  lemma EvenAgain(t: string, i: nat, k: nat)
    requires i < k < |t| && Backslashes(t, i, k) % 2 == 0
    ensures t[k] != '\\' ==> Backslashes(t, i, k + 1) == 0
    ensures t[k] == '\\' ==> Backslashes(t, i, k + 1) % 2 == 1 && (k + 1 < |t| ==> Backslashes(t, i, k + 2) % 2 == 0)
  {
  }

  lemma NoQuoteHere(t: string, i: nat, k: nat, e: nat)
    requires i < k < e <= |t| && OpenUntil(t, i, e) && Backslashes(t, i, k) % 2 == 0
    ensures t[k] != '"'
  {
    assert !QuoteCloses(t, i, k);
  }

  lemma EscapedIsNoEnd(t: string, i: nat, k: nat, e: nat)
    requires i < k < e < |t| && t[k] == '\\' && Backslashes(t, i, k) % 2 == 0 && QuoteCloses(t, i, e)
    ensures k + 2 <= e
  {
  }

  /** One move inside a string, before its end. */
  lemma QuoteStep(t: string, i: nat, k: nat, e: nat) returns (m: Move)
    requires i < k < e < |t| && OpenUntil(t, i, e) && QuoteCloses(t, i, e) && Backslashes(t, i, k) % 2 == 0
    ensures m == MoveOf(t, k, Str) && m.state == Str && k < m.next <= e && m.out == Blanked(t[k..m.next])
    ensures Backslashes(t, i, m.next) % 2 == 0
  {
    m := MoveOf(t, k, Str);
    QuoteMove(t, k);
    EvenAgain(t, i, k);
    if t[k] == '\\' {
      EscapedIsNoEnd(t, i, k, e);
    } else {
      NoQuoteHere(t, i, k, e);
    }
  }

  lemma QuoteEnd(t: string, i: nat, e: nat, tail: string)
    requires i < e < |t| && t[e] == '"' && Stripped(t, e + 1, Code) == tail
    ensures Stripped(t, e, Str) == Blanked(t[e..e + 1]) + tail
  {
    QuoteMove(t, e);
    BlankedNone(t, e + 1);
    Moved(t, e, Str, Move(Blanked(t[e..e + 1]), e + 1, Code), e + 1, tail);
  }

  lemma {:induction false} QuoteRest(t: string, i: nat, k: nat, e: nat, tail: string)
    requires i < k <= e < |t| && OpenUntil(t, i, e) && QuoteCloses(t, i, e) && Backslashes(t, i, k) % 2 == 0
    requires tail == Stripped(t, e + 1, Code)
    ensures Stripped(t, k, Str) == Blanked(t[k..e + 1]) + tail
    decreases e - k
  {
    if k == e {
      QuoteEnd(t, i, e, tail);
    } else {
      var m := QuoteStep(t, i, k, e);
      QuoteRest(t, i, m.next, e, tail);
      Moved(t, k, Str, m, e + 1, tail);
    }
  }

  lemma QuoteOpens(t: string, i: nat)
    requires i < |t| && t[i] == '"'
    ensures MoveOf(t, i, Code) == Move(" ", i + 1, Str) && Blanked(t[i..i + 1]) == " "
  {
    BlankedOne(t, i);
  }

  /** A quote in code opens a string. */
  lemma StringMoved(t: string, i: nat, e: nat, tail: string)
    requires i < e <= |t| && t[i] == '"' && Stripped(t, i + 1, Str) == Blanked(t[i + 1..e]) + tail
    ensures Stripped(t, i, Code) == Blanked(t[i..e]) + tail
  {
    QuoteOpens(t, i);
    Moved(t, i, Code, Move(" ", i + 1, Str), e, tail);
  }

  lemma StringPassed(t: string, i: nat, e: nat, tail: string)
    requires i < e < |t| && t[i] == '"' && OpenUntil(t, i, e) && QuoteCloses(t, i, e) && tail == Stripped(t, e + 1, Code)
    ensures Stripped(t, i, Code) == Blanked(t[i..e + 1]) + tail
  {
    QuoteRest(t, i, i + 1, e, tail);
    StringMoved(t, i, e + 1, tail);
  }

  /** A string is blanked up to its first quote that is not escaped. */
  lemma StringBlanked(t: string, i: nat, e: nat)
    requires i < e < |t| && t[i] == '"' && OpenUntil(t, i, e) && QuoteCloses(t, i, e)
    ensures Stripped(t, i, Code) == Blanked(t[i..e + 1]) + Stripped(t, e + 1, Code)
  {
    StringPassed(t, i, e, Stripped(t, e + 1, Code));
  }

  /** The one space more after a lone backslash. */
  function Overhang(t: string, i: nat): string
    requires i < |t|
  {
    if Backslashes(t, i, |t|) % 2 == 1 then " " else ""
  }

  /** One move inside a string that never ends. */
  lemma OpenStep(t: string, i: nat, k: nat) returns (m: Move)
    requires i < k < |t| && OpenUntil(t, i, |t|) && Backslashes(t, i, k) % 2 == 0 && (t[k] == '\\' ==> k + 1 < |t|)
    ensures m == MoveOf(t, k, Str) && m.state == Str && k < m.next <= |t| && m.out == Blanked(t[k..m.next])
    ensures Backslashes(t, i, m.next) % 2 == 0
  {
    m := MoveOf(t, k, Str);
    QuoteMove(t, k);
    EvenAgain(t, i, k);
    if t[k] != '\\' {
      NoQuoteHere(t, i, k, |t|);
    } else if k + 2 == |t| {
      assert Backslashes(t, i, k + 2) == if t[k + 1] == '\\' then 1 + Backslashes(t, i, k + 1) else 0;
    }
  }

  lemma LoneBackslash(t: string, i: nat, k: nat)
    requires i < k && k + 1 == |t| && t[k] == '\\' && Backslashes(t, i, k) % 2 == 0
    ensures Stripped(t, k, Str) == Blanked(t[k..|t|]) + Overhang(t, i)
  {
    QuoteMove(t, k);
    BlankedOne(t, k);
    EvenAgain(t, i, k);
    assert Stripped(t, k + 2, Str) == "";
    assert Overhang(t, i) == " ";
  }

  lemma {:induction false} QuoteNeverEnds(t: string, i: nat, k: nat, over: string)
    requires i < k <= |t| && OpenUntil(t, i, |t|) && Backslashes(t, i, k) % 2 == 0 && over == Overhang(t, i)
    ensures Stripped(t, k, Str) == Blanked(t[k..|t|]) + over
    decreases |t| - k
  {
    if k == |t| {
      BlankedNone(t, k);
    } else if t[k] == '\\' && k + 1 == |t| {
      LoneBackslash(t, i, k);
    } else {
      var m := OpenStep(t, i, k);
      QuoteNeverEnds(t, i, m.next, over);
      Moved(t, k, Str, m, |t|, over);
    }
  }

  /** A string that no quote ends is blanked to the end of the text, with one space more after a lone backslash. */
  lemma OpenStringBlanked(t: string, i: nat)
    requires i < |t| && t[i] == '"' && OpenUntil(t, i, |t|)
    ensures Stripped(t, i, Code) == Blanked(t[i..|t|]) + Overhang(t, i)
  {
    QuoteNeverEnds(t, i, i + 1, Overhang(t, i));
    StringMoved(t, i, |t|, Overhang(t, i));
  }

  // ---------------------------------------------------------------------------------------------
  // Raw strings
  // ---------------------------------------------------------------------------------------------

  lemma {:induction false} HashesAre(t: string, i: nat, h: nat)
    requires i + h <= |t| && (forall k :: i <= k < i + h ==> t[k] == '#') && (i + h == |t| || t[i + h] != '#')
    ensures Hashes(t, i) == h
    decreases h
  {
    if h > 0 {
      HashesAre(t, i + 1, h - 1);
    }
  }

  lemma RawOpensAt(t: string, i: nat, h: nat)
    requires RawOpens(t, i, h)
    ensures i + h + 2 <= |t| && t[i] == 'r' && t[i + 1 + h] == '"' && (forall k :: i < k <= i + h ==> t[k] == '#')
    ensures OpensRaw(t, i) && Hashes(t, i + 1) == h
  {
    var word := "r" + HashMarks(h) + "\"";
    assert forall j :: 0 <= j < h + 2 ==> t[i + j] == word[j];
    forall k | i < k <= i + h
      ensures t[k] == '#'
    {
      assert t[i + (k - i)] == word[k - i];
    }
    assert t[i + 0] == word[0] && t[i + (h + 1)] == word[h + 1];
    HashesAre(t, i + 1, h);
  }

  lemma RawOpensIff(t: string, i: nat)
    requires i < |t|
    ensures t[i] == 'r' && OpensRaw(t, i) <==> exists h :: RawOpens(t, i, h)
  {
    if t[i] == 'r' && OpensRaw(t, i) {
      var h := Hashes(t, i + 1);
      assert t[i..i + h + 2] == "r" + HashMarks(h) + "\"";
      assert RawOpens(t, i, h);
    }
    if h: nat :| RawOpens(t, i, h) {
      RawOpensAt(t, i, h);
    }
  }

  lemma RawClosesIff(t: string, k: nat, h: nat)
    requires k < |t|
    ensures ClosesRaw(t, k, h) <==> RawCloses(t, k, h)
  {
    var word := "\"" + HashMarks(h);
    if ClosesRaw(t, k, h) {
      assert t[k..k + 1 + h] == word;
    }
    if RawCloses(t, k, h) {
      assert forall j :: 0 <= j < 1 + h ==> t[k + j] == word[j];
      assert t[k + 0] == word[0];
      forall m | k < m <= k + h
        ensures t[m] == '#'
      {
        assert t[k + (m - k)] == word[m - k];
      }
    }
  }

  lemma {:induction false} RawRest(t: string, h: nat, k: nat, e: nat)
    requires k <= e <= |t| && (forall m :: k <= m < e ==> !RawCloses(t, m, h)) && (e == |t| || RawCloses(t, e, h))
    ensures var next := if e == |t| then e else e + 1 + h;
            next <= |t| && Stripped(t, k, RawStr(h)) == Blanked(t[k..next]) + Stripped(t, next, Code)
    decreases e - k
  {
    var next := if e == |t| then e else e + 1 + h;
    var tail := Stripped(t, next, Code);
    if k == |t| {
      BlankedNone(t, k);
    } else {
      RawClosesIff(t, k, h);
      if k == e {
        RawTail(t, h, e);
        BlankedNone(t, next);
        Moved(t, k, RawStr(h), Move(Spaces(1 + h), e + 1 + h, Code), next, tail);
      } else {
        RawRest(t, h, k + 1, e);
        BlankedOne(t, k);
        Moved(t, k, RawStr(h), Move(Keep(t[k]), k + 1, RawStr(h)), next, tail);
      }
    }
  }

  lemma RawTail(t: string, h: nat, e: nat)
    requires RawCloses(t, e, h)
    ensures Blanked(t[e..e + 1 + h]) == Spaces(1 + h)
  {
    var word := "\"" + HashMarks(h);
    assert forall c :: c in word ==> c != '\n';
    assert forall j :: 0 <= j < |word| ==> word[j] in word;
  }

  lemma RawMoved(t: string, i: nat, h: nat, next: nat, tail: string)
    requires RawOpens(t, i, h) && i + h + 2 <= next <= |t|
    requires Stripped(t, i + h + 2, RawStr(h)) == Blanked(t[i + h + 2..next]) + tail
    ensures Stripped(t, i, Code) == Blanked(t[i..next]) + tail
  {
    RawHead(t, i, h);
    RawMove(t, i, h);
    Moved(t, i, Code, Move(Spaces(h + 2), i + h + 2, RawStr(h)), next, tail);
  }

  /** A raw string is blanked up to its first quote with as many hashes, or to the end of the text. */
  lemma RawStringBlanked(t: string, i: nat, h: nat, e: nat)
    requires RawOpens(t, i, h) && i + h + 2 <= e <= |t|
    requires (forall m :: i + h + 2 <= m < e ==> !RawCloses(t, m, h)) && (e == |t| || RawCloses(t, e, h))
    ensures var next := if e == |t| then e else e + 1 + h;
            next <= |t| && Stripped(t, i, Code) == Blanked(t[i..next]) + Stripped(t, next, Code)
  {
    RawRest(t, h, i + h + 2, e);
    var next := if e == |t| then e else e + 1 + h;
    RawMoved(t, i, h, next, Stripped(t, next, Code));
  }

  lemma RawMove(t: string, i: nat, h: nat)
    requires RawOpens(t, i, h)
    ensures i < |t| && MoveOf(t, i, Code) == Move(Spaces(h + 2), i + h + 2, RawStr(h))
  {
    RawOpensAt(t, i, h);
    assert t[i + 1] == '"' || t[i + 1] == '#';
  }

  lemma RawHead(t: string, i: nat, h: nat)
    requires RawOpens(t, i, h)
    ensures Blanked(t[i..i + h + 2]) == Spaces(h + 2)
  {
    var word := "r" + HashMarks(h) + "\"";
    assert forall j :: 0 <= j < |word| ==> word[j] != '\n';
  }

  // ---------------------------------------------------------------------------------------------
  // Code
  // ---------------------------------------------------------------------------------------------

  /** No comment and no string starts at `i`. */
  ghost predicate IsCode(t: string, i: nat)
    requires i < |t|
  {
    t[i] != '"' && !Reads(t, i, "//") && !Reads(t, i, "/*") && forall h :: !RawOpens(t, i, h)
  }

  /** Everything else is kept. */
  lemma CodeKept(t: string, i: nat)
    requires i < |t| && IsCode(t, i)
    ensures Stripped(t, i, Code) == [t[i]] + Stripped(t, i + 1, Code)
  {
    ReadsTwo(t, i, '/', '/');
    ReadsTwo(t, i, '/', '*');
    RawOpensIff(t, i);
  }
}
