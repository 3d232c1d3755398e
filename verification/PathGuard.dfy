/** What redaction and the guard on written evidence each look for, and what gets between the two. */
module PathGuard {
  import opened Json
  import opened Text
  import opened Ledger
  import opened Gate
  import opened GateProofs
  import opened AuditProofs

  const ROOTS: seq<string> := ["Users/", "private/", "tmp/", "var/", "home/"]

  predicate IsAlnum(c: char) {
    '0' <= c <= '9' || 'A' <= c <= 'Z' || 'a' <= c <= 'z'
  }

  /** One character of a path: no white space and no quote. */
  predicate PathChar(c: char) {
    !IsSpace(c) && c != '"' && c != '\''
  }

  /** The pattern both look for: a slash not after a letter, a digit or a colon, a root, and one character more. */
  predicate LocalPathAt(s: string, i: nat, root: string)
    requires i < |s|
  {
    && s[i] == '/' && (i > 0 ==> !IsAlnum(s[i - 1]) && s[i - 1] != ':')
    && StartsWith(s[i + 1..], root)
    && i + 1 + |root| < |s| && PathChar(s[i + 1 + |root|])
  }

  predicate HasLocalPath(s: string) {
    exists i, k :: 0 <= i < |s| && 0 <= k < |ROOTS| && LocalPathAt(s, i, ROOTS[k])
  }

  function Escaped(s: string): string {
    if s == "" then ""
    else
      (match s[0]
       case '"' => "\\\""
       case '\\' => "\\\\"
       case '\n' => "\\n"
       case '\r' => "\\r"
       case '\t' => "\\t"
       case c => [c]) + Escaped(s[1..])
  }

  /** A string or a key as the encoder writes it. */
  function Quoted(s: string): string {
    "\"" + Escaped(s) + "\""
  }

  /** Whether a string, or a key, of that text is somewhere in the document. */
  ghost predicate HoldsText(v: Value, s: string) {
    match v
    case Str(t) => t == s
    case Arr(xs) => exists i :: 0 <= i < |xs| && HoldsText(xs[i], s)
    case Obj(m) => s in m || exists k :: k in m && HoldsText(m[k], s)
    case _ => false
  }

  ghost predicate Within(part: string, whole: string) {
    exists before: string, after: string :: whole == before + part + after
  }

  /** An encoder that writes every string and every key out, and a guard that looks for local paths. */
  ghost predicate WritesOutAndGuards(g: EvidenceCodec) {
    && (forall v, s :: HoldsText(v, s) ==> Within(Quoted(s), g.encode(v)))
    && (forall t :: HasLocalPath(t) ==> g.leaks(t))
  }

  /** A path inside a quoted text is one inside whatever holds the text. */
  lemma PathWithin(part: string, whole: string)
    requires HasLocalPath(part) && part[0] == '"' && Within(part, whole)
    ensures HasLocalPath(whole)
  {
    var before, after :| whole == before + part + after;
    var i, k :| 0 <= i < |part| && 0 <= k < |ROOTS| && LocalPathAt(part, i, ROOTS[k]);
    PathShifted(before, part, after, i, ROOTS[k]);
    assert LocalPathAt(before + part + after, |before| + i, ROOTS[k]);
  }

  lemma PathShifted(before: string, part: string, after: string, i: nat, root: string)
    requires 0 < i < |part| && LocalPathAt(part, i, root)
    ensures LocalPathAt(before + part + after, |before| + i, root)
  {
    var whole, j, n := before + part + after, |before| + i, |root|;
    assert whole[j - 1] == part[i - 1] && whole[j] == part[i];
    assert whole[j + 1..][..n] == part[i + 1..][..n];
    assert whole[j + 1 + n] == part[i + 1 + n];
  }

  /** Evidence that holds a text which is a local path once quoted is never written. */
  lemma LeaksIfHeld(g: EvidenceCodec, v: Value, s: string)
    requires WritesOutAndGuards(g) && HoldsText(v, s) && HasLocalPath(Quoted(s))
    ensures g.leaks(g.encode(v))
  {
    PathWithin(Quoted(s), g.encode(v));
  }

  lemma BrowserField(run: GateRun, boards: seq<Value>, completed: bool, browser: Value)
    ensures var v := EvidenceOf(run, boards, completed, browser); v.Obj? && Field(v.fields, "browser") == browser
  {
  }

  lemma FieldHolds(v: Value, k: string, s: string)
    requires v.Obj? && HoldsText(Field(v.fields, k), s)
    ensures HoldsText(v, s)
  {
  }

  lemma HoldsSomething(v: Value, s: string)
    requires HoldsText(v, s)
    ensures v != Null
  {
  }

  /** The redacted document holds what its redacted field holds. */
  lemma RedactedFieldHolds(g: EvidenceCodec, v: Value, k: string, s: string)
    requires v.Obj? && HoldsText(Redact(g, Field(v.fields, k)), s)
    ensures HoldsText(Redact(g, v), s)
  {
    HoldsSomething(Redact(g, Field(v.fields, k)), s);
    RedactedField(g, v, k);
    FieldHolds(Redact(g, v), k, s);
  }

  /** The evidence holds what its browser document holds once redacted. */
  lemma EvidenceHolds(c: Codec, g: EvidenceCodec, store: Store, run: GateRun, s: string)
    requires Reserves(c, store, run) && VerdictOf(run).Records? && HoldsText(Redact(g, VerdictOf(run).browser), s)
    ensures HoldsText(EvidenceOfRun(c, g, store, run), s)
  {
    var d := VerdictOf(run);
    var boards := EvidenceBoards(SelectedOf(run.eligible, BoardsOf(EntryFor(c, store, run))), run.disk, d.staged);
    BrowserField(run, boards, d.completed, d.browser);
    RedactedFieldHolds(g, EvidenceOf(run, boards, d.completed, d.browser), "browser", s);
  }

  /** A reserved run whose browser document holds such a text, redaction notwithstanding, escapes unrecorded. */
  lemma HeldPathEscapes(c: Codec, g: EvidenceCodec, store: Store, run: GateRun, s: string)
    requires WritesOutAndGuards(g) && Reserves(c, store, run) && VerdictOf(run).Records?
    requires HoldsText(Redact(g, VerdictOf(run).browser), s) && HasLocalPath(Quoted(s))
    ensures GateSpec(c, g, store, run) == (Reserved(c, store, run), Ending.Escaped)
  {
    EvidenceHolds(c, g, store, run, s);
    LeaksIfHeld(g, EvidenceOfRun(c, g, store, run), s);
    UnrecordedRunEscapes(c, g, store, run);
  }

  lemma RedactKeepsKey(g: EvidenceCodec, v: Value, k: string)
    requires v.Obj? && k in v.fields
    ensures HoldsText(Redact(g, v), k)
  {
  }

  predicate Plain(c: char) {
    c != '"' && c != '\\' && c != '\n' && c != '\r' && c != '\t'
  }

  lemma {:induction false} EscapedPlain(a: string, rest: string)
    requires forall c :: c in a ==> Plain(c)
    ensures Escaped(a + rest) == a + Escaped(rest)
  {
    if a == "" {
      assert a + rest == rest;
    } else {
      assert (a + rest)[1..] == a[1..] + rest;
      assert a[0] in a && (a + rest)[0] == a[0];
      EscapedPlain(a[1..], rest);
      assert a == [a[0]] + a[1..];
    }
  }

  lemma QuotedTmp()
    ensures Quoted("/tmp/x") == "\"/tmp/x\""
  {
    EscapedPlain("/tmp/x", "");
    assert "/tmp/x" + "" == "/tmp/x";
    assert Escaped("") == "";
  }

  lemma TmpIsLocal()
    ensures HasLocalPath(Quoted("/tmp/x"))
  {
    QuotedTmp();
    assert LocalPathAt(Quoted("/tmp/x"), 1, ROOTS[2]);
  }

  /** Redaction leaves keys alone, so a key that is a local path makes the run escape. */
  lemma PathKeyEscapes(c: Codec, g: EvidenceCodec, store: Store, run: GateRun)
    requires WritesOutAndGuards(g) && Reserves(c, store, run) && VerdictOf(run).Records?
    requires VerdictOf(run).browser.Obj? && "/tmp/x" in VerdictOf(run).browser.fields
    ensures GateSpec(c, g, store, run) == (Reserved(c, store, run), Ending.Escaped)
  {
    TmpIsLocal();
    RedactKeepsKey(g, VerdictOf(run).browser, "/tmp/x");
    HeldPathEscapes(c, g, store, run, "/tmp/x");
  }

  /** A root followed by a quote is no local path to redaction, but the backslash that escapes the quote makes it one. */
  lemma QuoteAfterRoot()
    ensures !HasLocalPath("/tmp/\"") && HasLocalPath(Quoted("/tmp/\""))
  {
    var s := "/tmp/\"";
    forall i, k | 0 <= i < |s| && 0 <= k < |ROOTS|
      ensures !LocalPathAt(s, i, ROOTS[k])
    {
      if i == 0 && k != 2 {
        assert s[1..][0] == 't' && ROOTS[k][0] != 't';
      }
    }
    EscapedRootAndQuote();
    assert LocalPathAt(Quoted(s), 1, ROOTS[2]);
  }

  lemma EscapedRootAndQuote()
    ensures Quoted("/tmp/\"") == "\"/tmp/\\\"\""
  {
    EscapedPlain("/tmp/", "\"");
    assert "/tmp/" + "\"" == "/tmp/\"";
    assert "\""[1..] == "";
    assert Escaped("\"") == "\\\"";
  }

  /** So a browser document with that string makes the run escape where redaction keeps what it does not match. */
  lemma QuotedRootEscapes(c: Codec, g: EvidenceCodec, store: Store, run: GateRun, k: string)
    requires WritesOutAndGuards(g) && Reserves(c, store, run) && VerdictOf(run).Records?
    requires VerdictOf(run).browser.Obj? && k in VerdictOf(run).browser.fields
    requires VerdictOf(run).browser.fields[k] == Str("/tmp/\"") && g.redact("/tmp/\"") == "/tmp/\""
    ensures GateSpec(c, g, store, run) == (Reserved(c, store, run), Ending.Escaped)
  {
    QuoteAfterRoot();
    RedactedFieldHolds(g, VerdictOf(run).browser, k, "/tmp/\"");
    HeldPathEscapes(c, g, store, run, "/tmp/\"");
  }
}
