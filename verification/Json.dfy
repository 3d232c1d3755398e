/** JSON values as a decoder hands them over, and the line structure of a text. */
module Json {
  import opened Wrappers

  /** `Float` keeps its digits, and the integer it equals when it equals one. */
  datatype Value =
    | Null
    | Bool(b: bool)
    | Int(n: int)
    | Float(digits: string, whole: Option<int>)
    | Str(s: string)
    | Arr(items: seq<Value>)
    | Obj(fields: Entry)

  type Entry = map<string, Value>

  predicate IsStr(e: Entry, f: string) {
    f in e && e[f].Str?
  }

  /** A boolean is an integer to the type check. */
  predicate IsInt(e: Entry, f: string) {
    f in e && (e[f].Int? || e[f].Bool?)
  }

  predicate IsList(e: Entry, f: string) {
    f in e && e[f].Arr?
  }

  predicate NumberIs(v: Value, n: int) {
    match v
    case Int(k) => k == n
    case Bool(b) => (if b then 1 else 0) == n
    case Float(_, whole) => whole == Some(n)
    case _ => false
  }

  function IntOf(v: Value): int {
    match v
    case Int(n) => n
    case Bool(b) => if b then 1 else 0
    case _ => 0
  }

  /** What a field holds; `Null` when there is none. */
  function Field(e: Entry, f: string): Value {
    if f in e then e[f] else Null
  }

  /** Lower-case hexadecimal of that length. */
  predicate Hex(s: string, n: nat) {
    |s| == n && forall c :: c in s ==> '0' <= c <= '9' || 'a' <= c <= 'f'
  }

  predicate IsSpace(c: char) {
    var n := c as int;
    || 9 <= n <= 13 || 28 <= n <= 32 || n == 0x85 || n == 0xA0 || n == 0x1680 || 0x2000 <= n <= 0x200A
    || n == 0x2028 || n == 0x2029 || n == 0x202F || n == 0x205F || n == 0x3000
  }

  predicate Blank(s: string) {
    forall c :: c in s ==> IsSpace(c)
  }

  function StripNewlines(line: string): string {
    if line != "" && (line[|line| - 1] == '\n' || line[|line| - 1] == '\r')
    then StripNewlines(line[..|line| - 1])
    else line
  }

  /** One past the first newline, or the end. */
  function LineEnd(t: string): (i: nat)
    ensures i <= |t| && (t != "" ==> i > 0)
  {
    if t == "" then 0 else if t[0] == '\n' then 1 else 1 + LineEnd(t[1..])
  }

  /** The lines of a text, each with the newline that ends it. */
  function Lines(t: string): seq<string>
    decreases |t|
  {
    if t == "" then [] else [t[..LineEnd(t)]] + Lines(t[LineEnd(t)..])
  }

  predicate NoNewline(s: string) {
    '\n' !in s && '\r' !in s
  }

  /** The text holds only whole lines. */
  predicate WholeLines(t: string) {
    t == "" || t[|t| - 1] == '\n'
  }

  lemma {:induction false} LineEndOf(l: string, rest: string)
    requires '\n' !in l
    ensures LineEnd(l + "\n" + rest) == |l| + 1
  {
    var t := l + "\n" + rest;
    if l != "" {
      LineEndOf(l[1..], rest);
      assert t[1..] == l[1..] + "\n" + rest;
    }
  }

  lemma {:induction false} LineEndWithin(t: string, more: string)
    requires t != "" && WholeLines(t)
    ensures LineEnd(t + more) == LineEnd(t)
    ensures WholeLines(t[LineEnd(t)..])
  {
    if t[0] != '\n' {
      assert (t + more)[1..] == t[1..] + more;
      LineEndWithin(t[1..], more);
      assert t[LineEnd(t)..] == t[1..][LineEnd(t[1..])..];
    } else {
      assert (t + more)[0] == '\n';
    }
  }

  /** Appending a line to whole lines appends it to their list. */
  lemma {:induction false} LinesAppend(t: string, l: string)
    requires WholeLines(t) && '\n' !in l
    ensures Lines(t + l + "\n") == Lines(t) + [l + "\n"]
    decreases |t|
  {
    var all := t + l + "\n";
    if t == "" {
      assert all == l + "\n" + "";
      LineEndOf(l, "");
      assert all[..|l| + 1] == l + "\n" && all[|l| + 1..] == "";
    } else {
      var k := LineEnd(t);
      LineEndWithin(t, l + "\n");
      assert all == t + (l + "\n");
      assert all[..k] == t[..k];
      assert all[k..] == t[k..] + l + "\n";
      LinesAppend(t[k..], l);
    }
  }

  lemma StripsToLine(l: string)
    requires NoNewline(l)
    ensures StripNewlines(l + "\n") == l
  {
    assert (l + "\n")[..|l|] == l;
    if l != "" {
      assert l[|l| - 1] in l;
    }
  }

  // ---------------------------------------------------------------------------------------------
  // Relative paths
  // ---------------------------------------------------------------------------------------------

  /** Where the first `/` stands, or the end. */
  function SlashAt(s: string): (i: nat)
    ensures i <= |s| && (i < |s| ==> s[i] == '/') && '/' !in s[..i]
  {
    if s == "" || s[0] == '/' then 0 else 1 + SlashAt(s[1..])
  }

  function Split(s: string): seq<string>
    decreases |s|
  {
    var i := SlashAt(s);
    if i == |s| then [s] else [s[..i]] + Split(s[i + 1..])
  }

  /** The components a path has once empty ones and single dots are dropped. */
  function Proper(parts: seq<string>): seq<string> {
    if parts == [] then []
    else (if parts[0] != "" && parts[0] != "." then [parts[0]] else []) + Proper(parts[1..])
  }

  function Parts(s: string): seq<string> {
    Proper(Split(s))
  }

  predicate Absolute(s: string) {
    s != "" && s[0] == '/'
  }

  /** Neither absolute nor climbing out of its directory. */
  predicate SafePath(s: string) {
    !Absolute(s) && ".." !in Parts(s)
  }

  function Join(parts: seq<string>): string {
    if parts == [] then ""
    else if |parts| == 1 then parts[0]
    else parts[0] + "/" + Join(parts[1..])
  }

  /** The path in its plain form. */
  function PosixForm(s: string): string
    requires !Absolute(s)
  {
    if Parts(s) == [] then "." else Join(Parts(s))
  }

  ghost predicate ProperParts(parts: seq<string>) {
    forall p :: p in parts ==> p != "" && p != "." && '/' !in p
  }

  lemma {:induction false} SplitPieces(s: string)
    ensures forall p :: p in Split(s) ==> '/' !in p
    decreases |s|
  {
    var i := SlashAt(s);
    if i < |s| {
      SplitPieces(s[i + 1..]);
    } else {
      assert s[..i] == s;
    }
  }

  lemma {:induction false} ProperIs(parts: seq<string>)
    ensures forall p :: p in Proper(parts) <==> p in parts && p != "" && p != "."
  {
    if parts != [] {
      ProperIs(parts[1..]);
    }
  }

  lemma PartsAreProper(s: string)
    ensures ProperParts(Parts(s))
  {
    SplitPieces(s);
    ProperIs(Split(s));
  }

  lemma {:induction false} SlashAtEnd(s: string)
    requires '/' !in s
    ensures SlashAt(s) == |s|
  {
    if s != "" {
      SlashAtEnd(s[1..]);
    }
  }

  lemma {:induction false} SlashAfter(p: string, rest: string)
    requires '/' !in p
    ensures SlashAt(p + "/" + rest) == |p|
  {
    if p != "" {
      assert (p + "/" + rest)[1..] == p[1..] + "/" + rest;
      SlashAfter(p[1..], rest);
    }
  }

  lemma SplitAfter(p: string, rest: string)
    requires '/' !in p
    ensures Split(p + "/" + rest) == [p] + Split(rest)
  {
    SlashAfter(p, rest);
    var s := p + "/" + rest;
    assert s[..|p|] == p && s[|p| + 1..] == rest;
  }

  lemma {:induction false} SplitJoin(parts: seq<string>)
    requires ProperParts(parts) && parts != []
    ensures Split(Join(parts)) == parts
    ensures !Absolute(Join(parts))
  {
    var p := parts[0];
    assert p in parts && p[0] in p;
    if |parts| == 1 {
      SlashAtEnd(p);
    } else {
      assert forall q :: q in parts[1..] ==> q in parts;
      SplitJoin(parts[1..]);
      SplitAfter(p, Join(parts[1..]));
      assert [p] + parts[1..] == parts;
    }
  }

  lemma {:induction false} ProperIdempotent(parts: seq<string>)
    requires ProperParts(parts)
    ensures Proper(parts) == parts
  {
    if parts != [] {
      assert parts[0] in parts;
      assert forall q :: q in parts[1..] ==> q in parts;
      ProperIdempotent(parts[1..]);
      assert [parts[0]] + parts[1..] == parts;
    }
  }

  /** The plain form of a path has the same components, so it is as safe. */
  lemma PosixFormKeepsParts(s: string)
    requires !Absolute(s)
    ensures Parts(PosixForm(s)) == Parts(s) && !Absolute(PosixForm(s))
  {
    PartsAreProper(s);
    if Parts(s) == [] {
      assert SlashAt(".") == 1 by { SlashAtEnd("."); }
      assert Split(".") == ["."];
      assert Proper(["."]) == [] + Proper(["."][1..]);
    } else {
      SplitJoin(Parts(s));
      ProperIdempotent(Parts(s));
    }
  }
}
