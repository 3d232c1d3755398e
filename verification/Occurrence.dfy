/** Evidence subjects for components whose reference occurs more than once. */
module Occurrence {
  import opened Wrappers
  import opened Sequences
  import opened Text

  const OCCURRENCE_PREFIX := "@hkb-occurrence:"

  // ---------------------------------------------------------------------------------------------
  // Trimming
  // ---------------------------------------------------------------------------------------------

  /** The Unicode White_Space property. */
  predicate IsWhite(c: char) {
    '\t' <= c <= '\r' || c == ' ' || c == '\U{85}' || c == '\U{A0}' || c == '\U{1680}' || '\U{2000}' <= c <= '\U{200A}'
    || c == '\U{2028}' || c == '\U{2029}' || c == '\U{202F}' || c == '\U{205F}' || c == '\U{3000}'
  }

  function Trim(s: string): (r: string)
    ensures r != "" ==> !IsWhite(r[0]) && !IsWhite(r[|r| - 1])
    decreases |s|
  {
    if s == "" then ""
    else if IsWhite(s[0]) then Trim(s[1..])
    else if IsWhite(s[|s| - 1]) then Trim(s[..|s| - 1])
    else s
  }

  /** The code points of white space. */
  lemma WhiteAre(c: char)
    ensures var n := c as int;
            IsWhite(c) <==>
              || 9 <= n <= 13 || n == 32 || n == 0x85 || n == 0xA0 || n == 0x1680 || 0x2000 <= n <= 0x200A
              || n == 0x2028 || n == 0x2029 || n == 0x202F || n == 0x205F || n == 0x3000
  {
  }

  /** Outside `i`, .., `j - 1` every character is of that kind. */
  ghost predicate Around(s: string, i: nat, j: nat, kind: char -> bool) {
    i <= j <= |s| && forall k :: 0 <= k < |s| && (k < i || k >= j) ==> kind(s[k])
  }

  lemma AroundFirst(s: string, i: nat, j: nat, kind: char -> bool)
    requires s != "" && kind(s[0]) && Around(s[1..], i, j, kind)
    ensures Around(s, i + 1, j + 1, kind) && s[1..][i..j] == s[i + 1..j + 1]
  {
    forall k | 0 <= k < |s| && (k < i + 1 || k >= j + 1)
      ensures kind(s[k])
    {
      if k > 0 {
        assert s[k] == s[1..][k - 1];
      }
    }
  }

  lemma AroundLast(s: string, i: nat, j: nat, kind: char -> bool)
    requires s != "" && kind(s[|s| - 1]) && Around(s[..|s| - 1], i, j, kind)
    ensures Around(s, i, j, kind) && s[..|s| - 1][i..j] == s[i..j]
  {
    forall k | 0 <= k < |s| && (k < i || k >= j)
      ensures kind(s[k])
    {
      if k < |s| - 1 {
        assert s[k] == s[..|s| - 1][k];
      }
    }
  }

  /** What is left stands in the text with nothing but white space before and after it. */
  lemma {:induction false} TrimIs(s: string) returns (i: nat, j: nat)
    ensures Around(s, i, j, IsWhite) && Trim(s) == s[i..j]
    decreases |s|
  {
    i, j := 0, |s|;
    if s != "" {
      if IsWhite(s[0]) {
        i, j := TrimIs(s[1..]);
        AroundFirst(s, i, j, IsWhite);
        i, j := i + 1, j + 1;
      } else if IsWhite(s[|s| - 1]) {
        i, j := TrimIs(s[..|s| - 1]);
        AroundLast(s, i, j, IsWhite);
      }
    }
  }

  lemma TrimTrimmed(s: string)
    ensures Trim(Trim(s)) == Trim(s)
  {
  }

  // ---------------------------------------------------------------------------------------------
  // UTF-8
  // ---------------------------------------------------------------------------------------------

  type byte = n: nat | n < 256

  /** The UTF-8 bytes of one character (section 3 of RFC 3629). */
  function Utf8Of(c: char): (r: seq<byte>)
    ensures r != []
  {
    var n := c as int;
    if n < 0x80 then [n]
    else if n < 0x800 then [0xC0 + n / 64, 0x80 + n % 64]
    else if n < 0x1_0000 then [0xE0 + n / 4096, 0x80 + n / 64 % 64, 0x80 + n % 64]
    else
      LargestScalar(n);
      [0xF0 + n / 262144, 0x80 + n / 4096 % 64, 0x80 + n / 64 % 64, 0x80 + n % 64]
  }

  lemma LargestScalar(n: nat)
    requires n < 0x11_0000
    ensures n / 262144 < 5
  {
  }

  function Utf8(s: string): seq<byte> {
    if s == "" then [] else Utf8Of(s[0]) + Utf8(s[1..])
  }

  /** How many bytes the first character takes, by its leading byte. */
  function LengthAt(first: byte): (n: nat)
    ensures 1 <= n <= 4
  {
    if first < 0x80 then 1 else if first < 0xE0 then 2 else if first < 0xF0 then 3 else 4
  }

  /** The scalar value of one character's bytes. */
  function ScalarOf(b: seq<byte>): int {
    if |b| == 1 then b[0]
    else if |b| == 2 then 64 * b[0] as int + b[1] as int - 0x3080
    else if |b| == 3 then 4096 * b[0] as int + 64 * b[1] as int + b[2] as int - 0xE_2080
    else if |b| == 4 then 262144 * b[0] as int + 4096 * b[1] as int + 64 * b[2] as int + b[3] as int - 0x3C8_2080
    else 0
  }

  lemma CharDecodes(c: char)
    ensures LengthAt(Utf8Of(c)[0]) == |Utf8Of(c)| && ScalarOf(Utf8Of(c)) == c as int
  {
    var n := c as int;
    if n >= 0x1_0000 {
      LargestScalar(n);
      assert n / 64 / 64 == n / 4096 && n / 4096 / 64 == n / 262144;
      assert n / 4096 == n / 262144 * 64 + n / 4096 % 64;
      assert n / 64 == n / 4096 * 64 + n / 64 % 64;
      assert n == n / 64 * 64 + n % 64;
    } else if n >= 0x800 {
      assert n / 64 / 64 == n / 4096;
      assert n / 64 == n / 4096 * 64 + n / 64 % 64;
      assert n == n / 64 * 64 + n % 64;
    }
  }

  /** A byte that goes on a character: six bits under the mark 10. */
  predicate Continues(b: byte) {
    0x80 <= b < 0xC0
  }

  /** A character takes as few bytes as its value needs, the first marked with how many, six bits in each other. */
  lemma CharBytes(c: char)
    ensures var b, n := Utf8Of(c), c as int;
            if n < 0x80 then b == [n]
            else if n < 0x800 then |b| == 2 && Continues(b[1]) && n == 0x40 * (b[0] as int - 0xC0) + (b[1] as int - 0x80)
            else if n < 0x1_0000 then
              && |b| == 3 && Continues(b[1]) && Continues(b[2])
              && n == 0x1000 * (b[0] as int - 0xE0) + 0x40 * (b[1] as int - 0x80) + (b[2] as int - 0x80)
            else
              && |b| == 4 && Continues(b[1]) && Continues(b[2]) && Continues(b[3])
              && n == 0x4_0000 * (b[0] as int - 0xF0) + 0x1000 * (b[1] as int - 0x80) + 0x40 * (b[2] as int - 0x80)
                   + (b[3] as int - 0x80)
  {
    CharDecodes(c);
  }

  /** Different texts have different bytes. */
  lemma {:induction false} Utf8Injective(a: string, b: string)
    requires Utf8(a) == Utf8(b)
    ensures a == b
  {
    if a != "" && b != "" {
      CharDecodes(a[0]);
      CharDecodes(b[0]);
      var n := |Utf8Of(a[0])|;
      assert Utf8(a)[0] == Utf8Of(a[0])[0] && Utf8(b)[0] == Utf8Of(b[0])[0];
      assert Utf8(a)[..n] == Utf8Of(a[0]) && Utf8(b)[..n] == Utf8Of(b[0]);
      assert Utf8(a)[n..] == Utf8(a[1..]) && Utf8(b)[n..] == Utf8(b[1..]);
      Utf8Injective(a[1..], b[1..]);
      assert a == [a[0]] + a[1..] && b == [b[0]] + b[1..];
    }
  }

  // ---------------------------------------------------------------------------------------------
  // Hexadecimal and decimal
  // ---------------------------------------------------------------------------------------------

  const HEX := "0123456789ABCDEF"

  function HexDigit(n: nat): char
    requires n < 16
  {
    HEX[n]
  }

  function HexValue(c: char): (r: Option<nat>)
    ensures r.Some? ==> r.value < 16
  {
    if '0' <= c <= '9' then Some(c as int - '0' as int)
    else if 'A' <= c <= 'F' then Some(c as int - 'A' as int + 10)
    else None
  }

  lemma HexDigitValue(n: nat)
    requires n < 16
    ensures HexValue(HexDigit(n)) == Some(n) && HexDigit(n) != ':'
  {
  }

  function HexOf(b: byte): string {
    [HexDigit(b / 16), HexDigit(b % 16)]
  }

  /** Two upper-case digits a byte. */
  function Encode(bytes: seq<byte>): string {
    if bytes == [] then "" else Encode(bytes[..|bytes| - 1]) + HexOf(bytes[|bytes| - 1])
  }

  /** The bytes of an even run of digits up to a colon, and what follows the colon. */
  function DecodeHex(s: string): Option<(seq<byte>, string)> {
    if s == "" then None
    else if s[0] == ':' then Some(([], s[1..]))
    else if |s| < 2 then None
    else
      match (HexValue(s[0]), HexValue(s[1]), DecodeHex(s[2..]))
      case (Some(hi), Some(lo), Some(rest)) => Some(([16 * hi + lo] + rest.0, rest.1))
      case _ => None
  }

  lemma ByteDecodes(b: byte, s: string, bytes: seq<byte>, rest: string)
    requires DecodeHex(s) == Some((bytes, rest))
    ensures DecodeHex(HexOf(b) + s) == Some(([b] + bytes, rest))
  {
    HexDigitValue(b / 16);
    HexDigitValue(b % 16);
    assert (HexOf(b) + s)[2..] == s;
  }

  lemma Regroup<T>(a: seq<T>, b: seq<T>, c: seq<T>)
    ensures a + b + c == a + (b + c)
  {
  }

  lemma {:induction false} EncodedDecodes(bytes: seq<byte>, after: seq<byte>, s: string, rest: string)
    requires DecodeHex(s) == Some((after, rest))
    ensures DecodeHex(Encode(bytes) + s) == Some((bytes + after, rest))
  {
    if bytes == [] {
      assert Encode(bytes) + s == s && bytes + after == after;
    } else {
      var front, last := bytes[..|bytes| - 1], bytes[|bytes| - 1];
      ByteDecodes(last, s, after, rest);
      EncodedDecodes(front, [last] + after, HexOf(last) + s, rest);
      Regroup(Encode(front), HexOf(last), s);
      Regroup(front, [last], after);
      assert bytes == front + [last];
    }
  }

  function Decimal(n: nat): string {
    if n < 10 then [HexDigit(n)] else Decimal(n / 10) + [HexDigit(n % 10)]
  }

  function DecimalValue(s: string): Option<nat> {
    if s == "" then Some(0)
    else
      match (DecimalValue(s[..|s| - 1]), HexValue(s[|s| - 1]))
      case (Some(high), Some(low)) => if low < 10 then Some(10 * high + low) else None
      case _ => None
  }

  lemma {:induction false} DecimalDecodes(n: nat)
    ensures DecimalValue(Decimal(n)) == Some(n)
  {
    var s := Decimal(n);
    HexDigitValue(n % 10);
    if n < 10 {
      assert s[..|s| - 1] == "";
      assert n % 10 == n;
    } else {
      DecimalDecodes(n / 10);
      assert s[..|s| - 1] == Decimal(n / 10);
    }
  }

  /** Digits only, and no zero in front of another. */
  lemma {:induction false} DecimalPlain(n: nat)
    ensures Decimal(n) != "" && (n > 0 ==> Decimal(n)[0] != '0') && forall c :: c in Decimal(n) ==> '0' <= c <= '9'
  {
    if n >= 10 {
      DecimalPlain(n / 10);
    }
  }

  // ---------------------------------------------------------------------------------------------
  // Subjects
  // ---------------------------------------------------------------------------------------------

  /** Whether the trimmed reference can be its own subject. */
  predicate PlainSubject(trimmed: string, total: nat) {
    trimmed != "" && total <= 1 && !StartsWith(trimmed, OCCURRENCE_PREFIX)
  }

  function EncodedSubject(trimmed: string, ordinal: nat): string {
    OCCURRENCE_PREFIX + Encode(Utf8(trimmed)) + ":" + Decimal(ordinal)
  }

  method EncodeBytes(bytes: seq<byte>) returns (out: string)
    ensures out == Encode(bytes)
  {
    out := "";
    for i := 0 to |bytes|
      invariant out == Encode(bytes[..i])
    {
      assert bytes[..i + 1][..i] == bytes[..i];
      out := out + HexOf(bytes[i]);
    }
    assert bytes[..|bytes|] == bytes;
  }

  function SubjectOf(reference: string, total: nat, ordinal: nat): string {
    if PlainSubject(Trim(reference), total) then Trim(reference) else EncodedSubject(Trim(reference), ordinal)
  }

  method ComponentOccurrenceSubject(reference: string, total: nat, ordinal: nat) returns (subject: string)
    ensures subject == SubjectOf(reference, total, ordinal)
  {
    var trimmed := Trim(reference);
    if trimmed != "" && total <= 1 && !StartsWith(trimmed, OCCURRENCE_PREFIX) {
      return trimmed;
    }
    var encoded := EncodeBytes(Utf8(trimmed));
    subject := OCCURRENCE_PREFIX + encoded + ":" + Decimal(ordinal);
  }

  function Trimmed(refs: seq<string>): (r: seq<string>)
    ensures |r| == |refs| && forall i :: 0 <= i < |refs| ==> r[i] == Trim(refs[i])
  {
    seq(|refs|, i requires 0 <= i < |refs| => Trim(refs[i]))
  }

  /** The map holds every reference's count among the first `i`. */
  ghost predicate Tallied(m: map<string, nat>, keys: seq<string>, i: nat) {
    i <= |keys| && forall x :: multiset(keys[..i])[x] == TallyOf(m, x)
  }

  function TallyOf(m: map<string, nat>, x: string): nat {
    if x in m then m[x] else 0
  }

  lemma TallyStep(m: map<string, nat>, keys: seq<string>, i: nat)
    requires Tallied(m, keys, i) && i < |keys|
    ensures Tallied(m[keys[i] := TallyOf(m, keys[i]) + 1], keys, i + 1)
    ensures multiset(keys[..i + 1])[keys[i]] == TallyOf(m, keys[i]) + 1
  {
    assert keys[..i + 1] == keys[..i] + [keys[i]];
    var m' := m[keys[i] := TallyOf(m, keys[i]) + 1];
    forall x
      ensures multiset(keys[..i + 1])[x] == TallyOf(m', x)
    {
      assert multiset(keys[..i])[x] == TallyOf(m, x);
    }
  }

  lemma TallyWhole(m: map<string, nat>, keys: seq<string>, x: string)
    requires Tallied(m, keys, |keys|)
    ensures TallyOf(m, x) == multiset(keys)[x]
  {
    assert keys[..|keys|] == keys;
    assert multiset(keys[..|keys|])[x] == TallyOf(m, x);
  }

  method CountTotals(refs: seq<string>) returns (totals: map<string, nat>)
    ensures Tallied(totals, Trimmed(refs), |refs|)
  {
    totals := map[];
    ghost var keys := Trimmed(refs);
    for i := 0 to |refs|
      invariant Tallied(totals, keys, i)
    {
      TallyStep(totals, keys, i);
      var trimmed := Trim(refs[i]);
      totals := totals[trimmed := TallyOf(totals, trimmed) + 1];
    }
  }

  /**
    The subject of the `i`-th reference, given all of them trimmed: it knows how often its own occurs in
    the whole list, and how often up to its place.
   */
  function SubjectAt(keys: seq<string>, i: nat): string
    requires i < |keys|
  {
    SubjectOf(keys[i], multiset(keys)[keys[i]], multiset(keys[..i + 1])[keys[i]])
  }

  /** The tallies give the subject its two numbers. */
  lemma SubjectIs(keys: seq<string>, i: nat, totals: map<string, nat>, seen: map<string, nat>, x: string, total: nat, ordinal: nat)
    requires i < |keys| && x == keys[i] && Tallied(totals, keys, |keys|) && Tallied(seen, keys, i)
    requires total == TallyOf(totals, x) && ordinal == TallyOf(seen, x) + 1
    ensures SubjectAt(keys, i) == SubjectOf(x, total, ordinal)
    ensures Tallied(seen[x := ordinal], keys, i + 1)
  {
    TallyStep(seen, keys, i);
    TallyWhole(totals, keys, x);
  }

  /** The first subjects, one for each reference so far. */
  ghost predicate Listed(subjects: seq<string>, keys: seq<string>) {
    |subjects| <= |keys| && forall k :: 0 <= k < |subjects| ==> subjects[k] == SubjectAt(keys, k)
  }

  lemma ListedMore(subjects: seq<string>, keys: seq<string>, subject: string)
    requires Listed(subjects, keys) && |subjects| < |keys| && subject == SubjectAt(keys, |subjects|)
    ensures Listed(subjects + [subject], keys)
  {
  }

  method SubjectsForReferences(refs: seq<string>) returns (subjects: seq<string>)
    ensures |subjects| == |refs| && forall i :: 0 <= i < |refs| ==> subjects[i] == SubjectAt(Trimmed(refs), i)
  {
    var totals := CountTotals(refs);
    ghost var keys := Trimmed(refs);
    var seen: map<string, nat> := map[];
    subjects := [];
    for i := 0 to |refs|
      invariant Tallied(seen, keys, i)
      invariant |subjects| == i && Listed(subjects, keys)
    {
      var trimmed := Trim(refs[i]);
      var ordinal := TallyOf(seen, trimmed) + 1;
      SubjectIs(keys, i, totals, seen, trimmed, TallyOf(totals, trimmed), ordinal);
      seen := seen[trimmed := ordinal];
      var subject := ComponentOccurrenceSubject(trimmed, TallyOf(totals, trimmed), ordinal);
      ListedMore(subjects, keys, subject);
      subjects := subjects + [subject];
    }
  }

  ghost function PlacesOf(keys: seq<string>, n: nat, x: string): set<nat>
    requires n <= |keys|
  {
    set j: nat | j < n && keys[j] == x
  }

  lemma {:induction false} PlacesCount(keys: seq<string>, n: nat, x: string)
    requires n <= |keys|
    ensures multiset(keys[..n])[x] == |PlacesOf(keys, n, x)|
  {
    if n == 0 {
      assert keys[..0] == [];
      assert PlacesOf(keys, 0, x) == {};
    } else {
      PlacesCount(keys, n - 1, x);
      assert keys[..n] == keys[..n - 1] + [keys[n - 1]];
      var was := PlacesOf(keys, n - 1, x);
      assert PlacesOf(keys, n, x) == was + if keys[n - 1] == x then {n - 1} else {};
    }
  }

  lemma AloneCounts(keys: seq<string>, i: nat)
    requires i < |keys|
    ensures multiset(keys)[keys[i]] <= 1 <==> forall j :: 0 <= j < |keys| && j != i ==> keys[j] != keys[i]
  {
    PlacesCount(keys, |keys|, keys[i]);
    assert keys[..|keys|] == keys;
    var places := PlacesOf(keys, |keys|, keys[i]);
    assert i in places;
    if j :| 0 <= j < |keys| && j != i && keys[j] == keys[i] {
      SubsetSize({i, j as nat}, places);
    } else {
      assert places == {i};
    }
  }

  /**
    A reference that says something, stands nowhere else and does not look like an encoded one is its own
    subject; any other is its bytes, and how often it stood up to there.
   */
  lemma SubjectsAre(refs: seq<string>, i: nat)
    requires i < |refs|
    ensures var keys, x := Trimmed(refs), Trimmed(refs)[i];
            SubjectAt(keys, i) ==
            if x != "" && (forall j :: 0 <= j < |keys| && j != i ==> keys[j] != x) && !StartsWith(x, OCCURRENCE_PREFIX) then x
            else OCCURRENCE_PREFIX + Encode(Utf8(x)) + ":" + Decimal(|PlacesOf(keys, i + 1, x)|)
  {
    var keys := Trimmed(refs);
    TrimTrimmed(refs[i]);
    AloneCounts(keys, i);
    PlacesCount(keys, i + 1, keys[i]);
  }

  // ---------------------------------------------------------------------------------------------
  // Reading a subject back
  // ---------------------------------------------------------------------------------------------

  datatype Decoded = Plain(reference: string) | Occurrence(bytes: seq<byte>, ordinal: nat)

  function Decode(subject: string): Option<Decoded> {
    if !StartsWith(subject, OCCURRENCE_PREFIX) then Some(Plain(subject))
    else
      match DecodeHex(subject[|OCCURRENCE_PREFIX|..])
      case None => None
      case Some((bytes, rest)) =>
        match DecimalValue(rest)
        case None => None
        case Some(n) => Some(Occurrence(bytes, n))
  }

  lemma AfterPrefix(prefix: string, rest: string)
    ensures StartsWith(prefix + rest, prefix) && (prefix + rest)[|prefix|..] == rest
  {
  }

  lemma EncodedReads(trimmed: string, ordinal: nat)
    ensures Decode(EncodedSubject(trimmed, ordinal)) == Some(Occurrence(Utf8(trimmed), ordinal))
  {
    var bytes, tail := Utf8(trimmed), ":" + Decimal(ordinal);
    assert EncodedSubject(trimmed, ordinal) == OCCURRENCE_PREFIX + (Encode(bytes) + tail);
    AfterPrefix(OCCURRENCE_PREFIX, Encode(bytes) + tail);
    assert tail[1..] == Decimal(ordinal);
    EncodedDecodes(bytes, [], tail, Decimal(ordinal));
    assert bytes + [] == bytes;
    DecimalDecodes(ordinal);
  }

  /** A subject reads back as what it stands for: the trimmed reference, or its bytes and its ordinal. */
  lemma SubjectReads(reference: string, total: nat, ordinal: nat)
    ensures Decode(SubjectOf(reference, total, ordinal)) ==
            if PlainSubject(Trim(reference), total) then Some(Plain(Trim(reference)))
            else Some(Occurrence(Utf8(Trim(reference)), ordinal))
  {
    EncodedReads(Trim(reference), ordinal);
  }

  /** Two places of one reference: it is counted twice, and the later ordinal is larger. */
  lemma RepeatsDiffer(keys: seq<string>, i: nat, j: nat)
    requires i < j < |keys| && keys[i] == keys[j]
    ensures multiset(keys)[keys[i]] >= 2
    ensures multiset(keys[..i + 1])[keys[i]] < multiset(keys[..j + 1])[keys[i]]
  {
    TwiceInMultiset(keys, i, j);
    assert keys[..j + 1] == keys[..i + 1] + keys[i + 1..j] + [keys[j]];
  }

  /** Whatever the references, no two of them share a subject. */
  lemma SubjectsAreDistinct(refs: seq<string>, i: nat, j: nat)
    requires i < j < |refs|
    ensures SubjectAt(Trimmed(refs), i) != SubjectAt(Trimmed(refs), j)
  {
    var keys := Trimmed(refs);
    TrimTrimmed(refs[i]);
    TrimTrimmed(refs[j]);
    SubjectReads(keys[i], multiset(keys)[keys[i]], multiset(keys[..i + 1])[keys[i]]);
    SubjectReads(keys[j], multiset(keys)[keys[j]], multiset(keys[..j + 1])[keys[j]]);
    if keys[i] == keys[j] {
      RepeatsDiffer(keys, i, j);
    } else if Utf8(keys[i]) == Utf8(keys[j]) {
      Utf8Injective(keys[i], keys[j]);
    }
  }
}
