/** Counting Gerber flash commands (D03) in a stream read in chunks. */
module Flashes {
  import opened Wrappers
  import opened Text

  /** The stream's bytes, as characters. */
  type Bytes = string

  const MAX_UNTERMINATED: nat := 4194304
  const HEADER_BYTES: nat := 65536

  // ---------------------------------------------------------------------------------------------
  // The whole-buffer answers
  // ---------------------------------------------------------------------------------------------

  /** The length of zeros, a 3 and a star at the start of `s`. */
  function ZerosThreeStar(s: Bytes): (r: Option<nat>)
    ensures r.Some? ==> 2 <= r.value <= |s| && s[r.value - 1] == '*' && '*' !in s[..r.value - 1]
    ensures r.Some? ==> s[r.value - 2] == '3' && forall i :: 0 <= i < r.value - 2 ==> s[i] == '0'
  {
    if s == "" then None
    else if s[0] == '0' then
      match ZerosThreeStar(s[1..])
      case None => None
      case Some(n) =>
        assert s[..n] == [s[0]] + s[1..][..n - 1];
        Some(n + 1)
    else if s[0] == '3' && |s| > 1 && s[1] == '*' then Some(2)
    else None
  }

  /** The length of the flash command at the start of `s`: D, zeros, 3, star. */
  function FlashAt(s: Bytes): (r: Option<nat>)
    ensures r.Some? ==> 3 <= r.value <= |s| && s[0] == 'D' && s[r.value - 1] == '*' && '*' !in s[..r.value - 1]
  {
    if s != "" && s[0] == 'D' && ZerosThreeStar(s[1..]).Some? then
      var n := ZerosThreeStar(s[1..]).value;
      assert s[..n] == [s[0]] + s[1..][..n - 1];
      Some(n + 1)
    else None
  }

  /** How many flash commands a left-to-right search of the whole buffer finds. */
  function FindAll(s: Bytes): nat
    decreases |s|
  {
    if s == "" then 0
    else if FlashAt(s).Some? then 1 + FindAll(s[FlashAt(s).value..])
    else FindAll(s[1..])
  }

  predicate HasMarker(s: Bytes) {
    Contains(s, "%FS") || Contains(s, "%MO") || Contains(s, "D03*")
  }

  function Head(s: Bytes): Bytes {
    if |s| <= HEADER_BYTES then s else s[..HEADER_BYTES]
  }

  datatype FlashFacts = FlashFacts(flashes: nat, isGerber: bool, head: Bytes)

  function WholeBuffer(s: Bytes): FlashFacts {
    FlashFacts(if HasMarker(s) then FindAll(s) else 0, HasMarker(s), Head(s))
  }

  // ---------------------------------------------------------------------------------------------
  // Cutting at a star
  // ---------------------------------------------------------------------------------------------

  predicate AtStar(s: Bytes) {
    s == "" || s[|s| - 1] == '*'
  }

  /** What stands before and after the last star. */
  function LastStar(s: Bytes): (k: nat)
    ensures k <= |s| && AtStar(s[..k]) && '*' !in s[k..]
  {
    if s == "" || s[|s| - 1] == '*' then |s|
    else
      var k := LastStar(s[..|s| - 1]);
      assert s[k..] == s[..|s| - 1][k..] + [s[|s| - 1]];
      assert s[..k] == s[..|s| - 1][..k];
      k
  }

  lemma {:induction false} ZerosWithin(a: Bytes, b: Bytes)
    requires a != "" && AtStar(a)
    ensures ZerosThreeStar(a + b) == ZerosThreeStar(a)
  {
    assert (a + b)[0] == a[0];
    if a[0] == '0' {
      assert (a + b)[1..] == a[1..] + b;
      assert a[|a| - 1] == a[1..][|a| - 2];
      ZerosWithin(a[1..], b);
    } else if a[0] == '3' {
      assert (a + b)[1] == a[1];
    }
  }

  /** A command that starts before a star ends before it too. */
  lemma FlashWithin(a: Bytes, b: Bytes)
    requires a != "" && AtStar(a)
    ensures FlashAt(a + b) == FlashAt(a)
  {
    assert (a + b)[0] == a[0];
    if a[0] == 'D' {
      assert (a + b)[1..] == a[1..] + b;
      ZerosWithin(a[1..], b);
    }
  }

  /** Cut at a star, the two counts add up. */
  lemma {:induction false} CountsAdd(a: Bytes, b: Bytes)
    requires AtStar(a)
    ensures FindAll(a + b) == FindAll(a) + FindAll(b)
    decreases |a|
  {
    if a == "" {
      assert a + b == b;
    } else {
      FlashWithin(a, b);
      var n := if FlashAt(a).Some? then FlashAt(a).value else 1;
      assert (a + b)[n..] == a[n..] + b;
      CountsAdd(a[n..], b);
    }
  }

  lemma {:induction false} NoStarNoFlash(s: Bytes)
    requires '*' !in s
    ensures FindAll(s) == 0
  {
    if s != "" {
      NoStarNoFlash(s[1..]);
    }
  }

  lemma Overlap(all: Bytes, m: Bytes, p: nat, d: nat)
    requires p < d < p + |m| <= |all| && all[p..p + |m|] == m
    ensures all[d - 1] in m[..|m| - 1]
  {
    assert all[d - 1] == all[p..p + |m|][d - 1 - p] == m[..|m| - 1][d - 1 - p];
  }

  lemma Occurs(s: Bytes, m: Bytes, p: nat)
    requires p + |m| <= |s| && s[p..p + |m|] == m
    ensures Contains(s, m)
  {
    assert s[p..][..|m|] == m;
    assert StartsWith(s[p..], m);
  }

  lemma Occurrence(s: Bytes, m: Bytes) returns (p: nat)
    requires Contains(s, m)
    ensures p + |m| <= |s| && s[p..p + |m|] == m
  {
    p :| 0 <= p <= |s| && StartsWith(s[p..], m);
    assert s[p..][..|m|] == s[p..p + |m|];
  }

  lemma OccursWithin(before: Bytes, s: Bytes, after: Bytes, m: Bytes)
    requires Contains(s, m)
    ensures Contains(before + s + after, m)
  {
    var p := Occurrence(s, m);
    assert (before + s + after)[|before| + p..|before| + p + |m|] == s[p..p + |m|];
    Occurs(before + s + after, m, |before| + p);
  }

  /** An occurrence in the whole lies in one of the two overlapping parts. */
  lemma MarkerInAPart(done: Bytes, carry: Bytes, chunk: Bytes, m: Bytes)
    requires AtStar(done) && m != "" && '*' !in m[..|m| - 1] && Contains(done + carry + chunk, m)
    ensures Contains(done + carry, m) || Contains(carry + chunk, m)
  {
    var all := done + carry + chunk;
    var p := Occurrence(all, m);
    if p + |m| <= |done + carry| {
      assert (done + carry)[p..p + |m|] == all[p..p + |m|];
      Occurs(done + carry, m, p);
    } else {
      if p < |done| {
        Overlap(all, m, p, |done|);
        assert false;
      }
      assert (carry + chunk)[p - |done|..p - |done| + |m|] == all[p..p + |m|];
      Occurs(carry + chunk, m, p - |done|);
    }
  }

  /** Markers carry no star before their last byte, so none lies across one. */
  lemma MarkerAcrossStar(done: Bytes, carry: Bytes, chunk: Bytes, m: Bytes)
    requires AtStar(done) && m != "" && '*' !in m[..|m| - 1]
    ensures Contains(done + carry + chunk, m) <==> Contains(done + carry, m) || Contains(carry + chunk, m)
  {
    var all := done + carry + chunk;
    if Contains(all, m) {
      MarkerInAPart(done, carry, chunk, m);
    }
    if Contains(done + carry, m) {
      OccursWithin("", done + carry, chunk, m);
      assert "" + (done + carry) + chunk == all;
    }
    if Contains(carry + chunk, m) {
      OccursWithin(done, carry + chunk, "", m);
      assert done + (carry + chunk) + "" == all;
    }
  }

  lemma MarkersAcrossStar(done: Bytes, carry: Bytes, chunk: Bytes)
    requires AtStar(done)
    ensures HasMarker(done + carry + chunk) <==> HasMarker(done + carry) || HasMarker(carry + chunk)
  {
    MarkerAcrossStar(done, carry, chunk, "%FS");
    MarkerAcrossStar(done, carry, chunk, "%MO");
    MarkerAcrossStar(done, carry, chunk, "D03*");
  }

  // ---------------------------------------------------------------------------------------------
  // The streamed count
  // ---------------------------------------------------------------------------------------------

  datatype Scan = Scan(flashes: nat, isGerber: bool, head: Bytes, carry: Bytes)

  const BEGIN: Scan := Scan(0, false, "", "")

  /** One pass of the loop over a chunk. */
  function ScanChunk(st: Scan, chunk: Bytes): Scan {
    var buffer := st.carry + chunk;
    var k := LastStar(buffer);
    Scan(st.flashes + (if k > 0 then FindAll(buffer[..k]) else 0),
         st.isGerber || HasMarker(buffer),
         if |st.head| < HEADER_BYTES then st.head + Take(chunk, HEADER_BYTES - |st.head|) else st.head,
         if k > 0 then buffer[k..] else if |buffer| <= MAX_UNTERMINATED then buffer else "")
  }

  function Take(s: Bytes, n: nat): Bytes {
    if |s| <= n then s else s[..n]
  }

  /** The chunks up to the empty read that ends the stream. */
  function ScanAll(st: Scan, chunks: seq<Bytes>): Scan
    decreases |chunks|
  {
    if chunks == [] || chunks[0] == "" then st else ScanAll(ScanChunk(st, chunks[0]), chunks[1..])
  }

  lemma ScanStep(st: Scan, chunks: seq<Bytes>, i: nat)
    requires i < |chunks|
    ensures ScanAll(st, chunks[i..]) == if chunks[i] == "" then st else ScanAll(ScanChunk(st, chunks[i]), chunks[i + 1..])
  {
    assert chunks[i..][0] == chunks[i] && chunks[i..][1..] == chunks[i + 1..];
  }

  function Facts(st: Scan): FlashFacts {
    FlashFacts(if st.isGerber then st.flashes else 0, st.isGerber, st.head)
  }

  /** What the stream holds before the empty read. */
  function Stream(chunks: seq<Bytes>): Bytes {
    if chunks == [] || chunks[0] == "" then "" else chunks[0] + Stream(chunks[1..])
  }

  /** The loop's body. */
  method ReadChunk(flashes: nat, isGerber: bool, head: Bytes, carry: Bytes, chunk: Bytes)
    returns (flashes': nat, isGerber': bool, head': Bytes, carry': Bytes)
    ensures Scan(flashes', isGerber', head', carry') == ScanChunk(Scan(flashes, isGerber, head, carry), chunk)
  {
    flashes', isGerber', head' := flashes, isGerber, head;
    if |head| < HEADER_BYTES {
      head' := head + Take(chunk, HEADER_BYTES - |head|);
    }
    var buffer := carry + chunk;
    if !isGerber && HasMarker(buffer) {
      isGerber' := true;
    }
    var k := LastStar(buffer);
    if k > 0 {
      flashes', carry' := flashes + FindAll(buffer[..k]), buffer[k..];
    } else {
      carry' := if |buffer| <= MAX_UNTERMINATED then buffer else "";
    }
  }

  method CountFlashes(chunks: seq<Bytes>) returns (r: FlashFacts)
    ensures r == Facts(ScanAll(BEGIN, chunks))
  {
    var flashes: nat, isGerber, head: Bytes, carry: Bytes := 0, false, "", "";
    var i := 0;
    while i < |chunks| && chunks[i] != ""
      invariant 0 <= i <= |chunks|
      invariant ScanAll(Scan(flashes, isGerber, head, carry), chunks[i..]) == ScanAll(BEGIN, chunks)
    {
      ScanStep(Scan(flashes, isGerber, head, carry), chunks, i);
      flashes, isGerber, head, carry := ReadChunk(flashes, isGerber, head, carry, chunks[i]);
      i := i + 1;
    }
    if i < |chunks| {
      ScanStep(Scan(flashes, isGerber, head, carry), chunks, i);
    }
    r := if isGerber then FlashFacts(flashes, true, head) else FlashFacts(0, false, head);
  }

  // ---------------------------------------------------------------------------------------------
  // Independence of the chunks
  // ---------------------------------------------------------------------------------------------

  /** No run of bytes between stars is longer than the limit a buffer is given up at. */
  ghost predicate NoLongRun(s: Bytes) {
    forall i, j :: 0 <= i <= j <= |s| && '*' !in s[i..j] ==> j - i <= MAX_UNTERMINATED
  }

  /** Everything read is either counted, up to a star, or carried. */
  ghost predicate Faithful(st: Scan, read: Bytes) {
    && |st.carry| <= |read|
    && var done := read[..|read| - |st.carry|];
       && read == done + st.carry && AtStar(done) && '*' !in st.carry
       && st.flashes == FindAll(done) && st.isGerber == HasMarker(read) && st.head == Head(read)
  }

  lemma HeadGrows(read: Bytes, chunk: Bytes)
    ensures Head(read + chunk) ==
            if |Head(read)| < HEADER_BYTES then Head(read) + Take(chunk, HEADER_BYTES - |Head(read)|) else Head(read)
  {
    if |read| <= HEADER_BYTES && |read + chunk| > HEADER_BYTES {
      assert (read + chunk)[..HEADER_BYTES] == read + chunk[..HEADER_BYTES - |read|];
    }
  }

  lemma FaithfulFrom(st: Scan, read: Bytes, done: Bytes)
    requires read == done + st.carry && AtStar(done) && '*' !in st.carry
    requires st.flashes == FindAll(done) && st.isGerber == HasMarker(read) && st.head == Head(read)
    ensures Faithful(st, read)
  {
    assert read[..|read| - |st.carry|] == done;
  }

  lemma AccountSplits(read: Bytes, done: Bytes, carry: Bytes, chunk: Bytes, k: nat)
    requires read == done + carry && k <= |carry + chunk|
    ensures read + chunk == done + carry + chunk == done + (carry + chunk)[..k] + (carry + chunk)[k..]
  {
    assert carry + chunk == (carry + chunk)[..k] + (carry + chunk)[k..];
  }

  /** What is counted up to the last star of the buffer, and whether it ends at one. */
  lemma DoneGrows(done: Bytes, buffer: Bytes, k: nat)
    requires AtStar(done) && k <= |buffer| && AtStar(buffer[..k])
    ensures AtStar(done + buffer[..k])
    ensures FindAll(done + buffer[..k]) == FindAll(done) + if k > 0 then FindAll(buffer[..k]) else 0
  {
    if k > 0 {
      CountsAdd(done, buffer[..k]);
      EndsAtStar(done, buffer[..k]);
    } else {
      assert done + buffer[..k] == done;
    }
  }

  /** One chunk keeps the account, as long as what would be carried is not too long. */
  lemma ScanKeepsAccount(st: Scan, read: Bytes, chunk: Bytes)
    requires Faithful(st, read)
    requires var buffer := st.carry + chunk; LastStar(buffer) == 0 ==> |buffer| <= MAX_UNTERMINATED
    ensures Faithful(ScanChunk(st, chunk), read + chunk)
  {
    var done, buffer := read[..|read| - |st.carry|], st.carry + chunk;
    var k := LastStar(buffer);
    HeadGrows(read, chunk);
    AccountSplits(read, done, st.carry, chunk, k);
    MarkersAcrossStar(done, st.carry, chunk);
    DoneGrows(done, buffer, k);
    assert buffer[0..] == buffer;
    FaithfulFrom(ScanChunk(st, chunk), read + chunk, done + buffer[..k]);
  }

  lemma {:induction false} ScanIsFaithful(st: Scan, read: Bytes, chunks: seq<Bytes>)
    requires Faithful(st, read) && NoLongRun(read + Stream(chunks))
    ensures Faithful(ScanAll(st, chunks), read + Stream(chunks))
    decreases |chunks|
  {
    if chunks == [] || chunks[0] == "" {
      assert read + "" == read;
    } else {
      var all, buffer := read + Stream(chunks), st.carry + chunks[0];
      assert all == read + chunks[0] + Stream(chunks[1..]);
      var i := |read| - |st.carry|;
      if LastStar(buffer) == 0 {
        assert all[i..i + |buffer|] == buffer;
        assert buffer[0..] == buffer;
      }
      ScanKeepsAccount(st, read, chunks[0]);
      ScanIsFaithful(ScanChunk(st, chunks[0]), read + chunks[0], chunks[1..]);
    }
  }

  /**
    However the stream is cut, the count, the verdict and the header are those of the whole buffer, as
    long as no run between stars passes the limit.
   */
  lemma CountIgnoresChunks(chunks: seq<Bytes>)
    requires NoLongRun(Stream(chunks))
    ensures Facts(ScanAll(BEGIN, chunks)) == WholeBuffer(Stream(chunks))
  {
    assert "" + Stream(chunks) == Stream(chunks);
    assert !HasMarker("");
    ScanIsFaithful(BEGIN, "", chunks);
    var st, all := ScanAll(BEGIN, chunks), Stream(chunks);
    var done := all[..|all| - |st.carry|];
    CountsAdd(done, st.carry);
    NoStarNoFlash(st.carry);
  }

  // ---------------------------------------------------------------------------------------------
  // Past the limit
  // ---------------------------------------------------------------------------------------------

  lemma NoStarBefore(x: Bytes, b: Bytes, i: nat)
    requires '*' !in x && i < |x + b| && (x + b)[i] == '*'
    ensures |x| <= i && (x + b)[i] == b[i - |x|]
  {
    if i < |x| {
      assert false;
    }
  }

  lemma {:induction false} OneStarOneFlash(s: Bytes)
    requires s != "" ==> '*' !in s[..|s| - 1]
    ensures FindAll(s) <= 1
  {
    if s != "" {
      if FlashAt(s).Some? {
        var n := FlashAt(s).value;
        assert s == s[..|s| - 1] + [s[|s| - 1]];
        NoStarBefore(s[..|s| - 1], [s[|s| - 1]], n - 1);
        assert s[n..] == "";
      } else {
        if |s| > 1 {
          assert s[1..][..|s| - 2] == s[..|s| - 1][1..];
        }
        OneStarOneFlash(s[1..]);
      }
    }
  }

  /** Text without a star in front of a buffer never takes a flash away. */
  lemma {:induction false} PrefixKeepsFlashes(x: Bytes, b: Bytes)
    requires '*' !in x
    ensures FindAll(b) <= FindAll(x + b)
  {
    if x == "" {
      assert x + b == b;
    } else if FlashAt(x + b).Some? {
      var n := FlashAt(x + b).value;
      NoStarBefore(x, b, n - 1);
      var q := n - |x|;
      assert (x + b)[n..] == b[q..];
      assert b[..q - 1] == (x + b)[..n - 1][|x|..];
      assert b[..q][..q - 1] == b[..q - 1];
      OneStarOneFlash(b[..q]);
      CountsAdd(b[..q], b[q..]);
      assert b == b[..q] + b[q..];
    } else {
      assert (x + b)[1..] == x[1..] + b;
      PrefixKeepsFlashes(x[1..], b);
    }
  }

  /** Some of what was read may be given up, but nothing is made up. */
  ghost predicate NotInvented(st: Scan, read: Bytes, cut: nat) {
    && CutAt(read, cut, st.carry) && st.flashes <= FindAll(read[..cut])
    && (st.isGerber ==> HasMarker(read)) && st.head == Head(read)
  }

  /** The last star stands at `cut`, and what is carried ends what was read. */
  ghost predicate CutAt(read: Bytes, cut: nat, carry: Bytes) {
    && cut + |carry| <= |read| && AtStar(read[..cut]) && '*' !in read[cut..]
    && carry == read[|read| - |carry|..]
  }

  lemma HasMarkerWithin(before: Bytes, s: Bytes, after: Bytes)
    requires HasMarker(s)
    ensures HasMarker(before + s + after)
  {
    if Contains(s, "%FS") {
      OccursWithin(before, s, after, "%FS");
    } else if Contains(s, "%MO") {
      OccursWithin(before, s, after, "%MO");
    } else {
      OccursWithin(before, s, after, "D03*");
    }
  }

  lemma MarkersNotInvented(st: Scan, read: Bytes, chunk: Bytes)
    requires st.isGerber ==> HasMarker(read)
    requires |st.carry| <= |read| && st.carry == read[|read| - |st.carry|..]
    ensures ScanChunk(st, chunk).isGerber ==> HasMarker(read + chunk)
  {
    var buffer := st.carry + chunk;
    if st.isGerber {
      HasMarkerWithin("", read, chunk);
      assert "" + read + chunk == read + chunk;
    } else if HasMarker(buffer) {
      HasMarkerWithin(read[..|read| - |st.carry|], buffer, "");
      assert read[..|read| - |st.carry|] + buffer + "" == read + chunk;
    }
  }

  /** The text up to the new star: what was counted, what lies between, and what is counted now. */
  lemma CutSplits(read: Bytes, chunk: Bytes, carry: Bytes, cut: nat, k: nat)
    requires cut + |carry| <= |read| && carry == read[|read| - |carry|..] && k <= |carry + chunk|
    ensures var cut' := |read| - |carry| + k;
            && cut' <= |read + chunk|
            && (read + chunk)[..cut'] == read[..cut] + (read[cut..|read| - |carry|] + (carry + chunk)[..k])
  {
    assert read == read[..cut] + read[cut..|read| - |carry|] + carry;
    assert read + chunk == read[..cut] + read[cut..|read| - |carry|] + (carry + chunk);
  }

  /** Counting to the last star of a buffer counts no more than the text up to it holds. */
  lemma CutCountsNoMore(read: Bytes, chunk: Bytes, carry: Bytes, cut: nat, k: nat)
    requires cut + |carry| <= |read| && AtStar(read[..cut]) && '*' !in read[cut..] && carry == read[|read| - |carry|..]
    requires k <= |carry + chunk| && AtStar((carry + chunk)[..k]) && k > 0
    ensures var cut' := |read| - |carry| + k;
            && cut' <= |read + chunk| && AtStar((read + chunk)[..cut'])
            && FindAll(read[..cut]) + FindAll((carry + chunk)[..k]) <= FindAll((read + chunk)[..cut'])
  {
    var b, x := (carry + chunk)[..k], read[cut..|read| - |carry|];
    CutSplits(read, chunk, carry, cut, k);
    assert forall c :: c in x ==> c in read[cut..];
    CountsAdd(read[..cut], x + b);
    PrefixKeepsFlashes(x, b);
    EndsAtStar(read[..cut] + x, b);
    Associates(read[..cut], x, b);
  }

  lemma Associates(a: Bytes, b: Bytes, c: Bytes)
    ensures a + (b + c) == a + b + c
  {
  }

  lemma EndsAtStar(a: Bytes, b: Bytes)
    requires AtStar(b) && b != ""
    ensures AtStar(a + b)
  {
    assert (a + b)[|a + b| - 1] == b[|b| - 1];
  }

  lemma CutMoves(read: Bytes, cut: nat, carry: Bytes, chunk: Bytes, k: nat)
    requires CutAt(read, cut, carry) && k <= |carry + chunk| && '*' !in (carry + chunk)[k..] && AtStar((carry + chunk)[..k]) && k > 0
    ensures var cut' := |read| - |carry| + k;
            && CutAt(read + chunk, cut', (carry + chunk)[k..])
            && FindAll(read[..cut]) + FindAll((carry + chunk)[..k]) <= FindAll((read + chunk)[..cut'])
  {
    CutCountsNoMore(read, chunk, carry, cut, k);
    var cut' := |read| - |carry| + k;
    assert read + chunk == read[..|read| - |carry|] + (carry + chunk);
    assert (read + chunk)[cut'..] == (carry + chunk)[k..];
  }

  lemma StarredChunk(st: Scan, read: Bytes, cut: nat, chunk: Bytes) returns (cut': nat)
    requires NotInvented(st, read, cut) && LastStar(st.carry + chunk) > 0
    ensures NotInvented(ScanChunk(st, chunk), read + chunk, cut')
  {
    var k := LastStar(st.carry + chunk);
    HeadGrows(read, chunk);
    MarkersNotInvented(st, read, chunk);
    CutMoves(read, cut, st.carry, chunk, k);
    cut' := |read| - |st.carry| + k;
  }

  lemma CutStays(read: Bytes, cut: nat, carry: Bytes, chunk: Bytes)
    requires CutAt(read, cut, carry) && '*' !in carry + chunk
    ensures CutAt(read + chunk, cut, carry + chunk) && CutAt(read + chunk, cut, "")
    ensures (read + chunk)[..cut] == read[..cut]
  {
    assert (read + chunk)[..cut] == read[..cut];
    assert (read + chunk)[cut..] == read[cut..] + chunk;
    assert forall c :: c in chunk ==> c in carry + chunk;
    assert (read + chunk)[|read| - |carry|..] == carry + chunk;
    assert (read + chunk)[|read + chunk|..] == "";
  }

  lemma StarlessChunk(st: Scan, read: Bytes, cut: nat, chunk: Bytes)
    requires NotInvented(st, read, cut) && LastStar(st.carry + chunk) == 0
    ensures NotInvented(ScanChunk(st, chunk), read + chunk, cut)
  {
    var buffer := st.carry + chunk;
    HeadGrows(read, chunk);
    MarkersNotInvented(st, read, chunk);
    assert buffer[0..] == buffer;
    CutStays(read, cut, st.carry, chunk);
  }

  lemma ChunkNotInvented(st: Scan, read: Bytes, cut: nat, chunk: Bytes) returns (cut': nat)
    requires NotInvented(st, read, cut)
    ensures NotInvented(ScanChunk(st, chunk), read + chunk, cut')
  {
    if LastStar(st.carry + chunk) > 0 {
      cut' := StarredChunk(st, read, cut, chunk);
    } else {
      StarlessChunk(st, read, cut, chunk);
      cut' := cut;
    }
  }

  lemma {:induction false} ScanNotInvented(st: Scan, read: Bytes, cut: nat, chunks: seq<Bytes>) returns (cut': nat)
    requires NotInvented(st, read, cut)
    ensures NotInvented(ScanAll(st, chunks), read + Stream(chunks), cut')
    decreases |chunks|
  {
    if chunks == [] || chunks[0] == "" {
      assert read + "" == read;
      cut' := cut;
    } else {
      assert read + Stream(chunks) == read + chunks[0] + Stream(chunks[1..]);
      cut' := ChunkNotInvented(st, read, cut, chunks[0]);
      cut' := ScanNotInvented(ScanChunk(st, chunks[0]), read + chunks[0], cut', chunks[1..]);
    }
  }

  lemma BeginNotInvented()
    ensures NotInvented(BEGIN, "", 0)
  {
    assert ""[..0] == "" && ""[0..] == "";
  }

  lemma NotInventedFacts(st: Scan, all: Bytes, cut: nat)
    requires NotInvented(st, all, cut)
    ensures var r, whole := Facts(st), WholeBuffer(all);
            r.flashes <= whole.flashes && (r.isGerber ==> whole.isGerber) && r.head == whole.head
  {
    CountsAdd(all[..cut], all[cut..]);
    assert all == all[..cut] + all[cut..];
  }

  /** Whatever the stream and its chunks, no flash and no marker is invented, and the header is exact. */
  lemma NeverOverCounts(chunks: seq<Bytes>)
    ensures var r, whole := Facts(ScanAll(BEGIN, chunks)), WholeBuffer(Stream(chunks));
            r.flashes <= whole.flashes && (r.isGerber ==> whole.isGerber) && r.head == whole.head
  {
    var all := Stream(chunks);
    assert "" + all == all;
    BeginNotInvented();
    var cut := ScanNotInvented(BEGIN, "", 0, chunks);
    NotInventedFacts(ScanAll(BEGIN, chunks), all, cut);
  }

  const READ_CHUNK: nat := 1048576

  function Zeros(n: nat): Bytes {
    seq(n, _ => '0')
  }

  lemma {:induction false} ZerosMatch(n: nat)
    ensures ZerosThreeStar(Zeros(n) + "3*") == Some(n + 2)
  {
    if n > 0 {
      assert (Zeros(n) + "3*")[1..] == Zeros(n - 1) + "3*";
      ZerosMatch(n - 1);
    } else {
      assert Zeros(0) + "3*" == "3*";
    }
  }

  /** A chunk without a star is carried, or given up together with what was carried. */
  lemma ScanWithoutStar(st: Scan, chunk: Bytes)
    requires st.isGerber && '*' !in st.carry + chunk
    ensures var st' := ScanChunk(st, chunk);
            && st'.flashes == st.flashes && st'.isGerber
            && st'.carry == if |st.carry + chunk| <= MAX_UNTERMINATED then st.carry + chunk else ""
  {
    var buffer := st.carry + chunk;
    var k := LastStar(buffer);
    if k > 0 {
      assert false;
    }
  }

  /** Whole blocks without a D are neither counted nor carried. */
  lemma ScanWholeBlocks(st: Scan, chunk: Bytes)
    requires st.carry == "" && chunk != "" && AtStar(chunk) && 'D' !in chunk
    ensures var st' := ScanChunk(st, chunk);
            st'.flashes == st.flashes && st'.isGerber == (st.isGerber || HasMarker(chunk)) && st'.carry == ""
  {
    assert "" + chunk == chunk;
    assert chunk[..|chunk|] == chunk && chunk[|chunk|..] == "";
    NoDNoFlash(chunk);
  }

  /** A flash command longer than the limit, read in full-sized chunks, is lost. */
  lemma LongRunLosesAFlash()
    ensures var r := READ_CHUNK;
            var z := Zeros(r);
            var chunks := ["%FS*", "D" + Zeros(r - 1), z, z, z, z, "3*"];
            && (forall chunk :: chunk in chunks ==> |chunk| <= r)
            && Facts(ScanAll(BEGIN, chunks)).flashes == 0 && WholeBuffer(Stream(chunks)).flashes == 1
  {
    var z, d := Zeros(READ_CHUNK), "D" + Zeros(READ_CHUNK - 1);
    var chunks := ["%FS*", d, z, z, z, z, "3*"];
    SevenLoseTail(d, z);
    WholeHasOne(chunks, d, z);
  }

  lemma SevenLoseTail(d: Bytes, z: Bytes)
    requires |d| == |z| == READ_CHUNK && '*' !in d && '*' !in z
    ensures Facts(ScanAll(BEGIN, ["%FS*", d, z, z, z, z, "3*"])).flashes == 0
  {
    Occurs("%FS*", "%FS", 0);
    LosesTail("%FS*", d, z, "3*");
    SevenSplit("%FS*", d, z, "3*");
  }

  /** A block of no letter D after a run too long to keep: still nothing is counted. */
  lemma TailIsLost(st4: Scan, st5: Scan, st6: Scan, st7: Scan, z: Bytes, t: Bytes)
    requires st4.flashes == 0 && st4.isGerber && |st4.carry| == 3 * READ_CHUNK && '*' !in st4.carry
    requires |z| == READ_CHUNK && '*' !in z && t != "" && AtStar(t) && 'D' !in t
    requires st5 == ScanChunk(st4, z) && st6 == ScanChunk(st5, z) && st7 == ScanChunk(st6, t)
    ensures Facts(st7).flashes == 0
  {
    ScanWithoutStar(st4, z);
    ScanWithoutStar(st5, z);
    ScanWholeBlocks(st6, t);
  }

  /** A marked block, five chunks without a star, and a block of no letter D: nothing is counted. */
  lemma LosesTail(h: Bytes, d: Bytes, z: Bytes, t: Bytes)
    requires |d| == |z| == READ_CHUNK && '*' !in d && '*' !in z
    requires h != "" && AtStar(h) && 'D' !in h && HasMarker(h) && t != "" && AtStar(t) && 'D' !in t
    ensures Facts(ScanAll(BEGIN, [h] + ([d, z, z] + [z, z, t]))).flashes == 0
  {
    var st1, st4 := HeadAndThree(h, d, z, [z, z, t]);
    var st5, st6, st7 := LastThree(st4, z, t);
    TailIsLost(st4, st5, st6, st7, z, t);
  }

  lemma SevenSplit(h: Bytes, d: Bytes, z: Bytes, t: Bytes)
    ensures [h, d, z, z, z, z, t] == [h] + ([d, z, z] + [z, z, t])
  {
  }

  lemma LastThree(st4: Scan, z: Bytes, t: Bytes) returns (st5: Scan, st6: Scan, st7: Scan)
    requires z != "" && t != ""
    ensures st5 == ScanChunk(st4, z) && st6 == ScanChunk(st5, z) && st7 == ScanChunk(st6, t)
    ensures ScanAll(st4, [z, z, t]) == st7
  {
    st5 := ScanChunk(st4, z);
    st6 := ScanChunk(st5, z);
    st7 := ScanChunk(st6, t);
    ScanThree(st4, z, z, t, [], st5, st6, st7);
    assert [z, z, t] + [] == [z, z, t];
  }

  lemma HeadAndThree(h: Bytes, d: Bytes, z: Bytes, rest: seq<Bytes>) returns (st1: Scan, st4: Scan)
    requires |d| == |z| == READ_CHUNK && '*' !in d && '*' !in z && h != "" && AtStar(h) && 'D' !in h && HasMarker(h)
    ensures ScanAll(BEGIN, [h] + ([d, z, z] + rest)) == ScanAll(st4, rest)
    ensures st4.flashes == 0 && st4.isGerber && |st4.carry| == 3 * READ_CHUNK && '*' !in st4.carry
  {
    ScanWholeBlocks(BEGIN, h);
    st1 := ScanChunk(BEGIN, h);
    ScanOne(BEGIN, h, [d, z, z] + rest, st1);
    st4 := ThreeChunks(st1, d, z, rest);
  }

  lemma ThreeChunks(st: Scan, d: Bytes, z: Bytes, rest: seq<Bytes>) returns (st': Scan)
    requires st.flashes == 0 && st.isGerber && st.carry == "" && |d| == |z| == READ_CHUNK && '*' !in d && '*' !in z
    ensures ScanAll(st, [d, z, z] + rest) == ScanAll(st', rest)
    ensures st'.flashes == 0 && st'.isGerber && |st'.carry| == 3 * READ_CHUNK && '*' !in st'.carry
  {
    ScanWithoutStar(st, d);
    var a := ScanChunk(st, d);
    ScanWithoutStar(a, z);
    var b := ScanChunk(a, z);
    ScanWithoutStar(b, z);
    st' := ScanChunk(b, z);
    ScanThree(st, d, z, z, rest, a, b, st');
  }

  lemma {:induction false} NoDNoFlash(s: Bytes)
    requires 'D' !in s
    ensures FindAll(s) == 0
  {
    if s != "" {
      assert s[0] in s;
      NoDNoFlash(s[1..]);
    }
  }

  lemma ScanOne(st: Scan, c: Bytes, rest: seq<Bytes>, st': Scan)
    requires c != "" && st' == ScanChunk(st, c)
    ensures ScanAll(st, [c] + rest) == ScanAll(st', rest)
  {
    assert ([c] + rest)[1..] == rest;
  }

  lemma ScanThree(st: Scan, a: Bytes, b: Bytes, c: Bytes, rest: seq<Bytes>, st1: Scan, st2: Scan, st3: Scan)
    requires a != "" && b != "" && c != ""
    requires st1 == ScanChunk(st, a) && st2 == ScanChunk(st1, b) && st3 == ScanChunk(st2, c)
    ensures ScanAll(st, [a, b, c] + rest) == ScanAll(st3, rest)
  {
    ScanOne(st, a, [b, c] + rest, st1);
    ScanOne(st1, b, [c] + rest, st2);
    ScanOne(st2, c, rest, st3);
    assert [a] + ([b, c] + rest) == [a, b, c] + rest;
    assert [b] + ([c] + rest) == [b, c] + rest;
  }

  lemma LongFlashIsOne(n: nat)
    ensures FindAll("D" + (Zeros(n) + "3*")) == 1
  {
    var flash := "D" + (Zeros(n) + "3*");
    ZerosMatch(n);
    assert flash[1..] == Zeros(n) + "3*";
    assert FlashAt(flash) == Some(n + 3);
    assert flash[n + 3..] == "";
  }

  lemma StreamOfSeven(a: Bytes, d: Bytes, z: Bytes, t: Bytes)
    requires a != "" && d != "" && z != "" && t != ""
    ensures Stream([a, d, z, z, z, z, t]) == a + (d + (z + (z + (z + (z + t)))))
  {
    var chunks := [a, d, z, z, z, z, t];
    assert chunks[1..] == [d, z, z, z, z, t];
    assert chunks[1..][1..] == [z, z, z, z, t];
    assert Stream([t]) == t;
    assert [z, t][1..] == [t];
    assert Stream([z, t]) == z + t;
    assert [z, z, t][1..] == [z, t];
    assert Stream([z, z, t]) == z + (z + t);
    assert [z, z, z, t][1..] == [z, z, t];
    assert Stream([z, z, z, t]) == z + (z + (z + t));
    assert [z, z, z, z, t][1..] == [z, z, z, t];
    assert Stream([z, z, z, z, t]) == z + (z + (z + (z + t)));
  }

  lemma ZerosAdd(m: nat, n: nat, t: Bytes)
    ensures Zeros(m) + (Zeros(n) + t) == Zeros(m + n) + t
  {
  }

  lemma WholeHasOne(chunks: seq<Bytes>, d: Bytes, z: Bytes)
    requires z == Zeros(READ_CHUNK) && d == "D" + Zeros(READ_CHUNK - 1) && chunks == ["%FS*", d, z, z, z, z, "3*"]
    ensures WholeBuffer(Stream(chunks)).flashes == 1
  {
    var r := READ_CHUNK;
    var n := 5 * r - 1;
    var flash := "D" + (Zeros(n) + "3*");
    StreamOfSeven("%FS*", d, z, "3*");
    ZerosAdd(r, r, "3*");
    ZerosAdd(r, 2 * r, "3*");
    ZerosAdd(r, 3 * r, "3*");
    ZerosAdd(r - 1, 4 * r, "3*");
    assert z + (z + (z + (z + "3*"))) == Zeros(4 * r) + "3*";
    assert d + (Zeros(4 * r) + "3*") == "D" + (Zeros(r - 1) + (Zeros(4 * r) + "3*"));
    assert Stream(chunks) == "%FS*" + flash;
    LongFlashIsOne(n);
    CountsAdd("%FS*", flash);
    NoDNoFlash("%FS*");
    Occurs("%FS*" + flash, "%FS", 0);
  }
}
