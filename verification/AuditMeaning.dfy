/** What the audit accepts, for any ledger and any store: read off the lines and the files themselves. */
module AuditMeaning {
  import opened Wrappers
  import opened Sequences
  import opened Order
  import opened Json
  import opened Selection
  import opened Ledger
  import opened LedgerProofs
  import opened LedgerMeaning
  import opened Gate

  // ---------------------------------------------------------------------------------------------
  // One result's evidence
  // ---------------------------------------------------------------------------------------------

  /** Two entries say the same words in a field. */
  predicate SameWords(e: Entry, f: Entry, field: string) {
    HasText(e, field) && HasText(f, field) && e[field].s == f[field].s
  }

  /** A list of objects, each with a content digest; these are the digests. */
  ghost predicate ListsDigests(v: Value, shas: seq<string>) {
    && v.Arr? && |v.items| == |shas|
    && forall i :: 0 <= i < |shas| ==> v.items[i].Obj? && "sha256" in v.items[i].fields && v.items[i].fields["sha256"] == Str(shas[i])
  }

  /** The document speaks of this result, and lists its reservation's boards in some order. */
  ghost predicate Documents(doc: Entry, r: Entry, reservation: Entry) {
    && Says(doc, "gate", "external-five")
    && SameWords(doc, r, "iteration_id") && SameWords(doc, r, "status") && SameWords(doc, r, "tool_commit")
    && "boards" in doc
    && exists shas :: ListsDigests(doc["boards"], shas) && multiset(shas) == multiset(TextsOf(BoardsOf(reservation), "sha256"))
  }

  /** The file the result names is there, is the one that was hashed, and documents the result. */
  ghost predicate Evidenced(c: Codec, g: EvidenceCodec, files: map<FileKey, string>, r: Entry, reservation: Entry) {
    var key := FileKeyOf(Text(r, "evidence_file"));
    && key in files && c.sha(files[key]) == Text(r, "evidence_sha256")
    && exists doc :: g.decode(files[key]) == Some(Obj(doc)) && Documents(doc, r, reservation)
  }

  lemma ListedDigests(v: Value)
    requires BoardsListed(v)
    ensures ListsDigests(v, TextsOf(v.items, "sha256"))
  {
    assert forall i :: 0 <= i < |v.items| ==> v.items[i] in v.items;
  }

  lemma DigestsListed(v: Value, shas: seq<string>)
    requires ListsDigests(v, shas)
    ensures BoardsListed(v) && TextsOf(v.items, "sha256") == shas
  {
    forall x | x in v.items
      ensures x.Obj? && IsStr(x.fields, "sha256")
    {
      var i :| 0 <= i < |v.items| && v.items[i] == x;
    }
    forall i | 0 <= i < |shas|
      ensures TextsOf(v.items, "sha256")[i] == shas[i]
    {
      assert v.items[i].fields["sha256"] == Str(shas[i]);
    }
  }

  lemma DigestsIff(v: Value, wanted: seq<string>)
    ensures (BoardsListed(v) && Sort(TextsOf(v.items, "sha256")) == Sort(wanted)) <==>
            exists shas :: ListsDigests(v, shas) && multiset(shas) == multiset(wanted)
  {
    if BoardsListed(v) {
      ListedDigests(v);
      SortEqualIff(TextsOf(v.items, "sha256"), wanted);
    }
    if shas :| ListsDigests(v, shas) && multiset(shas) == multiset(wanted) {
      DigestsListed(v, shas);
      SortEqualIff(shas, wanted);
    }
  }

  lemma SortEqualIff(xs: seq<string>, ys: seq<string>)
    ensures Sort(xs) == Sort(ys) <==> multiset(xs) == multiset(ys)
  {
    SortIsSorted(xs);
    SortIsSorted(ys);
    if multiset(xs) == multiset(ys) {
      SortedUnique(Sort(xs), Sort(ys));
    }
  }

  lemma DocumentIff(v: Value, h: History, r: Entry, reservation: Entry)
    requires HasText(r, "iteration_id") && HasText(r, "status") && HasText(r, "tool_commit")
    requires FindIteration(h.iterations, IdOf(r)) == Some(reservation)
    ensures EvidenceFault(v, h, r).None? <==> v.Obj? && Documents(v.fields, r, reservation)
  {
    if v.Obj? {
      var doc := v.fields;
      DigestsIff(Field(doc, "boards"), TextsOf(BoardsOf(reservation), "sha256"));
      assert Field(doc, "gate") == Str("external-five") <==> Says(doc, "gate", "external-five");
      assert Field(doc, "iteration_id") == Str(IdOf(r)) <==> SameWords(doc, r, "iteration_id");
      assert Field(doc, "status") == Str(Text(r, "status")) <==> SameWords(doc, r, "status");
      assert Field(doc, "tool_commit") == Str(Text(r, "tool_commit")) <==> SameWords(doc, r, "tool_commit");
    }
  }

  lemma EvidencedIff(c: Codec, g: EvidenceCodec, files: map<FileKey, string>, h: History, r: Entry, reservation: Entry)
    requires HasText(r, "iteration_id") && HasText(r, "status") && HasText(r, "tool_commit")
    requires FindIteration(h.iterations, IdOf(r)) == Some(reservation)
    ensures ResultFault(c, g, files, h, r).None? <==> Evidenced(c, g, files, r, reservation)
  {
    var key := FileKeyOf(Text(r, "evidence_file"));
    if key in files && g.decode(files[key]).Some? {
      DocumentIff(g.decode(files[key]).value, h, r, reservation);
    }
  }

  // ---------------------------------------------------------------------------------------------
  // All of them
  // ---------------------------------------------------------------------------------------------

  lemma {:induction false} NoFaultIff(c: Codec, g: EvidenceCodec, files: map<FileKey, string>, h: History, rs: seq<Entry>)
    ensures FirstFault(c, g, files, h, rs).None? <==> forall r :: r in rs ==> ResultFault(c, g, files, h, r).None?
    decreases |rs|
  {
    if rs != [] {
      NoFaultIff(c, g, files, h, rs[1..]);
      assert forall r :: r in rs <==> r == rs[0] || r in rs[1..];
    }
  }

  ghost predicate LineReserves(c: Codec, line: string) {
    exists e :: Reserves(c, line, e)
  }

  ghost predicate LineCloses(c: Codec, line: string, status: string) {
    exists e :: Closes(c, line, e) && Says(e, "status", status)
  }

  /** The lines that reserve, and those that close with a status. */
  ghost function ReservingLines(c: Codec, ls: seq<string>, k: nat): set<nat>
    requires k <= |ls|
  {
    set j: nat | j < k && LineReserves(c, ls[j])
  }

  ghost function ClosingLines(c: Codec, ls: seq<string>, k: nat, status: string): set<nat>
    requires k <= |ls|
  {
    set j: nat | j < k && LineCloses(c, ls[j], status)
  }

  ghost predicate ClosedSomewhere(c: Codec, ls: seq<string>, id: string) {
    exists k, r :: 0 <= k < |ls| && Closes(c, ls[k], r) && IdOf(r) == id
  }

  /** Every reservation is closed by some result. */
  ghost predicate AllLinesClosed(c: Codec, ls: seq<string>) {
    forall j, e :: 0 <= j < |ls| && Reserves(c, ls[j], e) ==> ClosedSomewhere(c, ls, IdOf(e))
  }

  /** A reservation under the result's id that the evidence documents. */
  ghost predicate EvidencedSomewhere(c: Codec, g: EvidenceCodec, files: map<FileKey, string>, ls: seq<string>, r: Entry) {
    exists j, e :: 0 <= j < |ls| && Reserves(c, ls[j], e) && IdOf(e) == IdOf(r) && Evidenced(c, g, files, r, e)
  }

  /** Every result's evidence is there and documents it and the reservation it closes. */
  ghost predicate AllLinesEvidenced(c: Codec, g: EvidenceCodec, files: map<FileKey, string>, ls: seq<string>) {
    forall k, r :: 0 <= k < |ls| && Closes(c, ls[k], r) ==> EvidencedSomewhere(c, g, files, ls, r)
  }

  lemma ClosedSomewhereIff(c: Codec, text: string, id: string)
    requires ParseSpec(c, text).Ok?
    ensures HasId(ParseSpec(c, text).value.results, id) <==> ClosedSomewhere(c, Lines(text), id)
  {
    var h, ls := ParseSpec(c, text).value, Lines(text);
    ReadableIff(c, text);
    if HasId(h.results, id) {
      var r :| r in h.results && IdOf(r) == id;
      assert ClosedAbove(c, ls, |ls|, r);
    }
    if k, r :| 0 <= k < |ls| && Closes(c, ls[k], r) && IdOf(r) == id {
      assert ClosedAbove(c, ls, |ls|, r);
    }
  }

  lemma ClosedIff(c: Codec, text: string)
    requires ParseSpec(c, text).Ok?
    ensures AllClosed(ParseSpec(c, text).value) <==> AllLinesClosed(c, Lines(text))
  {
    var h, ls := ParseSpec(c, text).value, Lines(text);
    ReadableIff(c, text);
    forall id
      ensures HasId(h.results, id) <==> ClosedSomewhere(c, ls, id)
    {
      ClosedSomewhereIff(c, text, id);
    }
    forall j, e | 0 <= j < |ls| && Reserves(c, ls[j], e)
      ensures e in h.iterations
    {
      assert ReservedAbove(c, ls, |ls|, e);
    }
    forall e | e in h.iterations
      ensures exists j :: 0 <= j < |ls| && Reserves(c, ls[j], e)
    {
      assert ReservedAbove(c, ls, |ls|, e);
    }
  }

  /** A result of a readable ledger has its texts, and a reservation above it. */
  lemma ResultLine(c: Codec, text: string, k: nat, r: Entry) returns (j: nat, e: Entry)
    requires ParseSpec(c, text).Ok? && k < |Lines(text)| && Closes(c, Lines(text)[k], r)
    ensures HasText(r, "iteration_id") && HasText(r, "status") && HasText(r, "tool_commit")
    ensures j < |Lines(text)| && Reserves(c, Lines(text)[j], e) && IdOf(e) == IdOf(r)
  {
    var ls := Lines(text);
    ReadableIff(c, text);
    FitsAs(c, ls, k, r);
    j, e :| 0 <= j < k && Reserves(c, ls[j], e) && IdOf(e) == IdOf(r) && RepeatsBoards(r, e);
  }

  lemma ReservedIsHeld(c: Codec, text: string, j: nat, e: Entry)
    requires ParseSpec(c, text).Ok? && j < |Lines(text)| && Reserves(c, Lines(text)[j], e)
    ensures e in ParseSpec(c, text).value.iterations
  {
    ReadableIff(c, text);
    assert ReservedAbove(c, Lines(text), |Lines(text)|, e);
  }

  /** Under one id a readable ledger has one reservation, and that is the one found. */
  lemma OneReservation(c: Codec, text: string, j: nat, e: Entry)
    requires ParseSpec(c, text).Ok? && j < |Lines(text)| && Reserves(c, Lines(text)[j], e)
    ensures FindIteration(ParseSpec(c, text).value.iterations, IdOf(e)) == Some(e)
  {
    ReservedIsHeld(c, text, j, e);
    ReadableLedgerIsSound(c, text);
    SoundDiffers(ParseSpec(c, text).value);
    FoundIs(ParseSpec(c, text).value.iterations, e);
  }

  lemma EvidencedLineIff(c: Codec, g: EvidenceCodec, files: map<FileKey, string>, text: string, k: nat, r: Entry)
    requires ParseSpec(c, text).Ok? && k < |Lines(text)| && Closes(c, Lines(text)[k], r)
    ensures ResultFault(c, g, files, ParseSpec(c, text).value, r).None? <==> EvidencedSomewhere(c, g, files, Lines(text), r)
  {
    var j, e := ResultLine(c, text, k, r);
    OneReservation(c, text, j, e);
    EvidencedIff(c, g, files, ParseSpec(c, text).value, r, e);
    if i, f :| 0 <= i < |Lines(text)| && Reserves(c, Lines(text)[i], f) && IdOf(f) == IdOf(r) && Evidenced(c, g, files, r, f) {
      OneReservation(c, text, i, f);
    }
  }

  lemma ResultsAreLines(c: Codec, text: string, r: Entry)
    requires ParseSpec(c, text).Ok?
    ensures r in ParseSpec(c, text).value.results <==> exists k :: 0 <= k < |Lines(text)| && Closes(c, Lines(text)[k], r)
  {
    ReadableIff(c, text);
    assert ClosedAbove(c, Lines(text), |Lines(text)|, r) <==> exists k :: 0 <= k < |Lines(text)| && Closes(c, Lines(text)[k], r);
  }

  lemma FaultlessIff(c: Codec, g: EvidenceCodec, files: map<FileKey, string>, text: string)
    requires ParseSpec(c, text).Ok?
    ensures var h := ParseSpec(c, text).value;
            FirstFault(c, g, files, h, h.results).None? <==> AllLinesEvidenced(c, g, files, Lines(text))
  {
    var h, ls := ParseSpec(c, text).value, Lines(text);
    NoFaultIff(c, g, files, h, h.results);
    if AllLinesEvidenced(c, g, files, ls) {
      forall r | r in h.results
        ensures ResultFault(c, g, files, h, r).None?
      {
        ResultsAreLines(c, text, r);
        var k: nat :| k < |ls| && Closes(c, ls[k], r);
        EvidencedLineIff(c, g, files, text, k, r);
      }
    }
    if FirstFault(c, g, files, h, h.results).None? {
      forall k, r | 0 <= k < |ls| && Closes(c, ls[k], r)
        ensures EvidencedSomewhere(c, g, files, ls, r)
      {
        ResultsAreLines(c, text, r);
        EvidencedLineIff(c, g, files, text, k, r);
      }
    }
  }

  // ---------------------------------------------------------------------------------------------
  // The counts
  // ---------------------------------------------------------------------------------------------

  /** The history counts the lines read so far. */
  ghost predicate CountsLines(c: Codec, ls: seq<string>, k: nat, h: History)
    requires k <= |ls|
  {
    && |h.iterations| == |ReservingLines(c, ls, k)|
    && CountStatus(h.results, |h.results|, true) == |ClosingLines(c, ls, k, "completed")|
    && CountStatus(h.results, |h.results|, false) == |ClosingLines(c, ls, k, "failed")|
  }

  lemma {:induction false} CountAppend(rs: seq<Entry>, r: Entry, k: nat, completed: bool)
    requires k <= |rs|
    ensures CountStatus(rs + [r], k, completed) == CountStatus(rs, k, completed)
  {
    if k > 0 {
      CountAppend(rs, r, k - 1, completed);
    }
  }

  lemma CountOneMore(rs: seq<Entry>, r: Entry)
    ensures var done := Text(r, "status") == "completed";
            && CountStatus(rs + [r], |rs| + 1, true) == CountStatus(rs, |rs|, true) + (if done then 1 else 0)
            && CountStatus(rs + [r], |rs| + 1, false) == CountStatus(rs, |rs|, false) + (if done then 0 else 1)
  {
    CountAppend(rs, r, |rs|, true);
    CountAppend(rs, r, |rs|, false);
    CountStep(rs + [r], |rs|);
  }

  lemma ReservingMore(c: Codec, ls: seq<string>, k: nat)
    requires k < |ls|
    ensures ReservingLines(c, ls, k + 1) == ReservingLines(c, ls, k) + if LineReserves(c, ls[k]) then {k} else {}
    ensures |ReservingLines(c, ls, k + 1)| == |ReservingLines(c, ls, k)| + if LineReserves(c, ls[k]) then 1 else 0
  {
    var all, rest := ReservingLines(c, ls, k + 1), ReservingLines(c, ls, k);
    assert all == rest + if LineReserves(c, ls[k]) then {k} else {};
  }

  lemma ClosingMore(c: Codec, ls: seq<string>, k: nat, status: string)
    requires k < |ls|
    ensures ClosingLines(c, ls, k + 1, status) == ClosingLines(c, ls, k, status) + if LineCloses(c, ls[k], status) then {k} else {}
    ensures |ClosingLines(c, ls, k + 1, status)| == |ClosingLines(c, ls, k, status)| + if LineCloses(c, ls[k], status) then 1 else 0
  {
    var all, rest := ClosingLines(c, ls, k + 1, status), ClosingLines(c, ls, k, status);
    assert all == rest + if LineCloses(c, ls[k], status) then {k} else {};
  }

  lemma LinesMore(c: Codec, ls: seq<string>, k: nat)
    requires k < |ls|
    ensures |ReservingLines(c, ls, k + 1)| == |ReservingLines(c, ls, k)| + if LineReserves(c, ls[k]) then 1 else 0
    ensures |ClosingLines(c, ls, k + 1, "completed")| ==
            |ClosingLines(c, ls, k, "completed")| + if LineCloses(c, ls[k], "completed") then 1 else 0
    ensures |ClosingLines(c, ls, k + 1, "failed")| ==
            |ClosingLines(c, ls, k, "failed")| + if LineCloses(c, ls[k], "failed") then 1 else 0
  {
    ReservingMore(c, ls, k);
    ClosingMore(c, ls, k, "completed");
    ClosingMore(c, ls, k, "failed");
  }

  /** What kind of line it is. */
  lemma LineKind(c: Codec, line: string, e: Entry)
    requires Holds(c, line, e)
    ensures LineReserves(c, line) <==> Reserves(c, line, e)
    ensures LineCloses(c, line, "completed") <==> Closes(c, line, e) && Says(e, "status", "completed")
    ensures LineCloses(c, line, "failed") <==> Closes(c, line, e) && Says(e, "status", "failed")
  {
    forall f | Holds(c, line, f)
      ensures f == e
    {
      HoldsOne(c, line, e, f);
    }
  }

  lemma CountsResult(c: Codec, ls: seq<string>, k: nat, st: State, e: Entry)
    requires k < |ls| && CountsLines(c, ls, k, st.history) && Closes(c, ls[k], e)
    requires Says(e, "status", "completed") || Says(e, "status", "failed")
    ensures CountsLines(c, ls, k + 1, AddResult(st, e, ls[k]).history)
  {
    LinesMore(c, ls, k);
    LineKind(c, ls[k], e);
    CountOneMore(st.history.results, e);
  }

  lemma CountsIteration(c: Codec, ls: seq<string>, k: nat, st: State, e: Entry)
    requires k < |ls| && CountsLines(c, ls, k, st.history) && Reserves(c, ls[k], e)
    ensures CountsLines(c, ls, k + 1, AddIteration(st, e, ls[k]).history)
  {
    LinesMore(c, ls, k);
    LineKind(c, ls[k], e);
  }

  lemma CountsBlank(c: Codec, ls: seq<string>, k: nat, h: History)
    requires k < |ls| && CountsLines(c, ls, k, h) && Blank(StripNewlines(ls[k]))
    ensures CountsLines(c, ls, k + 1, h)
  {
    LinesMore(c, ls, k);
  }

  lemma CountsStep(c: Codec, ls: seq<string>, k: nat, st: State)
    requires k < |ls| && CountsLines(c, ls, k, st.history) && ReadLine(c, st, ls[k]).Ok?
    ensures CountsLines(c, ls, k + 1, ReadLine(c, st, ls[k]).value.history)
  {
    if Blank(StripNewlines(ls[k])) {
      CountsBlank(c, ls, k, st.history);
    } else {
      var e := c.decode(StripNewlines(ls[k])).value.fields;
      ResultIff(e);
      if IsResult(e) {
        ResultSteps(c, st, e);
        ResultFormIff(e);
        CountsResult(c, ls, k, st, e);
      } else {
        CountsIteration(c, ls, k, st, e);
      }
    }
  }

  lemma {:induction false} CountsAre(c: Codec, ls: seq<string>, k: nat)
    requires k <= |ls| && ReadLines(c, START, ls[..k]).Ok?
    ensures CountsLines(c, ls, k, ReadLines(c, START, ls[..k]).value.history)
  {
    if k == 0 {
      assert ls[..0] == [];
    } else {
      assert ls[..k] == ls[..k - 1] + [ls[k - 1]];
      ReadLinesAppend(c, START, ls[..k - 1], ls[k - 1]);
      CountsAre(c, ls, k - 1);
      CountsStep(c, ls, k - 1, ReadLines(c, START, ls[..k - 1]).value);
    }
  }

  // ---------------------------------------------------------------------------------------------
  // The audit
  // ---------------------------------------------------------------------------------------------

  /**
    For any ledger and any store: the audit accepts exactly when every line fits those above it, every
    reservation is closed, every result's file hashes to its digest and documents it, and, where one is
    asked for, some result is completed.  It counts the lines that reserve and those that close each way.
   */
  lemma AuditAcceptsExactly(c: Codec, g: EvidenceCodec, store: Store, requireCompleted: bool)
    ensures var ls, r := Lines(store.ledger), AuditSpec(c, g, store, requireCompleted);
            && (r.Ok? <==>
                  && (forall k :: 0 <= k < |ls| ==> Fits(c, ls, k))
                  && AllLinesClosed(c, ls) && AllLinesEvidenced(c, g, store.evidence, ls)
                  && (requireCompleted ==> ClosingLines(c, ls, |ls|, "completed") != {}))
            && (r.Ok? ==> r.value == Counts(|ReservingLines(c, ls, |ls|)|, |ClosingLines(c, ls, |ls|, "completed")|,
                                            |ClosingLines(c, ls, |ls|, "failed")|))
  {
    var ls := Lines(store.ledger);
    ReadableIff(c, store.ledger);
    if ParseSpec(c, store.ledger).Ok? {
      ClosedIff(c, store.ledger);
      FaultlessIff(c, g, store.evidence, store.ledger);
      assert ls[..|ls|] == ls;
      CountsAre(c, ls, |ls|);
    }
  }

  // ---------------------------------------------------------------------------------------------
  // The audit's refusals
  // ---------------------------------------------------------------------------------------------

  /** What the fault says of a result's file is so. */
  ghost predicate FileAmiss(c: Codec, g: EvidenceCodec, files: map<FileKey, string>, r: Entry, fault: AuditError) {
    var key := FileKeyOf(Text(r, "evidence_file"));
    if key !in files then fault == EvidenceMissing
    else if c.sha(files[key]) != Text(r, "evidence_sha256") then fault == DigestMismatch
    else if g.decode(files[key]).None? then fault == EvidenceNotJson
    else if !g.decode(files[key]).value.Obj? then fault == EvidenceNotObject
    else DocumentAmiss(g.decode(files[key]).value.fields, r, fault)
  }

  ghost predicate DocumentAmiss(doc: Entry, r: Entry, fault: AuditError) {
    match fault
    case WrongGate => !Says(doc, "gate", "external-five")
    case WrongIteration => !SameWords(doc, r, "iteration_id")
    case WrongStatus => !SameWords(doc, r, "status")
    case WrongCommit => !SameWords(doc, r, "tool_commit")
    case BadEvidenceBoards => "boards" !in doc || forall shas :: !ListsDigests(doc["boards"], shas)
    case WrongBoards => "boards" in doc && exists shas :: ListsDigests(doc["boards"], shas)
    case _ => false
  }

  lemma DocumentFault(v: Value, h: History, r: Entry, fault: AuditError)
    requires v.Obj? && EvidenceFault(v, h, r) == Some(fault)
    requires HasText(r, "iteration_id") && HasText(r, "status") && HasText(r, "tool_commit")
    ensures DocumentAmiss(v.fields, r, fault)
  {
    var boards := Field(v.fields, "boards");
    if BoardsListed(boards) {
      ListedDigests(boards);
    } else {
      forall shas
        ensures !ListsDigests(boards, shas)
      {
        if ListsDigests(boards, shas) {
          DigestsListed(boards, shas);
        }
      }
    }
  }

  lemma FileFault(c: Codec, g: EvidenceCodec, files: map<FileKey, string>, h: History, r: Entry, fault: AuditError)
    requires ResultFault(c, g, files, h, r) == Some(fault)
    requires HasText(r, "iteration_id") && HasText(r, "status") && HasText(r, "tool_commit")
    ensures FileAmiss(c, g, files, r, fault)
  {
    var key := FileKeyOf(Text(r, "evidence_file"));
    if key in files && g.decode(files[key]).Some? && g.decode(files[key]).value.Obj? && ResultHashed(c, files, r) {
      DocumentFault(g.decode(files[key]).value, h, r, fault);
    }
  }

  predicate ResultHashed(c: Codec, files: map<FileKey, string>, r: Entry) {
    var key := FileKeyOf(Text(r, "evidence_file"));
    key in files && c.sha(files[key]) == Text(r, "evidence_sha256")
  }

  lemma {:induction false} SomeFault(c: Codec, g: EvidenceCodec, files: map<FileKey, string>, h: History, rs: seq<Entry>, fault: AuditError)
    returns (r: Entry)
    requires FirstFault(c, g, files, h, rs) == Some(fault)
    ensures r in rs && ResultFault(c, g, files, h, r) == Some(fault)
    decreases |rs|
  {
    if ResultFault(c, g, files, h, rs[0]).Some? {
      r := rs[0];
    } else {
      r := SomeFault(c, g, files, h, rs[1..], fault);
    }
  }

  lemma NoneCompletedIs(c: Codec, text: string)
    requires ParseSpec(c, text).Ok?
    ensures var h, ls := ParseSpec(c, text).value, Lines(text);
            CountStatus(h.results, |h.results|, true) == |ClosingLines(c, ls, |ls|, "completed")|
  {
    var ls := Lines(text);
    assert ls[..|ls|] == ls;
    CountsAre(c, ls, |ls|);
  }

  /** What a refusal of the audit says of the ledger, or of the file of some result in it, is so. */
  lemma AuditRefusalIsSo(c: Codec, g: EvidenceCodec, store: Store, requireCompleted: bool, fault: AuditError)
    requires AuditSpec(c, g, store, requireCompleted) == Err(fault)
    ensures var ls := Lines(store.ledger);
            match fault
            case BadLedger(p) => ParseSpec(c, store.ledger) == Err(p)
            case NoTerminalResult => !AllLinesClosed(c, ls)
            case NoneCompleted => requireCompleted && ClosingLines(c, ls, |ls|, "completed") == {}
            case _ => exists k, r :: 0 <= k < |ls| && Closes(c, ls[k], r) && FileAmiss(c, g, store.evidence, r, fault)
  {
    if ParseSpec(c, store.ledger).Ok? {
      var h := ParseSpec(c, store.ledger).value;
      ClosedIff(c, store.ledger);
      NoneCompletedIs(c, store.ledger);
      if AllClosed(h) && FirstFault(c, g, store.evidence, h, h.results) == Some(fault) {
        var r := SomeFault(c, g, store.evidence, h, h.results, fault);
        FaultIsSo(c, g, store, r, fault);
      }
    }
  }

  lemma FaultIsSo(c: Codec, g: EvidenceCodec, store: Store, r: Entry, fault: AuditError)
    requires ParseSpec(c, store.ledger).Ok? && r in ParseSpec(c, store.ledger).value.results
    requires ResultFault(c, g, store.evidence, ParseSpec(c, store.ledger).value, r) == Some(fault)
    ensures FileAmiss(c, g, store.evidence, r, fault)
    ensures exists k :: 0 <= k < |Lines(store.ledger)| && Closes(c, Lines(store.ledger)[k], r)
  {
    ResultsAreLines(c, store.ledger, r);
    var k: nat :| k < |Lines(store.ledger)| && Closes(c, Lines(store.ledger)[k], r);
    var j, e := ResultLine(c, store.ledger, k, r);
    FileFault(c, g, store.evidence, ParseSpec(c, store.ledger).value, r, fault);
  }
}
