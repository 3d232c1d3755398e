/** Any number of gate runs one after another. */
module GateRuns {
  import opened Wrappers
  import opened Order
  import opened Json
  import opened Ledger
  import opened LedgerProofs
  import opened Gate
  import opened GateProofs
  import opened AuditProofs

  ghost function Runs(c: Codec, g: EvidenceCodec, store: Store, runs: seq<GateRun>): Store
    decreases |runs|
  {
    if runs == [] then store else Runs(c, g, GateSpec(c, g, store, runs[0]).0, runs[1..])
  }

  function Plus(a: Counts, b: Counts): Counts {
    Counts(a.reservations + b.reservations, a.completed + b.completed, a.failed + b.failed)
  }

  /** What one run adds to the counts: nothing when it was refused. */
  function OneRun(ending: Ending): Counts {
    if ending.Refused? then Counts(0, 0, 0)
    else if ending.Returned? then Counts(1, 1, 0)
    else Counts(1, 0, 1)
  }

  /** How many of the runs reserved boards, and how many of those returned normally. */
  ghost function Tally(c: Codec, g: EvidenceCodec, store: Store, runs: seq<GateRun>): Counts
    decreases |runs|
  {
    if runs == [] then Counts(0, 0, 0)
    else
      var (after, ending) := GateSpec(c, g, store, runs[0]);
      Plus(OneRun(ending), Tally(c, g, after, runs[1..]))
  }

  // ---------------------------------------------------------------------------------------------
  // A store in order
  // ---------------------------------------------------------------------------------------------

  /** Every file in the store is the evidence some terminal record names. */
  ghost predicate Accounted(h: History, files: map<FileKey, string>) {
    forall k :: k in files ==> exists r :: r in h.results && k == FileKeyOf(Text(r, "evidence_file"))
  }

  ghost predicate Kept(c: Codec, g: EvidenceCodec, store: Store) {
    && WholeLines(store.ledger) && AuditSpec(c, g, store, false).Ok?
    && Accounted(ParseSpec(c, store.ledger).value, store.evidence)
  }

  /** The document a file holds names one iteration. */
  ghost predicate FileNames(g: EvidenceCodec, encoded: string, id: string) {
    g.decode(encoded).Some? && g.decode(encoded).value.Obj? && Field(g.decode(encoded).value.fields, "iteration_id") == Str(id)
  }

  /** In a store in order, a file holds the evidence of an iteration that is closed. */
  lemma FileIsOfClosed(c: Codec, g: EvidenceCodec, store: Store, key: FileKey) returns (r: Entry)
    requires Kept(c, g, store) && key in store.evidence
    ensures r in ParseSpec(c, store.ledger).value.results && FileNames(g, store.evidence[key], IdOf(r))
  {
    var h := ParseSpec(c, store.ledger).value;
    AuditIs(c, g, store);
    r :| r in h.results && key == FileKeyOf(Text(r, "evidence_file"));
    assert ResultFault(c, g, store.evidence, h, r).None?;
  }

  lemma AccountedAppend(h: History, h': History, files: map<FileKey, string>, r: Entry, key: FileKey, encoded: string)
    requires Accounted(h, files) && h'.results == h.results + [r] && key == FileKeyOf(Text(r, "evidence_file"))
    ensures Accounted(h', files[key := encoded])
  {
    assert r in h'.results;
    forall k | k in files
      ensures exists x :: x in h'.results && k == FileKeyOf(Text(x, "evidence_file"))
    {
      var x :| x in h.results && k == FileKeyOf(Text(x, "evidence_file"));
      assert x in h'.results;
    }
  }

  /** A run's evidence names its iteration as redaction leaves the id. */
  lemma EvidenceNamesId(c: Codec, g: EvidenceCodec, store: Store, run: GateRun)
    requires GoodEvidenceCodec(g) && Reserves(c, store, run) && VerdictOf(run).Records?
    ensures FileNames(g, g.encode(EvidenceOfRun(c, g, store, run)), g.redact(run.plan.iterationId))
  {
    var d, e := VerdictOf(run), EntryFor(c, store, run);
    var boards := EvidenceBoards(SelectedOf(run.eligible, BoardsOf(e)), run.disk, d.staged);
    EvidenceFields(run, boards, d.completed, d.browser);
    RedactedField(g, EvidenceOf(run, boards, d.completed, d.browser), "iteration_id");
  }

  /** A run that reaches its record under an id the audit can find writes a file of its own. */
  lemma FileIsNew(c: Codec, g: EvidenceCodec, store: Store, run: GateRun)
    requires GoodCodec(c) && GoodEvidenceCodec(g) && Kept(c, g, store) && Reserves(c, store, run) && ReadsBack(run)
    requires ReachesRecord(c, g, store, run) && Findable(g, run.plan.iterationId)
    ensures FileKeyOf(FileOf(run.plan.iterationId)) !in store.evidence
  {
    var key := FileKeyOf(FileOf(run.plan.iterationId));
    if key in store.evidence {
      var r := FileIsOfClosed(c, g, store, key);
      EvidenceNamesId(c, g, store, run);
      AfterReserving(c, store, run);
      assert false;
    }
  }

  lemma RecordedRunAudits(c: Codec, g: EvidenceCodec, store: Store, run: GateRun)
    requires GoodCodec(c) && GoodEvidenceCodec(g) && Kept(c, g, store) && ReadsBack(run) && Reserves(c, store, run)
    requires ReachesRecord(c, g, store, run) && Findable(g, run.plan.iterationId)
    ensures AuditSpec(c, g, GateSpec(c, g, store, run).0, false)
            == Ok(Plus(AuditSpec(c, g, store, false).value, OneRun(GateSpec(c, g, store, run).1)))
  {
    var r := RecordCloses(c, g, store, run);
    FileIsNew(c, g, store, run);
    FoundUnderItsName(run.plan.iterationId);
    AuditAfterRunIff(c, g, store, run);
    CountsOfOneRun(AuditSpec(c, g, store, false).value, AuditSpec(c, g, GateSpec(c, g, store, run).0, false).value,
                   GateSpec(c, g, store, run).1);
  }

  lemma CountsOfOneRun(before: Counts, after: Counts, ending: Ending)
    requires ending.Returned? || ending.Failed?
    requires after.reservations == before.reservations + 1
    requires after.completed == before.completed + (if ending.Returned? then 1 else 0)
    requires after.failed == before.failed + (if ending.Returned? then 0 else 1)
    ensures after == Plus(before, OneRun(ending))
  {
  }

  lemma RecordedRunAccounts(c: Codec, g: EvidenceCodec, store: Store, run: GateRun)
    requires GoodCodec(c) && Kept(c, g, store) && ReadsBack(run) && Reserves(c, store, run)
    requires ReachesRecord(c, g, store, run) && Findable(g, run.plan.iterationId)
    ensures var after := GateSpec(c, g, store, run).0;
            && WholeLines(after.ledger) && ParseSpec(c, after.ledger).Ok?
            && Accounted(ParseSpec(c, after.ledger).value, after.evidence)
  {
    var id := run.plan.iterationId;
    FoundUnderItsName(id);
    var r := RecordCloses(c, g, store, run);
    var after := GateSpec(c, g, store, run).0;
    AccountedAppend(ParseSpec(c, store.ledger).value, ParseSpec(c, after.ledger).value, store.evidence, r,
                    FileKeyOf(FileOf(id)), g.encode(EvidenceOfRun(c, g, store, run)));
  }

  /** Nothing is reserved and nothing changes. */
  lemma RefusedRunChangesNothing(c: Codec, g: EvidenceCodec, store: Store, run: GateRun)
    requires !Reserves(c, store, run)
    ensures GateSpec(c, g, store, run).0 == store && GateSpec(c, g, store, run).1.Refused?
  {
  }

  lemma PlusNothing(a: Counts)
    ensures Plus(a, Counts(0, 0, 0)) == a
  {
  }

  /** Refused, or recorded under a findable id, a run leaves the store in order, and itself counted. */
  lemma RunKeepsStore(c: Codec, g: EvidenceCodec, store: Store, run: GateRun)
    requires GoodCodec(c) && GoodEvidenceCodec(g) && Kept(c, g, store) && ReadsBack(run)
    requires Reserves(c, store, run) ==> ReachesRecord(c, g, store, run) && Findable(g, run.plan.iterationId)
    ensures Kept(c, g, GateSpec(c, g, store, run).0)
    ensures AuditSpec(c, g, GateSpec(c, g, store, run).0, false)
            == Ok(Plus(AuditSpec(c, g, store, false).value, OneRun(GateSpec(c, g, store, run).1)))
  {
    if Reserves(c, store, run) {
      RecordedRunAudits(c, g, store, run);
      RecordedRunAccounts(c, g, store, run);
    } else {
      RefusedRunChangesNothing(c, g, store, run);
      PlusNothing(AuditSpec(c, g, store, false).value);
    }
  }

  const EMPTY: Store := Store("", map[])

  lemma EmptyIsKept(c: Codec, g: EvidenceCodec)
    ensures Kept(c, g, EMPTY) && AuditSpec(c, g, EMPTY, false) == Ok(Counts(0, 0, 0))
  {
    assert ReadLines(c, START, []) == Ok(START);
    assert ParseSpec(c, "") == Ok(START.history);
    AuditIs(c, g, EMPTY);
  }

  // ---------------------------------------------------------------------------------------------
  // A run that does not
  // ---------------------------------------------------------------------------------------------

  /** The ledger does not read back, or it holds that iteration open. */
  ghost predicate Stuck(c: Codec, ledger: string, id: string) {
    ParseSpec(c, ledger).Ok? ==>
      HasId(ParseSpec(c, ledger).value.iterations, id) && !HasId(ParseSpec(c, ledger).value.results, id)
  }

  lemma StuckFailsAudit(c: Codec, g: EvidenceCodec, store: Store, id: string)
    requires Stuck(c, store.ledger, id)
    ensures AuditSpec(c, g, store, false).Err?
  {
  }

  /** Appending a reservation, or another iteration's result, leaves it open. */
  lemma AppendingStaysStuck(c: Codec, text: string, e: Entry, id: string)
    requires GoodCodec(c) && WholeLines(text) && Stuck(c, text, id) && (IsResult(e) ==> IdOf(e) != id)
    ensures WholeLines(text + LineOf(c, e)) && Stuck(c, text + LineOf(c, e), id)
  {
    ReadAppended(c, text, e);
    if ParseSpec(c, text + LineOf(c, e)).Ok? {
      var h := ParseSpec(c, text).value;
      var x :| x in h.iterations && IdOf(x) == id;
      assert x in ParseSpec(c, text + LineOf(c, e)).value.iterations;
    }
  }

  lemma ReservingStaysStuck(c: Codec, store: Store, run: GateRun, id: string)
    requires GoodCodec(c) && WholeLines(store.ledger) && Stuck(c, store.ledger, id) && Reserves(c, store, run)
    ensures WholeLines(Reserved(c, store, run).ledger) && Stuck(c, Reserved(c, store, run).ledger, id)
    ensures run.plan.iterationId != id
  {
    var selected := ReserveKeepsLedgerIff(c, store.ledger, run.eligible, run.disk, run.plan);
    AppendingStaysStuck(c, store.ledger, EntryFor(c, store, run), id);
  }

  lemma RecordingStaysStuck(c: Codec, g: EvidenceCodec, store: Store, run: GateRun, completed: bool, v: Value, id: string)
    requires GoodCodec(c) && WholeLines(store.ledger) && Stuck(c, store.ledger, id) && run.plan.iterationId != id
    ensures var after := RecordSpec(c, g, store, run, completed, v).0;
            WholeLines(after.ledger) && Stuck(c, after.ledger, id)
  {
    var t := TerminalOf(c, run, completed, g.encode(v));
    if AppendSpec(c, store.ledger, t).Ok? {
      AppendKeepsLedger(c, store.ledger, t);
      AppendingStaysStuck(c, store.ledger, AppendSpec(c, store.ledger, t).value, id);
    }
  }

  /** Where a reserved run leaves the store. */
  lemma RunEnds(c: Codec, g: EvidenceCodec, store: Store, run: GateRun)
    ensures !Reserves(c, store, run) ==> GateSpec(c, g, store, run).0 == store
    ensures Reserves(c, store, run) && !VerdictOf(run).Records? ==> GateSpec(c, g, store, run).0 == Reserved(c, store, run)
    ensures Reserves(c, store, run) && VerdictOf(run).Records? ==>
      GateSpec(c, g, store, run).0
      == RecordSpec(c, g, Reserved(c, store, run), run, VerdictOf(run).completed, EvidenceOfRun(c, g, store, run)).0
  {
    if Reserves(c, store, run) && VerdictOf(run).Records? {
      RunRecords(c, g, store, run);
    }
  }

  lemma RunStaysStuck(c: Codec, g: EvidenceCodec, store: Store, run: GateRun, id: string)
    requires GoodCodec(c) && WholeLines(store.ledger) && Stuck(c, store.ledger, id)
    ensures var after := GateSpec(c, g, store, run).0;
            WholeLines(after.ledger) && Stuck(c, after.ledger, id)
  {
    RunEnds(c, g, store, run);
    if Reserves(c, store, run) {
      ReservingStaysStuck(c, store, run, id);
      if VerdictOf(run).Records? {
        RecordingStaysStuck(c, g, Reserved(c, store, run), run, VerdictOf(run).completed, EvidenceOfRun(c, g, store, run), id);
      }
    }
  }

  lemma {:induction false} RunsStayStuck(c: Codec, g: EvidenceCodec, store: Store, runs: seq<GateRun>, id: string)
    requires GoodCodec(c) && WholeLines(store.ledger) && Stuck(c, store.ledger, id)
    ensures Stuck(c, Runs(c, g, store, runs).ledger, id)
    decreases |runs|
  {
    if runs != [] {
      RunStaysStuck(c, g, store, runs[0], id);
      RunsStayStuck(c, g, GateSpec(c, g, store, runs[0]).0, runs[1..], id);
    }
  }

  /**
    A reserved run that escapes before its record leaves a reservation no later gate run closes: the
    audit refuses the ledger after every continuation.
   */
  lemma EscapedRunIsNeverAudited(c: Codec, g: EvidenceCodec, store: Store, run: GateRun, later: seq<GateRun>)
    requires GoodCodec(c) && WholeLines(store.ledger) && Reserves(c, store, run)
    requires GateSpec(c, g, store, run).1.Escaped? && ReadsBack(run)
    ensures AuditSpec(c, g, Runs(c, g, GateSpec(c, g, store, run).0, later), false).Err?
  {
    var after, id := GateSpec(c, g, store, run).0, run.plan.iterationId;
    RunClosesReservationIff(c, g, store, run);
    AfterReserving(c, store, run);
    UnrecordedRunEscapes(c, g, store, run);
    TerminalCountZero(ParseSpec(c, after.ledger).value.results, id);
    RunsStayStuck(c, g, after, later, id);
    StuckFailsAudit(c, g, Runs(c, g, after, later), id);
  }

  // ---------------------------------------------------------------------------------------------
  // A record the audit cannot find
  // ---------------------------------------------------------------------------------------------

  /** The ledger reads back, and holds a terminal record for that iteration whose evidence is at fault. */
  ghost predicate AtFault(c: Codec, g: EvidenceCodec, store: Store, id: string) {
    && WholeLines(store.ledger) && ParseSpec(c, store.ledger).Ok?
    && var h := ParseSpec(c, store.ledger).value;
    exists r :: r in h.results && IdOf(r) == id && ResultFault(c, g, store.evidence, h, r).Some?
  }

  lemma FaultFailsAudit(c: Codec, g: EvidenceCodec, store: Store, id: string)
    requires AtFault(c, g, store, id)
    ensures AuditSpec(c, g, store, false).Err?
  {
    AuditIs(c, g, store);
  }

  lemma RecordAtFault(c: Codec, g: EvidenceCodec, store: Store, h: History, r: Entry, id: string)
    requires WholeLines(store.ledger) && ParseSpec(c, store.ledger) == Ok(h) && r in h.results && IdOf(r) == id
    requires ResultFault(c, g, store.evidence, h, r).Some?
    ensures AtFault(c, g, store, id)
  {
  }

  /** Redaction changed the id, so the evidence names another one. */
  lemma RenamedIsAFault(c: Codec, g: EvidenceCodec, files: map<FileKey, string>, h: History, r: Entry, id: string)
    requires FileKeyOf(Text(r, "evidence_file")) in files && FileNames(g, files[FileKeyOf(Text(r, "evidence_file"))], g.redact(id))
    requires IdOf(r) == id && g.redact(id) != id
    ensures ResultFault(c, g, files, h, r).Some?
  {
  }

  lemma UnfoundIsAFault(c: Codec, g: EvidenceCodec, store: Store, key: FileKey, encoded: string, h: History, r: Entry)
    requires Kept(c, g, store) && !HasId(ParseSpec(c, store.ledger).value.results, IdOf(r))
    requires FileKeyOf(Text(r, "evidence_file")) != key
    ensures ResultFault(c, g, store.evidence[key := encoded], h, r).Some?
  {
    var named := FileKeyOf(Text(r, "evidence_file"));
    if named in store.evidence {
      var x := FileIsOfClosed(c, g, store, named);
      assert IdOf(x) != IdOf(r);
      OtherFileIsAFault(c, g, store.evidence[key := encoded], h, r, IdOf(x));
    }
  }

  /** The name the record gives leads to another iteration's file or to none, or redaction changed the id. */
  lemma UnfindableIsAtFault(c: Codec, g: EvidenceCodec, store: Store, run: GateRun)
    requires GoodCodec(c) && GoodEvidenceCodec(g) && Kept(c, g, store) && Reserves(c, store, run) && ReadsBack(run)
    requires ReachesRecord(c, g, store, run) && !Findable(g, run.plan.iterationId)
    ensures AtFault(c, g, GateSpec(c, g, store, run).0, run.plan.iterationId)
  {
    var id, encoded := run.plan.iterationId, g.encode(EvidenceOfRun(c, g, store, run));
    var r := RecordCloses(c, g, store, run);
    var after := GateSpec(c, g, store, run).0;
    var h' := ParseSpec(c, after.ledger).value;
    assert r in h'.results;
    FoundUnderItsName(id);
    AfterReserving(c, store, run);
    if FileKeyOf(NameOf(FileOf(id))) == FileKeyOf(FileOf(id)) {
      EvidenceNamesId(c, g, store, run);
      RenamedIsAFault(c, g, after.evidence, h', r, id);
    } else {
      UnfoundIsAFault(c, g, store, FileKeyOf(FileOf(id)), encoded, h', r);
    }
    RecordAtFault(c, g, after, h', r, id);
  }

  lemma OtherFileIsAFault(c: Codec, g: EvidenceCodec, files: map<FileKey, string>, h: History, r: Entry, id: string)
    requires FileKeyOf(Text(r, "evidence_file")) in files && FileNames(g, files[FileKeyOf(Text(r, "evidence_file"))], id)
    requires id != IdOf(r)
    ensures ResultFault(c, g, files, h, r).Some?
  {
  }

  /** Evidence that lists the boards of another reservation is at fault, whatever its digest. */
  lemma OtherBoardsAreAFault(g: EvidenceCodec, v: Value, h: History, r: Entry, e: Entry, other: Entry)
    requires FindIteration(h.iterations, IdOf(r)) == Some(e) && BoardShas(e) !! BoardShas(other) && BoardShas(e) != {}
    requires v.Obj? && BoardsListed(Field(v.fields, "boards"))
    requires TextsOf(Field(v.fields, "boards").items, "sha256") == TextsOf(BoardsOf(other), "sha256")
    ensures EvidenceFault(v, h, r).Some?
  {
    var ours, theirs := TextsOf(BoardsOf(e), "sha256"), TextsOf(BoardsOf(other), "sha256");
    SortIsSorted(ours);
    SortIsSorted(theirs);
    var x :| x in BoardShas(e);
    assert x in ours && x in Sort(ours) && x !in theirs;
  }

  lemma RunEvidenceBoards(c: Codec, g: EvidenceCodec, store: Store, run: GateRun)
    requires GoodCodec(c) && GoodEvidenceCodec(g) && WholeLines(store.ledger) && Reserves(c, store, run) && ReadsBack(run)
    requires VerdictOf(run).Records?
    ensures var v, e := EvidenceOfRun(c, g, store, run), EntryFor(c, store, run);
            && v.Obj? && BoardsListed(Field(v.fields, "boards"))
            && TextsOf(Field(v.fields, "boards").items, "sha256") == TextsOf(BoardsOf(e), "sha256")
  {
    var d, e := VerdictOf(run), EntryFor(c, store, run);
    var boards := EvidenceBoards(SelectedOf(run.eligible, BoardsOf(e)), run.disk, d.staged);
    EvidenceNamesTheBoards(c, g, store, run, d.staged);
    EvidenceFields(run, boards, d.completed, d.browser);
    RedactedField(g, EvidenceOf(run, boards, d.completed, d.browser), "boards");
  }

  lemma BoardsOfTwo(h: History, e: Entry, e': Entry, k: nat)
    requires Sound(h) && k < |h.iterations| && h.iterations[k] == e' && exists j :: 0 <= j < k && h.iterations[j] == e
    ensures BoardShas(e) !! BoardShas(e') && BoardShas(e) != {}
  {
    var j :| 0 <= j < k && h.iterations[j] == e;
    assert |BoardShas(h.iterations[j])| == ITERATION_BOARDS;
  }

  /** The reservation behind a terminal record, and how its boards compare with a later reservation's. */
  lemma ReservationOf(c: Codec, before: string, after: string, r: Entry, e': Entry) returns (e: Entry)
    requires ParseSpec(c, before).Ok? && ParseSpec(c, after).Ok? && r in ParseSpec(c, before).value.results
    requires ParseSpec(c, after).value.iterations == ParseSpec(c, before).value.iterations + [e']
    ensures FindIteration(ParseSpec(c, before).value.iterations, IdOf(r)) == Some(e)
    ensures FindIteration(ParseSpec(c, after).value.iterations, IdOf(r)) == Some(e)
    ensures BoardShas(e) !! BoardShas(e') && BoardShas(e) != {}
  {
    ReadableLedgerIsSound(c, before);
    ReadableLedgerIsSound(c, after);
    e := ReservationIn(ParseSpec(c, before).value, ParseSpec(c, after).value, r, e');
  }

  lemma ReservationIn(h: History, h': History, r: Entry, e': Entry) returns (e: Entry)
    requires Sound(h) && Sound(h') && r in h.results && h'.iterations == h.iterations + [e']
    ensures FindIteration(h.iterations, IdOf(r)) == Some(e) == FindIteration(h'.iterations, IdOf(r))
    ensures BoardShas(e) !! BoardShas(e') && BoardShas(e) != {}
  {
    var i :| 0 <= i < |h.results| && h.results[i] == r;
    assert HasId(h.iterations, IdOf(h.results[i]));
    e := FoundReservation(h.iterations, IdOf(r));
    FindAppend(h.iterations, e', IdOf(r));
    var j :| 0 <= j < |h.iterations| && h.iterations[j] == e;
    assert h'.iterations[j] == e && h'.iterations[|h.iterations|] == e';
    BoardsOfTwo(h', e, e', |h.iterations|);
  }

  lemma {:induction false} FoundReservation(es: seq<Entry>, id: string) returns (e: Entry)
    requires HasId(es, id)
    ensures FindIteration(es, id) == Some(e) && e in es
    decreases |es|
  {
    if IdOf(es[0]) == id {
      e := es[0];
    } else {
      assert es == [es[0]] + es[1..];
      e := FoundReservation(es[1..], id);
    }
  }

  /** A record's evidence stays at fault while reservations join the ledger and a file of theirs the store. */
  lemma FaultStaysRecorded(c: Codec, g: EvidenceCodec, files: map<FileKey, string>, key: FileKey, encoded: string,
                           h: History, h': History, r: Entry, e: Entry, other: Entry)
    requires ResultFault(c, g, files, h, r).Some? && (key in files ==> files[key] == encoded)
    requires FindIteration(h.iterations, IdOf(r)) == Some(e) == FindIteration(h'.iterations, IdOf(r))
    requires BoardShas(e) !! BoardShas(other) && BoardShas(e) != {}
    requires g.decode(encoded).Some? && g.decode(encoded).value.Obj?
    requires BoardsListed(Field(g.decode(encoded).value.fields, "boards"))
    requires TextsOf(Field(g.decode(encoded).value.fields, "boards").items, "sha256") == TextsOf(BoardsOf(other), "sha256")
    ensures ResultFault(c, g, files[key := encoded], h', r).Some?
  {
    var k := FileKeyOf(Text(r, "evidence_file"));
    if k == key {
      OtherBoardsAreAFault(g, g.decode(encoded).value, h', r, e, other);
    }
  }

  lemma RecordedStaysAtFault(c: Codec, g: EvidenceCodec, store: Store, run: GateRun, id: string)
    requires GoodCodec(c) && GoodEvidenceCodec(g) && AtFault(c, g, store, id) && Reserves(c, store, run) && ReadsBack(run)
    requires ReachesRecord(c, g, store, run)
    ensures AtFault(c, g, GateSpec(c, g, store, run).0, id)
  {
    var after := GateSpec(c, g, store, run).0;
    var x := RecordCloses(c, g, store, run);
    var h, h' := ParseSpec(c, store.ledger).value, ParseSpec(c, after.ledger).value;
    var r :| r in h.results && IdOf(r) == id && ResultFault(c, g, store.evidence, h, r).Some?;
    var e := ReservationOf(c, store.ledger, after.ledger, r, EntryFor(c, store, run));
    RunEvidenceBoards(c, g, store, run);
    FaultStaysRecorded(c, g, store.evidence, FileKeyOf(FileOf(run.plan.iterationId)),
                       g.encode(EvidenceOfRun(c, g, store, run)), h, h', r, e, EntryFor(c, store, run));
    assert r in h'.results;
  }

  lemma SameReservationSameFault(c: Codec, g: EvidenceCodec, files: map<FileKey, string>, h: History, h': History, r: Entry)
    requires FindIteration(h.iterations, IdOf(r)) == FindIteration(h'.iterations, IdOf(r))
    ensures ResultFault(c, g, files, h, r) == ResultFault(c, g, files, h', r)
  {
  }

  /** The reservation is there and nothing else changed. */
  lemma FaultStaysUnrecorded(c: Codec, g: EvidenceCodec, store: Store, after: Store, e': Entry, id: string)
    requires AtFault(c, g, store, id) && WholeLines(after.ledger) && ParseSpec(c, after.ledger).Ok?
    requires after.evidence == store.evidence
    requires ParseSpec(c, after.ledger).value.iterations == ParseSpec(c, store.ledger).value.iterations + [e']
    requires ParseSpec(c, after.ledger).value.results == ParseSpec(c, store.ledger).value.results
    ensures AtFault(c, g, after, id)
  {
    var h, h' := ParseSpec(c, store.ledger).value, ParseSpec(c, after.ledger).value;
    var r :| r in h.results && IdOf(r) == id && ResultFault(c, g, store.evidence, h, r).Some?;
    var e := ReservationOf(c, store.ledger, after.ledger, r, e');
    SameReservationSameFault(c, g, store.evidence, h, h', r);
    RecordAtFault(c, g, after, h', r, id);
  }

  lemma EscapedStaysAtFault(c: Codec, g: EvidenceCodec, store: Store, run: GateRun, id: string)
    requires GoodCodec(c) && AtFault(c, g, store, id) && Reserves(c, store, run) && ReadsBack(run)
    requires !ReachesRecord(c, g, store, run)
    ensures AtFault(c, g, GateSpec(c, g, store, run).0, id)
  {
    UnrecordedRunEscapes(c, g, store, run);
    AfterReserving(c, store, run);
    FaultStaysUnrecorded(c, g, store, Reserved(c, store, run), EntryFor(c, store, run), id);
  }

  lemma {:induction false} RunsStayAtFault(c: Codec, g: EvidenceCodec, store: Store, runs: seq<GateRun>, id: string)
    requires GoodCodec(c) && GoodEvidenceCodec(g) && AtFault(c, g, store, id) && forall run :: run in runs ==> ReadsBack(run)
    ensures AtFault(c, g, Runs(c, g, store, runs), id)
    decreases |runs|
  {
    if runs != [] {
      var run := runs[0];
      assert run in runs && forall x :: x in runs[1..] ==> x in runs;
      if Reserves(c, store, run) {
        if ReachesRecord(c, g, store, run) {
          RecordedStaysAtFault(c, g, store, run, id);
        } else {
          EscapedStaysAtFault(c, g, store, run, id);
        }
      }
      RunsStayAtFault(c, g, GateSpec(c, g, store, run).0, runs[1..], id);
    }
  }

  // ---------------------------------------------------------------------------------------------
  // Any sequence of runs
  // ---------------------------------------------------------------------------------------------

  /** Every run that reserves boards reaches its record, under an id the audit can find. */
  ghost predicate AllRecorded(c: Codec, g: EvidenceCodec, store: Store, runs: seq<GateRun>)
    decreases |runs|
  {
    runs != [] ==>
      && (Reserves(c, store, runs[0]) ==> ReachesRecord(c, g, store, runs[0]) && Findable(g, runs[0].plan.iterationId))
      && AllRecorded(c, g, GateSpec(c, g, store, runs[0]).0, runs[1..])
  }

  lemma PlusAssociative(a: Counts, b: Counts, d: Counts)
    ensures Plus(Plus(a, b), d) == Plus(a, Plus(b, d))
  {
  }

  lemma {:induction false} RunsKeepStore(c: Codec, g: EvidenceCodec, store: Store, runs: seq<GateRun>)
    requires GoodCodec(c) && GoodEvidenceCodec(g) && Kept(c, g, store)
    requires (forall run :: run in runs ==> ReadsBack(run)) && AllRecorded(c, g, store, runs)
    ensures Kept(c, g, Runs(c, g, store, runs))
    ensures AuditSpec(c, g, Runs(c, g, store, runs), false)
            == Ok(Plus(AuditSpec(c, g, store, false).value, Tally(c, g, store, runs)))
    decreases |runs|
  {
    if runs == [] {
      PlusNothing(AuditSpec(c, g, store, false).value);
    } else {
      var after, ending := GateSpec(c, g, store, runs[0]).0, GateSpec(c, g, store, runs[0]).1;
      assert runs[0] in runs && forall run :: run in runs[1..] ==> run in runs;
      RunKeepsStore(c, g, store, runs[0]);
      RunsKeepStore(c, g, after, runs[1..]);
      PlusAssociative(AuditSpec(c, g, store, false).value, OneRun(ending), Tally(c, g, after, runs[1..]));
    }
  }

  lemma {:induction false} UnrecordedFailsAudit(c: Codec, g: EvidenceCodec, store: Store, runs: seq<GateRun>)
    requires GoodCodec(c) && GoodEvidenceCodec(g) && Kept(c, g, store)
    requires (forall run :: run in runs ==> ReadsBack(run)) && !AllRecorded(c, g, store, runs)
    ensures AuditSpec(c, g, Runs(c, g, store, runs), false).Err?
    decreases |runs|
  {
    var run, rest := runs[0], runs[1..];
    var after := GateSpec(c, g, store, run).0;
    assert run in runs && forall x :: x in rest ==> x in runs;
    if Reserves(c, store, run) && !ReachesRecord(c, g, store, run) {
      UnrecordedRunEscapes(c, g, store, run);
      EscapedRunIsNeverAudited(c, g, store, run, rest);
    } else if Reserves(c, store, run) && !Findable(g, run.plan.iterationId) {
      UnfindableIsAtFault(c, g, store, run);
      RunsStayAtFault(c, g, after, rest, run.plan.iterationId);
      FaultFailsAudit(c, g, Runs(c, g, after, rest), run.plan.iterationId);
    } else {
      RunKeepsStore(c, g, store, run);
      UnrecordedFailsAudit(c, g, after, rest);
    }
  }

  /**
    From a ledger and store the audit accepts, the empty ones for a start, and after any sequence of dated
    runs over well-formed candidates, refused ones included: the audit accepts again exactly when every
    run that reserved boards reached its record under a findable id, and then it counts exactly the runs
    that reserved boards, those that returned, and those that failed besides.
   */
  lemma AuditAcceptsIff(c: Codec, g: EvidenceCodec, store: Store, runs: seq<GateRun>)
    requires GoodCodec(c) && GoodEvidenceCodec(g) && Kept(c, g, store) && forall run :: run in runs ==> ReadsBack(run)
    ensures AuditSpec(c, g, Runs(c, g, store, runs), false).Ok? <==> AllRecorded(c, g, store, runs)
    ensures AllRecorded(c, g, store, runs) ==>
      AuditSpec(c, g, Runs(c, g, store, runs), false).value
      == Plus(AuditSpec(c, g, store, false).value, Tally(c, g, store, runs))
  {
    if AllRecorded(c, g, store, runs) {
      RunsKeepStore(c, g, store, runs);
    } else {
      UnrecordedFailsAudit(c, g, store, runs);
    }
  }

  /** An undated reservation can never be read back: every later run is refused, and so is every audit. */
  lemma UndatedReservationEndsTheLedger(c: Codec, g: EvidenceCodec, store: Store, run: GateRun, later: seq<GateRun>)
    requires GoodCodec(c) && WholeLines(store.ledger) && Reserves(c, store, run) && run.plan.plannedAt == ""
    ensures AuditSpec(c, g, Runs(c, g, GateSpec(c, g, store, run).0, later), false).Err?
    ensures later != [] ==> GateSpec(c, g, GateSpec(c, g, store, run).0, later[0]).1.Refused?
  {
    var selected := ReserveKeepsLedgerIff(c, store.ledger, run.eligible, run.disk, run.plan);
    UnreadableIsNotClosed(c, g, Reserved(c, store, run), run, EntryFor(c, store, run));
    UnreadableStays(c, g, GateSpec(c, g, store, run).0, later);
  }

  /** No record closes anything on a ledger that does not read back. */
  lemma UnreadableIsNotRecorded(c: Codec, g: EvidenceCodec, store: Store, run: GateRun, completed: bool, v: Value)
    requires ParseSpec(c, store.ledger).Err?
    ensures RecordSpec(c, g, store, run, completed, v).0.ledger == store.ledger
  {
    assert forall t :: AppendSpec(c, store.ledger, t).Err?;
  }

  lemma UnreadableIsNotClosed(c: Codec, g: EvidenceCodec, reserved: Store, run: GateRun, e: Entry)
    requires ParseSpec(c, reserved.ledger).Err?
    ensures FinishSpec(c, g, reserved, run, e).0.ledger == reserved.ledger
  {
    if VerdictOf(run).Records? {
      var d := VerdictOf(run);
      UnreadableIsNotRecorded(c, g, reserved, run, d.completed, EvidenceFor(g, run, e, d.staged, d.completed, d.browser));
    }
  }

  lemma {:induction false} UnreadableStays(c: Codec, g: EvidenceCodec, store: Store, runs: seq<GateRun>)
    requires ParseSpec(c, store.ledger).Err?
    ensures Runs(c, g, store, runs) == store
    ensures runs != [] ==> GateSpec(c, g, store, runs[0]).1.Refused?
    decreases |runs|
  {
    if runs != [] {
      assert GateSpec(c, g, store, runs[0]).0 == store;
      UnreadableStays(c, g, store, runs[1..]);
    }
  }
}
