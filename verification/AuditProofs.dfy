/** What the audit says after the gate's runs. */
module AuditProofs {
  import opened Wrappers
  import opened Json
  import opened Selection
  import opened Ledger
  import opened LedgerProofs
  import opened Gate
  import opened GateProofs

  // ---------------------------------------------------------------------------------------------
  // The evidence of a reservation names the reservation's boards
  // ---------------------------------------------------------------------------------------------

  lemma {:induction false} FindsById(cs: seq<Candidate>, b: Candidate)
    requires Consistent(cs) && b in cs
    ensures FindById(cs, b.boardId) == Some(b)
    decreases |cs|
  {
    var last := cs[|cs| - 1];
    if last.boardId != b.boardId {
      assert b in cs[..|cs| - 1];
      assert forall c :: c in cs[..|cs| - 1] ==> c in cs;
      FindsById(cs[..|cs| - 1], b);
    }
  }

  /** Looking the recorded boards up again finds the candidates they were made from. */
  lemma {:induction false} SelectedAgain(cs: seq<Candidate>, bs: seq<Candidate>, disk: Disk)
    requires Consistent(cs) && (forall b :: b in bs ==> b in cs) && BoardRecords(bs, disk).Some?
    ensures SelectedOf(cs, BoardRecords(bs, disk).value) == bs
    decreases |bs|
  {
    if bs != [] {
      var vs := BoardRecords(bs, disk).value;
      var r := BoardRecord(bs[0], disk.firmwareSha(bs[0]).value);
      assert vs[0] == Obj(r) && Text(r, "board_id") == bs[0].boardId;
      assert vs[1..] == BoardRecords(bs[1..], disk).value;
      FindsById(cs, bs[0]);
      SelectedAgain(cs, bs[1..], disk);
    }
  }

  lemma PlainDigest(g: EvidenceCodec, s: string, n: nat)
    requires GoodEvidenceCodec(g) && Hex(s, n)
    ensures g.redact(s) == s
  {
  }

  /** A board's evidence still names its content once redacted. */
  lemma RedactedBoard(g: EvidenceCodec, b: Candidate, disk: Disk, staged: Value)
    requires GoodEvidenceCodec(g) && Hex(b.sha256, 64)
    ensures var r := Redact(g, EvidenceBoard(b, disk, staged));
            r.Obj? && IsStr(r.fields, "sha256") && Text(r.fields, "sha256") == b.sha256
  {
    PlainDigest(g, b.sha256, 64);
    var e := EvidenceBoard(b, disk, staged);
    assert e.fields["sha256"] == Str(b.sha256);
  }

  lemma RedactedBoards(g: EvidenceCodec, bs: seq<Candidate>, disk: Disk, staged: Option<seq<string>>)
    requires GoodEvidenceCodec(g) && forall b :: b in bs ==> Hex(b.sha256, 64)
    ensures var r := Redact(g, Arr(EvidenceBoards(bs, disk, staged)));
            && BoardsListed(r) && |TextsOf(r.items, "sha256")| == |bs|
            && forall i :: 0 <= i < |bs| ==> TextsOf(r.items, "sha256")[i] == bs[i].sha256
  {
    var vs := EvidenceBoards(bs, disk, staged);
    var r := Redact(g, Arr(vs));
    assert r.Arr? && |r.items| == |vs|;
    forall i | 0 <= i < |bs|
      ensures r.items[i].Obj? && IsStr(r.items[i].fields, "sha256") && BoardText(r.items[i], "sha256") == bs[i].sha256
    {
      assert bs[i] in bs;
      RedactedBoard(g, bs[i], disk, StagedSha(staged, i));
      assert r.items[i] == Redact(g, vs[i]);
    }
  }

  /** What the audit reads in an evidence document. */
  ghost predicate EvidenceFacts(v: Value, gate: string, id: string, status: string, commit: string, boards: Value) {
    && v.Obj? && Field(v.fields, "gate") == Str(gate) && Field(v.fields, "iteration_id") == Str(id)
    && Field(v.fields, "status") == Str(status) && Field(v.fields, "tool_commit") == Str(commit)
    && Field(v.fields, "boards") == boards
  }

  lemma EvidenceFields(run: GateRun, boards: seq<Value>, completed: bool, browser: Value)
    ensures EvidenceFacts(EvidenceOf(run, boards, completed, browser), "external-five", run.plan.iterationId,
                          Status(completed), run.plan.toolCommit, Arr(boards))
  {
  }

  /** A text field that redaction leaves alone reads the same. */
  lemma RedactedText(g: EvidenceCodec, v: Value, k: string, t: string)
    requires v.Obj? && Field(v.fields, k) == Str(t)
    ensures Redact(g, v).Obj? && Field(Redact(g, v).fields, k) == Str(g.redact(t))
  {
    RedactedField(g, v, k);
  }

  lemma PlainWords(g: EvidenceCodec)
    requires GoodEvidenceCodec(g)
    ensures g.redact("external-five") == "external-five"
    ensures g.redact("completed") == "completed" && g.redact("failed") == "failed"
  {
  }

  lemma RedactedFields(g: EvidenceCodec, v: Value, id: string, status: string, commit: string, boards: Value)
    requires GoodEvidenceCodec(g) && EvidenceFacts(v, "external-five", id, status, commit, boards) && boards.Arr?
    requires (status == "completed" || status == "failed") && Hex(commit, 40)
    ensures EvidenceFacts(Redact(g, v), "external-five", g.redact(id), status, commit, Redact(g, boards))
  {
    PlainDigest(g, commit, 40);
    PlainWords(g);
    RedactedText(g, v, "gate", "external-five");
    RedactedText(g, v, "iteration_id", id);
    RedactedText(g, v, "status", status);
    RedactedText(g, v, "tool_commit", commit);
    RedactedField(g, v, "boards");
  }

  lemma RedactedField(g: EvidenceCodec, v: Value, k: string)
    requires v.Obj?
    ensures Redact(g, v).Obj?
    ensures Field(v.fields, k) != Null ==> Field(Redact(g, v).fields, k) == Redact(g, Field(v.fields, k))
  {
  }

  lemma RecordTexts(bs: seq<Candidate>, disk: Disk)
    requires BoardRecords(bs, disk).Some?
    ensures var ts := TextsOf(BoardRecords(bs, disk).value, "sha256");
            |ts| == |bs| && forall i :: 0 <= i < |bs| ==> ts[i] == bs[i].sha256
  {
    var vs := BoardRecords(bs, disk).value;
    forall i | 0 <= i < |bs|
      ensures BoardText(vs[i], "sha256") == bs[i].sha256
    {
      var r := BoardRecord(bs[i], disk.firmwareSha(bs[i]).value);
      assert vs[i] == Obj(r) && Text(r, "sha256") == bs[i].sha256;
    }
  }

  /** The candidates behind a reservation the gate made. */
  lemma Drawn(c: Codec, store: Store, run: GateRun) returns (selected: seq<Candidate>)
    requires Reserves(c, store, run)
    ensures Consistent(run.eligible) && forall b :: b in selected ==> b in run.eligible
    ensures BoardRecords(selected, run.disk) == Some(BoardsOf(EntryFor(c, store, run)))
  {
    var h := ParseSpec(c, store.ledger).value;
    selected := ReservedBoards(c, h, c.sha(store.ledger), run.eligible, run.disk, run.plan);
    ReservationFields(run.plan, DeriveSeed(c, run.plan.iterationId, c.sha(store.ledger), run.plan.entropy), c.sha(store.ledger),
                      |Index(run.eligible)|, c.sha(run.disk.pool(run.eligible).value), BoardRecords(selected, run.disk).value);
  }

  /** The boards the evidence lists carry the digests of the boards the reservation drew, in its order. */
  lemma EvidenceNamesTheBoards(c: Codec, g: EvidenceCodec, store: Store, run: GateRun, staged: Option<seq<string>>)
    requires GoodCodec(c) && GoodEvidenceCodec(g) && WholeLines(store.ledger) && Reserves(c, store, run) && ReadsBack(run)
    ensures var boards := BoardsOf(EntryFor(c, store, run));
            var listed := Redact(g, Arr(EvidenceBoards(SelectedOf(run.eligible, boards), run.disk, staged)));
            BoardsListed(listed) && TextsOf(listed.items, "sha256") == TextsOf(boards, "sha256")
  {
    var selected := Drawn(c, store, run);
    SelectedAgain(run.eligible, selected, run.disk);
    assert forall b :: b in selected ==> WellFormed(b);
    RedactedBoards(g, selected, run.disk, staged);
    RecordTexts(selected, run.disk);
  }

  // ---------------------------------------------------------------------------------------------
  // One result under the audit
  // ---------------------------------------------------------------------------------------------

  /** The audit finds the evidence under the name the record gives, and reads the iteration's own id in it. */
  predicate Findable(g: EvidenceCodec, id: string) {
    !Absolute(id) && |Parts(FileOf(id))| == 1 && g.redact(id) == id
  }

  lemma FoundUnderItsName(id: string)
    ensures FileKeyOf(NameOf(FileOf(id))) == FileKeyOf(FileOf(id)) <==> !Absolute(id) && |Parts(FileOf(id))| == 1
  {
    NameIsSafe(id);
    var name := NameOf(FileOf(id));
    assert FileKeyOf(name) == (false, [name]);
    assert Absolute(FileOf(id)) <==> Absolute(id);
    var ps := Parts(FileOf(id));
    if |ps| == 1 {
      assert ps == [ps[0]];
    }
  }

  /** Evidence that names the iteration's boards passes every check but perhaps that of its id. */
  lemma FaultOnlyInId(v: Value, h: History, r: Entry, e: Entry, id: string, status: string, commit: string, boards: Value)
    requires EvidenceFacts(v, "external-five", id, status, commit, boards) && BoardsListed(boards)
    requires Text(r, "status") == status && Text(r, "tool_commit") == commit
    requires FindIteration(h.iterations, IdOf(r)) == Some(e)
    requires TextsOf(boards.items, "sha256") == TextsOf(BoardsOf(e), "sha256")
    ensures EvidenceFault(v, h, r).None? <==> id == IdOf(r)
  {
  }

  /** The run's own evidence passes every check of its contents exactly when redaction left the id alone. */
  lemma OwnEvidenceIffIdKept(c: Codec, g: EvidenceCodec, store: Store, run: GateRun, h: History, r: Entry)
    requires GoodCodec(c) && GoodEvidenceCodec(g) && WholeLines(store.ledger) && Reserves(c, store, run) && ReadsBack(run)
    requires ReachesRecord(c, g, store, run)
    requires FindIteration(h.iterations, IdOf(r)) == Some(EntryFor(c, store, run))
    requires IdOf(r) == run.plan.iterationId && Text(r, "status") == Status(VerdictOf(run).completed)
    requires Text(r, "tool_commit") == run.plan.toolCommit
    ensures EvidenceFault(EvidenceOfRun(c, g, store, run), h, r).None? <==> g.redact(run.plan.iterationId) == run.plan.iterationId
  {
    AfterReserving(c, store, run);
    var d, e := VerdictOf(run), EntryFor(c, store, run);
    var boards := EvidenceBoards(SelectedOf(run.eligible, BoardsOf(e)), run.disk, d.staged);
    EvidenceNamesTheBoards(c, g, store, run, d.staged);
    EvidenceFields(run, boards, d.completed, d.browser);
    RedactedFields(g, EvidenceOf(run, boards, d.completed, d.browser), run.plan.iterationId, Status(d.completed),
                   run.plan.toolCommit, Arr(boards));
    FaultOnlyInId(EvidenceOfRun(c, g, store, run), h, r, e, g.redact(run.plan.iterationId), Status(d.completed),
                  run.plan.toolCommit, Redact(g, Arr(boards)));
  }

  lemma {:induction false} FindAppend(es: seq<Entry>, e: Entry, id: string)
    ensures FindIteration(es + [e], id) ==
            if FindIteration(es, id).Some? then FindIteration(es, id) else if IdOf(e) == id then Some(e) else None
    decreases |es|
  {
    if es == [] {
      assert es + [e] == [e];
      assert [e][1..] == [];
    } else {
      assert (es + [e])[0] == es[0] && (es + [e])[1..] == es[1..] + [e];
      FindAppend(es[1..], e, id);
    }
  }

  lemma {:induction false} FirstFaultNone(c: Codec, g: EvidenceCodec, files: map<FileKey, string>, h: History, rs: seq<Entry>)
    ensures FirstFault(c, g, files, h, rs).None? <==> forall r :: r in rs ==> ResultFault(c, g, files, h, r).None?
    decreases |rs|
  {
    if rs != [] {
      FirstFaultNone(c, g, files, h, rs[1..]);
      assert forall r :: r in rs <==> r == rs[0] || r in rs[1..];
    }
  }

  /** What was found in order stays in order while files only join the store and reservations the ledger. */
  lemma FaultlessStays(c: Codec, g: EvidenceCodec, files: map<FileKey, string>, key: FileKey, encoded: string, h: History, h': History,
                       e: Entry, r: Entry)
    requires ResultFault(c, g, files, h, r).None? && (key in files ==> files[key] == encoded)
    requires h'.iterations == h.iterations + [e]
    ensures ResultFault(c, g, files[key := encoded], h', r).None?
  {
    var k := FileKeyOf(Text(r, "evidence_file"));
    assert files[key := encoded][k] == files[k];
    FindAppend(h.iterations, e, IdOf(r));
    SameEvidenceFault(g.decode(files[k]).value, h, h', r);
  }

  /** The reservation found before is found still. */
  lemma SameEvidenceFault(v: Value, h: History, h': History, r: Entry)
    requires EvidenceFault(v, h, r).None?
    requires FindIteration(h.iterations, IdOf(r)).Some? ==>
      FindIteration(h'.iterations, IdOf(r)) == FindIteration(h.iterations, IdOf(r))
    ensures EvidenceFault(v, h', r).None?
  {
  }

  lemma {:induction false} CountPrefix(rs: seq<Entry>, r: Entry, k: nat, completed: bool)
    requires k <= |rs|
    ensures CountStatus(rs + [r], k, completed) == CountStatus(rs, k, completed)
  {
    if k > 0 {
      CountPrefix(rs, r, k - 1, completed);
    }
  }

  /** A history every iteration of which is closed, with no fault in any result. */
  ghost predicate InOrder(c: Codec, g: EvidenceCodec, files: map<FileKey, string>, h: History) {
    AllClosed(h) && forall r :: r in h.results ==> ResultFault(c, g, files, h, r).None?
  }

  function CountsOf(h: History): Counts {
    Counts(|h.iterations|, CountStatus(h.results, |h.results|, true), CountStatus(h.results, |h.results|, false))
  }

  lemma AuditIs(c: Codec, g: EvidenceCodec, store: Store)
    ensures AuditSpec(c, g, store, false).Ok? <==>
              ParseSpec(c, store.ledger).Ok? && InOrder(c, g, store.evidence, ParseSpec(c, store.ledger).value)
    ensures AuditSpec(c, g, store, false).Ok? ==>
              AuditSpec(c, g, store, false).value == CountsOf(ParseSpec(c, store.ledger).value)
  {
    if ParseSpec(c, store.ledger).Ok? {
      var h := ParseSpec(c, store.ledger).value;
      FirstFaultNone(c, g, store.evidence, h, h.results);
    }
  }

  lemma CountsAppend(h: History, h': History, e: Entry, r: Entry)
    requires h'.iterations == h.iterations + [e] && h'.results == h.results + [r]
    ensures var n, n' := CountsOf(h), CountsOf(h');
            && n'.reservations == n.reservations + 1
            && n'.completed == n.completed + (if Text(r, "status") == "completed" then 1 else 0)
            && n'.failed == n.failed + (if Text(r, "status") == "completed" then 0 else 1)
  {
    CountPrefix(h.results, r, |h.results|, true);
    CountPrefix(h.results, r, |h.results|, false);
  }

  lemma InOrderAppend(c: Codec, g: EvidenceCodec, files: map<FileKey, string>, key: FileKey, encoded: string,
                      h: History, h': History, e: Entry, r: Entry)
    requires InOrder(c, g, files, h) && (key in files ==> files[key] == encoded)
    requires h'.iterations == h.iterations + [e] && h'.results == h.results + [r] && IdOf(r) == IdOf(e)
    ensures InOrder(c, g, files[key := encoded], h') <==> ResultFault(c, g, files[key := encoded], h', r).None?
  {
    forall x | x in h.results
      ensures ResultFault(c, g, files[key := encoded], h', x).None?
    {
      FaultlessStays(c, g, files, key, encoded, h, h', e, x);
    }
    forall x | x in h'.iterations
      ensures HasId(h'.results, IdOf(x))
    {
      if x in h.iterations {
        var y :| y in h.results && IdOf(y) == IdOf(x);
        assert y in h'.results;
      } else {
        assert r in h'.results;
      }
    }
    assert r in h'.results;
  }

  /** The new record under the audit. */
  lemma NewRecordIff(c: Codec, g: EvidenceCodec, files: map<FileKey, string>, h: History, r: Entry, id: string, v: Value)
    requires GoodEvidenceCodec(g)
    requires Text(r, "evidence_file") == NameOf(FileOf(id)) && Text(r, "evidence_sha256") == c.sha(g.encode(v))
    requires FileKeyOf(FileOf(id)) in files && files[FileKeyOf(FileOf(id))] == g.encode(v)
    requires FileKeyOf(NameOf(FileOf(id))) == FileKeyOf(FileOf(id)) || FileKeyOf(NameOf(FileOf(id))) !in files
    ensures ResultFault(c, g, files, h, r).None? <==>
            FileKeyOf(NameOf(FileOf(id))) == FileKeyOf(FileOf(id)) && EvidenceFault(v, h, r).None?
  {
  }

  /**
    Between runs the audit accepts the ledger and the store after a recorded run exactly when the
    iteration's id is a plain file name that redaction leaves alone, and then it counts one run more.
   */
  lemma AuditAfterRunIff(c: Codec, g: EvidenceCodec, store: Store, run: GateRun)
    requires GoodCodec(c) && GoodEvidenceCodec(g) && WholeLines(store.ledger) && AuditSpec(c, g, store, false).Ok?
    requires Reserves(c, store, run) && ReadsBack(run) && ReachesRecord(c, g, store, run)
    requires FileKeyOf(NameOf(FileOf(run.plan.iterationId))) !in store.evidence
    ensures var before, after := AuditSpec(c, g, store, false), GateSpec(c, g, store, run);
            var audit := AuditSpec(c, g, after.0, false);
            && (audit.Ok? <==> Findable(g, run.plan.iterationId))
            && (audit.Ok? ==>
                  && audit.value.reservations == before.value.reservations + 1
                  && audit.value.completed == before.value.completed + (if after.1.Returned? then 1 else 0)
                  && audit.value.failed == before.value.failed + (if after.1.Returned? then 0 else 1))
  {
    var after, id, v := GateSpec(c, g, store, run).0, run.plan.iterationId, EvidenceOfRun(c, g, store, run);
    var key, e := FileKeyOf(FileOf(id)), EntryFor(c, store, run);
    var r := RecordCloses(c, g, store, run);
    var h, h' := ParseSpec(c, store.ledger).value, ParseSpec(c, after.ledger).value;
    AuditIs(c, g, store);
    AuditIs(c, g, after);
    InOrderAppend(c, g, store.evidence, key, g.encode(v), h, h', e, r);
    NewRecordIff(c, g, after.evidence, h', r, id, v);
    FoundUnderItsName(id);
    AfterReserving(c, store, run);
    FindAppend(h.iterations, e, id);
    OwnEvidenceIffIdKept(c, g, store, run, h', r);
    CountsAppend(h, h', e, r);
  }
}
