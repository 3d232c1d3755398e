/** What the ledger's two operations accept and write, and what one gate run records, field by field. */
module RunMeaning {
  import opened Wrappers
  import opened Json
  import opened Selection
  import opened Ledger
  import opened LedgerProofs
  import opened LedgerMeaning
  import opened Gate
  import GateProofs

  // ---------------------------------------------------------------------------------------------
  // Closing an iteration
  // ---------------------------------------------------------------------------------------------

  predicate IsDigest(s: string, n: nat) {
    |s| == n && forall c :: c in s ==> c in "0123456789abcdef"
  }

  lemma IsDigestIff(s: string, n: nat)
    ensures Hex(s, n) <==> IsDigest(s, n)
  {
    HexDigits(s);
  }

  /** Some reservation stands in the ledger under that id. */
  ghost predicate ReservedIn(c: Codec, text: string, id: string) {
    exists j, e :: 0 <= j < |Lines(text)| && Reserves(c, Lines(text)[j], e) && IdOf(e) == id
  }

  ghost predicate ClosedIn(c: Codec, text: string, id: string) {
    exists j, e :: 0 <= j < |Lines(text)| && Closes(c, Lines(text)[j], e) && IdOf(e) == id
  }

  lemma ReservedInIff(c: Codec, text: string, id: string)
    requires ParseSpec(c, text).Ok?
    ensures HasId(ParseSpec(c, text).value.iterations, id) <==> ReservedIn(c, text, id)
  {
    var h, ls := ParseSpec(c, text).value, Lines(text);
    ReadableIff(c, text);
    if HasId(h.iterations, id) {
      var e :| e in h.iterations && IdOf(e) == id;
      assert ReservedAbove(c, ls, |ls|, e);
    }
    if j, e :| 0 <= j < |ls| && Reserves(c, ls[j], e) && IdOf(e) == id {
      assert ReservedAbove(c, ls, |ls|, e);
    }
  }

  lemma ClosedInIff(c: Codec, text: string, id: string)
    requires ParseSpec(c, text).Ok?
    ensures HasId(ParseSpec(c, text).value.results, id) <==> ClosedIn(c, text, id)
  {
    var h, ls := ParseSpec(c, text).value, Lines(text);
    ReadableIff(c, text);
    if HasId(h.results, id) {
      var e :| e in h.results && IdOf(e) == id;
      assert ClosedAbove(c, ls, |ls|, e);
    }
    if j, e :| 0 <= j < |ls| && Closes(c, ls[j], e) && IdOf(e) == id {
      assert ClosedAbove(c, ls, |ls|, e);
    }
  }

  lemma ReadsIff(c: Codec, text: string)
    ensures ParseSpec(c, text).Ok? <==> AllFit(c, Lines(text), |Lines(text)|)
  {
    ReadableIff(c, text);
  }

  /** The entry is the terminal's facts and the hash of the whole ledger. */
  predicate ClosesWith(e: Entry, t: Terminal, prior: string) {
    && e.Keys == {"schema_version", "record_type", "iteration_id", "recorded_at", "status", "prior_history_sha256",
                  "evidence_sha256", "evidence_file", "tool_commit", "board_sha256s"}
    && e["schema_version"] == Int(2) && e["record_type"] == Str("result") && e["iteration_id"] == Str(t.iterationId)
    && e["recorded_at"] == Str(t.recordedAt) && e["status"] == Str(t.status) && e["prior_history_sha256"] == Str(prior)
    && e["evidence_sha256"] == Str(t.evidenceSha256) && e["tool_commit"] == Str(t.toolCommit)
    && e["evidence_file"].Str? && Parts(e["evidence_file"].s) == Parts(t.evidenceFile)
  }

  /** The entry also repeats the contents its reservation drew. */
  ghost predicate ClosingEntry(c: Codec, text: string, t: Terminal, e: Entry) {
    && ClosesWith(e, t, c.sha(text))
    && exists j, r :: 0 <= j < |Lines(text)| && Reserves(c, Lines(text)[j], r) && IdOf(r) == t.iterationId && RepeatsBoards(e, r)
  }

  /**
    An iteration is closed exactly with a terminal status, digests that are digests, a path that stays, on
    a ledger that reads back, where it is reserved and not closed yet; a refusal says what was first amiss.
   */
  lemma AppendOutcome(c: Codec, text: string, t: Terminal)
    ensures var r := AppendSpec(c, text, t);
            if t.status != "completed" && t.status != "failed" then r == Err(BadStatus)
            else if !IsDigest(t.evidenceSha256, 64) then r == Err(BadEvidenceDigest)
            else if !IsDigest(t.toolCommit, 40) then r == Err(BadCommit)
            else if !Stays(t.evidenceFile) then r == Err(UnsafeEvidence)
            else if !AllFit(c, Lines(text), |Lines(text)|) then r.Err? && r.error.Unreadable?
            else if !ReservedIn(c, text, t.iterationId) then r == Err(UnknownIteration)
            else if ClosedIn(c, text, t.iterationId) then r == Err(AlreadyClosed)
            else r.Ok? && ClosingEntry(c, text, t, r.value)
  {
    IsDigestIff(t.evidenceSha256, 64);
    IsDigestIff(t.toolCommit, 40);
    StaysIff(t.evidenceFile);
    ReadsIff(c, text);
    if ParseSpec(c, text).Ok? {
      ReservedInIff(c, text, t.iterationId);
      ClosedInIff(c, text, t.iterationId);
      if AppendSpec(c, text, t).Ok? {
        AppendedIs(c, text, t);
      }
    }
  }

  lemma AppendedIs(c: Codec, text: string, t: Terminal)
    requires AppendSpec(c, text, t).Ok?
    ensures ClosingEntry(c, text, t, AppendSpec(c, text, t).value)
  {
    var e := AppendSpec(c, text, t).value;
    var r := AppendSteps(c, text, t);
    ClosingFields(t, c.sha(text), ShaList(r), e);
    ShaListIff(e, r);
    var j := ReservedWhere(c, text, r);
  }

  lemma AppendSteps(c: Codec, text: string, t: Terminal) returns (r: Entry)
    requires AppendSpec(c, text, t).Ok?
    ensures ParseSpec(c, text).Ok? && r in ParseSpec(c, text).value.iterations && IdOf(r) == t.iterationId
    ensures SafePath(t.evidenceFile) && AppendSpec(c, text, t).value == ClosingOf(t, c.sha(text), ShaList(r))
  {
    r := FindIteration(ParseSpec(c, text).value.iterations, t.iterationId).value;
  }

  function ClosingOf(t: Terminal, prior: string, shas: seq<Value>): Entry
    requires SafePath(t.evidenceFile)
  {
    ResultEntry(t.iterationId, t.recordedAt, t.status, prior, t.evidenceSha256, PosixForm(t.evidenceFile), t.toolCommit, shas)
  }

  lemma ClosingFields(t: Terminal, prior: string, shas: seq<Value>, e: Entry)
    requires SafePath(t.evidenceFile) && e == ClosingOf(t, prior, shas)
    ensures ClosesWith(e, t, prior) && Field(e, "board_sha256s") == Arr(shas)
  {
    PosixFormKeepsParts(t.evidenceFile);
  }

  lemma ReservedWhere(c: Codec, text: string, r: Entry) returns (j: nat)
    requires ParseSpec(c, text).Ok? && r in ParseSpec(c, text).value.iterations
    ensures j < |Lines(text)| && Reserves(c, Lines(text)[j], r)
  {
    ReadableIff(c, text);
    assert ReservedAbove(c, Lines(text), |Lines(text)|, r);
    j :| j < |Lines(text)| && Reserves(c, Lines(text)[j], r);
  }

  // ---------------------------------------------------------------------------------------------
  // Reserving one
  // ---------------------------------------------------------------------------------------------

  /** What an entry says of one board drawn. */
  predicate RecordsBoard(v: Value, b: Candidate, disk: Disk) {
    && v.Obj? && disk.firmwareSha(b).Some?
    && Says(v.fields, "board_id", b.boardId) && Says(v.fields, "sha256", b.sha256) && Says(v.fields, "source_id", b.sourceId)
    && Says(v.fields, "revision", b.revision) && Says(v.fields, "relative_path", b.relativePath)
    && Says(v.fields, "input_format", b.inputFormat) && Says(v.fields, "cohort", b.cohort) && Says(v.fields, "source_url", b.sourceUrl)
    && Says(v.fields, "license", b.license) && Says(v.fields, "firmware_relative_path", b.firmwareRelativePath)
    && Says(v.fields, "firmware_expect", b.firmwareExpect) && Says(v.fields, "firmware_sha256", disk.firmwareSha(b).value)
    && ListsTexts(v.fields, "axes", b.axes) && ListsTexts(v.fields, "bundle_members", b.bundleMembers)
  }

  predicate ListsTexts(e: Entry, f: string, texts: seq<string>) {
    f in e && e[f].Arr? && |e[f].items| == |texts| && forall i :: 0 <= i < |texts| ==> e[f].items[i] == Str(texts[i])
  }

  /** The entry's own facts: what it is, and how many boards of which pool there were. */
  predicate Counts(e: Entry, count: nat, poolSha: string) {
    && e.Keys == {"schema_version", "record_type", "iteration_id", "planned_at", "seed", "entropy", "prior_history_sha256", "status",
                  "selector_version", "candidate_count", "candidate_pool_sha256", "manifest_sha256", "tool_commit", "boards"}
    && e["schema_version"] == Int(2) && e["record_type"] == Str("reservation") && e["status"] == Str("planned")
    && e["selector_version"] == Int(1) && e["candidate_count"] == Int(count) && e["candidate_pool_sha256"] == Str(poolSha)
  }

  /** The plan, bound to the ledger before it. */
  predicate Plans(e: Entry, p: Plan, seed: string, prior: string) {
    && Says(e, "iteration_id", p.iterationId) && Says(e, "planned_at", p.plannedAt) && Says(e, "seed", seed)
    && Says(e, "entropy", p.entropy) && Says(e, "prior_history_sha256", prior) && Says(e, "manifest_sha256", p.manifestSha256)
    && Says(e, "tool_commit", p.toolCommit)
  }

  function SeedOf(c: Codec, text: string, p: Plan): string {
    c.sha("unseen-five-selector-v1" + "\0" + p.iterationId + "\0" + c.sha(text) + "\0" + p.entropy)
  }

  /** The entry is the plan, the number of boards there were, and the boards drawn, in order. */
  predicate ReservingEntry(c: Codec, text: string, cs: seq<Candidate>, disk: Disk, p: Plan, drawn: seq<Candidate>, e: Entry) {
    && disk.pool(cs).Some?
    && Plans(e, p, SeedOf(c, text, p), c.sha(text)) && Counts(e, |set b | b in cs :: b.boardId|, c.sha(disk.pool(cs).value))
    && e["boards"].Arr? && RecordsBoards(e["boards"].items, drawn, disk)
  }

  predicate RecordsBoards(vs: seq<Value>, bs: seq<Candidate>, disk: Disk) {
    |vs| == |bs| == 5 && forall i :: 0 <= i < 5 ==> RecordsBoard(vs[i], bs[i], disk)
  }

  lemma BoardTexts(b: Candidate, sha: string, e: Entry)
    requires e == BoardRecord(b, sha)
    ensures Says(e, "board_id", b.boardId) && Says(e, "sha256", b.sha256) && Says(e, "source_id", b.sourceId)
    ensures Says(e, "revision", b.revision) && Says(e, "relative_path", b.relativePath) && Says(e, "input_format", b.inputFormat)
    ensures Says(e, "cohort", b.cohort) && Says(e, "source_url", b.sourceUrl) && Says(e, "license", b.license)
    ensures Says(e, "firmware_relative_path", b.firmwareRelativePath) && Says(e, "firmware_expect", b.firmwareExpect)
    ensures Says(e, "firmware_sha256", sha)
  {
  }

  lemma BoardLists(b: Candidate, sha: string, e: Entry)
    requires e == BoardRecord(b, sha)
    ensures ListsTexts(e, "axes", b.axes) && ListsTexts(e, "bundle_members", b.bundleMembers)
  {
    assert e["axes"] == StrList(b.axes) && e["bundle_members"] == StrList(b.bundleMembers);
  }

  lemma BoardRecorded(b: Candidate, disk: Disk, e: Entry)
    requires disk.firmwareSha(b).Some? && e == BoardRecord(b, disk.firmwareSha(b).value)
    ensures RecordsBoard(Obj(e), b, disk)
  {
    BoardTexts(b, disk.firmwareSha(b).value, e);
    BoardLists(b, disk.firmwareSha(b).value, e);
  }

  lemma BoardsRecorded(bs: seq<Candidate>, disk: Disk, vs: seq<Value>)
    requires BoardRecords(bs, disk) == Some(vs) && |bs| == 5
    ensures RecordsBoards(vs, bs, disk)
  {
    forall i | 0 <= i < 5
      ensures RecordsBoard(vs[i], bs[i], disk)
    {
      BoardRecorded(bs[i], disk, BoardRecord(bs[i], disk.firmwareSha(bs[i]).value));
    }
  }

  lemma EntryCounts(p: Plan, seed: string, prior: string, count: nat, poolSha: string, boards: seq<Value>, e: Entry)
    requires e == ReservationEntry(p, seed, prior, count, poolSha, boards)
    ensures Counts(e, count, poolSha) && e["boards"] == Arr(boards)
  {
  }

  lemma EntryPlans(p: Plan, seed: string, prior: string, count: nat, poolSha: string, boards: seq<Value>, e: Entry)
    requires e == ReservationEntry(p, seed, prior, count, poolSha, boards)
    ensures Plans(e, p, seed, prior)
  {
  }

  lemma EntryRecorded(c: Codec, text: string, cs: seq<Candidate>, disk: Disk, p: Plan, drawn: seq<Candidate>, boards: seq<Value>,
                      e: Entry)
    requires Consistent(cs) && disk.pool(cs).Some? && RecordsBoards(boards, drawn, disk)
    requires e == ReservationEntry(p, DeriveSeed(c, p.iterationId, c.sha(text), p.entropy), c.sha(text), |Index(cs)|,
                                   c.sha(disk.pool(cs).value), boards)
    ensures ReservingEntry(c, text, cs, disk, p, drawn, e)
  {
    assert Index(cs).Keys == set b | b in cs :: b.boardId;
    assert DeriveSeed(c, p.iterationId, c.sha(text), p.entropy) == SeedOf(c, text, p);
    EntryCounts(p, SeedOf(c, text, p), c.sha(text), |Index(cs)|, c.sha(disk.pool(cs).value), boards, e);
    EntryPlans(p, SeedOf(c, text, p), c.sha(text), |Index(cs)|, c.sha(disk.pool(cs).value), boards, e);
  }

  /** The boards and contents the ledger's reservations have used up. */
  ghost function UsedIds(c: Codec, text: string): set<string>
    requires ParseSpec(c, text).Ok?
  {
    ParseSpec(c, text).value.seenBoardIds
  }

  ghost function UsedShas(c: Codec, text: string): set<string>
    requires ParseSpec(c, text).Ok?
  {
    ParseSpec(c, text).value.seenSha256
  }

  lemma UsedAre(c: Codec, text: string)
    requires ParseSpec(c, text).Ok?
    ensures forall x :: x in UsedIds(c, text) <==>
              exists j, e :: 0 <= j < |Lines(text)| && Reserves(c, Lines(text)[j], e) && x in BoardIds(e)
    ensures forall x :: x in UsedShas(c, text) <==>
              exists j, e :: 0 <= j < |Lines(text)| && Reserves(c, Lines(text)[j], e) && x in BoardShas(e)
  {
    var h, ls := ParseSpec(c, text).value, Lines(text);
    ReadableIff(c, text);
    forall e
      ensures e in h.iterations <==> exists j :: 0 <= j < |ls| && Reserves(c, ls[j], e)
    {
      assert ReservedAbove(c, ls, |ls|, e) <==> exists j :: 0 <= j < |ls| && Reserves(c, ls[j], e);
    }
  }

  /** Five boards drawn, or not, from those the ledger has not used. */
  ghost predicate Draws(c: Codec, text: string, cs: seq<Candidate>, p: Plan, r: Result<seq<Candidate>, SelectionError>)
    requires ParseSpec(c, text).Ok? && Consistent(cs)
  {
    var rank := RankFor(c, SeedOf(c, text, p));
    && r == SelectSpec(Index(cs), UsedIds(c, text), UsedShas(c, text), 5, rank)
    && forall id :: rank(id) == c.rank(SeedOf(c, text, p), id)
  }

  /** What comes of the boards drawn: the refusal, or the entry that records them. */
  predicate Answers(c: Codec, text: string, cs: seq<Candidate>, disk: Disk, p: Plan, drawn: Result<seq<Candidate>, SelectionError>,
                    r: Result<Entry, LedgerError>)
  {
    if drawn.Err? then r == Err(OfSelection(drawn.error))
    else if disk.pool(cs).None? || exists b :: b in drawn.value && disk.firmwareSha(b).None?
    then r == Err(OfSelection(FirmwareUnreadable))
    else r.Ok? && ReservingEntry(c, text, cs, disk, p, drawn.value, r.value)
  }

  /**
    A reservation is made exactly with a sound plan, on candidates that are still as discovered, on a
    ledger that reads back and has no such iteration, when five unused boards can be drawn and read; then
    the entry records the plan, the ledger's hash and those boards.
   */
  lemma ReserveOutcome(c: Codec, text: string, cs: seq<Candidate>, disk: Disk, p: Plan)
    ensures var r := ReserveSpec(c, text, cs, disk, p);
            if p.iterationId == "" then r == Err(OfHistory(EmptyIterationId))
            else if !IsDigest(p.entropy, 64) then r == Err(OfSelection(BadEntropy))
            else if !IsDigest(p.manifestSha256, 64) then r == Err(OfSelection(BadManifestDigest))
            else if !IsDigest(p.toolCommit, 40) then r == Err(OfSelection(BadToolCommit))
            else if exists b :: b in cs && !disk.intact(b) then r == Err(OfSelection(CandidateChanged))
            else if !AllFit(c, Lines(text), |Lines(text)|) then r.Err? && r.error.OfHistory?
            else if ReservedIn(c, text, p.iterationId) then r == Err(OfHistory(DuplicateIteration))
            else if !Consistent(cs) then r == Err(OfSelection(ConflictingCandidates))
            else ParseSpec(c, text).Ok? && exists drawn :: Draws(c, text, cs, p, drawn) && Answers(c, text, cs, disk, p, drawn, r)
  {
    PlanIff(p);
    ReadsIff(c, text);
    if PlanProblem(p).None? && ParseSpec(c, text).Ok? {
      ReservedInIff(c, text, p.iterationId);
      if !ReservedIn(c, text, p.iterationId) && Consistent(cs) && forall b :: b in cs ==> disk.intact(b) {
        var drawn := ReservedFrom(c, text, cs, disk, p);
      }
    }
  }

  lemma PlanIff(p: Plan)
    ensures PlanProblem(p) ==
            if p.iterationId == "" then Some(OfHistory(EmptyIterationId))
            else if !IsDigest(p.entropy, 64) then Some(OfSelection(BadEntropy))
            else if !IsDigest(p.manifestSha256, 64) then Some(OfSelection(BadManifestDigest))
            else if !IsDigest(p.toolCommit, 40) then Some(OfSelection(BadToolCommit))
            else None
  {
    IsDigestIff(p.entropy, 64);
    IsDigestIff(p.manifestSha256, 64);
    IsDigestIff(p.toolCommit, 40);
  }

  lemma {:induction false} RecordsReadable(bs: seq<Candidate>, disk: Disk)
    ensures BoardRecords(bs, disk).Some? <==> forall b :: b in bs ==> disk.firmwareSha(b).Some?
  {
    if bs != [] {
      RecordsReadable(bs[1..], disk);
      assert bs == [bs[0]] + bs[1..];
    }
  }

  /** The entry of boards drawn. */
  ghost function Composed(c: Codec, text: string, cs: seq<Candidate>, disk: Disk, p: Plan, drawn: Result<seq<Candidate>, SelectionError>)
    : Result<Entry, LedgerError>
    requires Consistent(cs)
  {
    match drawn
    case Err(s) => Err(OfSelection(s))
    case Ok(bs) =>
      match (disk.pool(cs), BoardRecords(bs, disk))
      case (Some(pool), Some(boards)) =>
        Ok(ReservationEntry(p, DeriveSeed(c, p.iterationId, c.sha(text), p.entropy), c.sha(text), |Index(cs)|, c.sha(pool), boards))
      case _ => Err(OfSelection(FirmwareUnreadable))
  }

  lemma ComposedAnswers(c: Codec, text: string, cs: seq<Candidate>, disk: Disk, p: Plan, drawn: Result<seq<Candidate>, SelectionError>,
                        r: Result<Entry, LedgerError>)
    requires Consistent(cs) && (drawn.Ok? ==> |drawn.value| == 5) && r == Composed(c, text, cs, disk, p, drawn)
    ensures Answers(c, text, cs, disk, p, drawn, r)
  {
    if drawn.Ok? {
      RecordsReadable(drawn.value, disk);
      if r.Ok? {
        var boards := BoardRecords(drawn.value, disk).value;
        BoardsRecorded(drawn.value, disk, boards);
        EntryRecorded(c, text, cs, disk, p, drawn.value, boards, r.value);
      }
    }
  }

  lemma DrawnFive(cs: seq<Candidate>, seenIds: set<string>, seenShas: set<string>, rank: Rank)
    requires Consistent(cs)
    ensures var drawn := SelectSpec(Index(cs), seenIds, seenShas, 5, rank); drawn.Ok? ==> |drawn.value| == 5
  {
    IndexIsIndex(cs);
    SelectionIsUnseen(cs, Index(cs), seenIds, seenShas, 5, rank);
  }

  lemma ReserveOnSteps(c: Codec, text: string, h: History, cs: seq<Candidate>, disk: Disk, p: Plan,
                       drawn: Result<seq<Candidate>, SelectionError>)
    requires !HasId(h.iterations, p.iterationId) && Consistent(cs)
    requires drawn == SelectSpec(Index(cs), h.seenBoardIds, h.seenSha256, 5,
                                 RankFor(c, DeriveSeed(c, p.iterationId, c.sha(text), p.entropy)))
    ensures ReserveOn(c, h, c.sha(text), cs, disk, p) == Composed(c, text, cs, disk, p, drawn)
  {
  }

  lemma ReserveSteps(c: Codec, text: string, cs: seq<Candidate>, disk: Disk, p: Plan)
    requires PlanProblem(p).None? && (forall b :: b in cs ==> disk.intact(b)) && ParseSpec(c, text).Ok?
    ensures ReserveSpec(c, text, cs, disk, p) == ReserveOn(c, ParseSpec(c, text).value, c.sha(text), cs, disk, p)
  {
  }

  lemma ReservedFrom(c: Codec, text: string, cs: seq<Candidate>, disk: Disk, p: Plan)
    returns (drawn: Result<seq<Candidate>, SelectionError>)
    requires PlanProblem(p).None? && (forall b :: b in cs ==> disk.intact(b)) && ParseSpec(c, text).Ok? && Consistent(cs)
    requires !HasId(ParseSpec(c, text).value.iterations, p.iterationId)
    ensures Draws(c, text, cs, p, drawn) && Answers(c, text, cs, disk, p, drawn, ReserveSpec(c, text, cs, disk, p))
  {
    assert DeriveSeed(c, p.iterationId, c.sha(text), p.entropy) == SeedOf(c, text, p);
    var rank := RankFor(c, SeedOf(c, text, p));
    drawn := SelectSpec(Index(cs), UsedIds(c, text), UsedShas(c, text), 5, rank);
    DrawnFive(cs, UsedIds(c, text), UsedShas(c, text), rank);
    ReserveSteps(c, text, cs, disk, p);
    ReserveOnSteps(c, text, ParseSpec(c, text).value, cs, disk, p, drawn);
    ComposedAnswers(c, text, cs, disk, p, drawn, ReserveSpec(c, text, cs, disk, p));
  }

  // ---------------------------------------------------------------------------------------------
  // What a run records
  // ---------------------------------------------------------------------------------------------

  /** A browser part that says only what went wrong. */
  predicate SaysOnly(v: Value, words: string) {
    v.Obj? && v.fields.Keys == {"artifact", "results"} && Says(v.fields, "artifact", words) && v.fields["results"] == Arr([])
  }

  /** Everything went through: staged, read, run to exit code 0, unchanged since, and graded without a failed value. */
  predicate WentThrough(run: GateRun) {
    && run.staging.Done? && run.digests.Done? && run.runner.Done? && run.runner.value == 0
    && run.digestsAfter == Some(run.digests.value)
    && run.artifact.Readable? && run.artifact.graded.Valid? && !run.artifact.graded.valueFailed
  }

  /** What is recorded of a run that got as far as its reservation. */
  lemma RecordedOutcome(run: GateRun)
    requires VerdictOf(run).Records?
    ensures var v := VerdictOf(run);
            && (v.completed <==> WentThrough(run))
            && v.staged == (if run.staging.Done? && run.digests.Done? then Some(run.digests.value) else None)
            && (!run.staging.Done? ==> SaysOnly(v.browser, "inputs-not-staged"))
            && (run.staging.Done? && !run.digests.Done? ==> SaysOnly(v.browser, "staged-inputs-unreadable"))
            && (run.staging.Done? && run.digests.Done? ==>
                  && (run.runner.OsFailure? ==> SaysOnly(v.browser, "runner-did-not-start"))
                  && (run.runner.Done? ==>
                        && !run.artifact.NotUtf8?
                        && (run.artifact.Missing? ==> SaysOnly(v.browser, "missing-or-invalid"))
                        && (run.artifact.Readable? ==>
                              if run.digestsAfter != Some(run.digests.value) || run.artifact.graded.Rejected?
                              then v.browser == run.artifact.summary else v.browser == run.artifact.graded.browser)))
  {
  }

  /** Redacted text, or the text itself where redacting leaves it alone. */
  predicate SaysRedacted(g: EvidenceCodec, e: Entry, f: string, words: string) {
    Says(e, f, g.redact(words))
  }

  /** The evidence document of a run, apart from its boards: its plan, its pool and its outcome, every text redacted. */
  predicate DocumentSays(g: EvidenceCodec, run: GateRun, v: Value)
    requires VerdictOf(run).Records?
  {
    && v.Obj?
    && v.fields.Keys == {"schema_version", "gate", "iteration_id", "planned_at", "tool_commit", "manifest_sha256",
                         "candidate_pool_sha256", "boards", "status", "browser"}
    && v.fields["schema_version"] == Int(1) && SaysRedacted(g, v.fields, "gate", "external-five")
    && SaysRedacted(g, v.fields, "iteration_id", run.plan.iterationId) && SaysRedacted(g, v.fields, "planned_at", run.plan.plannedAt)
    && SaysRedacted(g, v.fields, "tool_commit", run.plan.toolCommit)
    && SaysRedacted(g, v.fields, "manifest_sha256", run.plan.manifestSha256)
    && SaysRedacted(g, v.fields, "candidate_pool_sha256", run.poolSha)
    && SaysRedacted(g, v.fields, "status", if VerdictOf(run).completed then "completed" else "failed")
    && v.fields["browser"] == Redact(g, VerdictOf(run).browser)
  }

  /** And its boards, as selected. */
  predicate DocumentLists(g: EvidenceCodec, run: GateRun, selected: seq<Candidate>, v: Value)
    requires VerdictOf(run).Records?
  {
    && v.Arr? && |v.items| == |selected|
    && forall i :: 0 <= i < |selected| ==> EvidencedBoard(g, run, selected[i], i, v.items[i])
  }

  /** The identity of one board of the evidence. */
  predicate NamesBoard(g: EvidenceCodec, b: Candidate, e: Entry) {
    && SaysRedacted(g, e, "board_id", b.boardId) && SaysRedacted(g, e, "sha256", b.sha256)
    && SaysRedacted(g, e, "source_id", b.sourceId) && SaysRedacted(g, e, "revision", b.revision)
    && SaysRedacted(g, e, "relative_path", b.relativePath) && SaysRedacted(g, e, "input_format", b.inputFormat)
  }

  /** And the digests of its firmware and of what was staged of it, where there are any. */
  predicate EvidencedBoard(g: EvidenceCodec, run: GateRun, b: Candidate, i: nat, v: Value)
    requires VerdictOf(run).Records?
  {
    && v.Obj? && NamesBoard(g, b, v.fields) && "firmware_sha256" in v.fields && "staged_sha256" in v.fields
    && v.fields["firmware_sha256"] ==
       (if run.disk.firmwareSha(b).Some? then Str(g.redact(run.disk.firmwareSha(b).value)) else Null)
    && v.fields["staged_sha256"] == StagedDigest(g, VerdictOf(run).staged, i)
  }

  function StagedDigest(g: EvidenceCodec, staged: Option<seq<string>>, i: nat): Value {
    if staged.Some? && i < |staged.value| then Str(g.redact(staged.value[i])) else Null
  }

  /** Redacting an object redacts its fields. */
  lemma RedactedObject(g: EvidenceCodec, e: Entry)
    ensures var r := Redact(g, Obj(e)); r.Obj? && r.fields.Keys == e.Keys && forall k :: k in e ==> r.fields[k] == Redact(g, e[k])
  {
  }

  lemma RedactedField(g: EvidenceCodec, e: Entry, f: string, words: string)
    requires Says(e, f, words)
    ensures Redact(g, Obj(e)).Obj? && SaysRedacted(g, Redact(g, Obj(e)).fields, f, words)
  {
  }

  predicate NamesPlainly(b: Candidate, e: Entry) {
    && Says(e, "board_id", b.boardId) && Says(e, "sha256", b.sha256) && Says(e, "source_id", b.sourceId)
    && Says(e, "revision", b.revision) && Says(e, "relative_path", b.relativePath) && Says(e, "input_format", b.inputFormat)
  }

  /** The evidence of a board is its record, but for two digests. */
  lemma EvidenceExtends(b: Candidate, disk: Disk, staged: Value, e: Entry) returns (r: Entry)
    requires Obj(e) == EvidenceBoard(b, disk, staged)
    ensures NamesPlainly(b, r) && forall k :: k in r && k != "firmware_sha256" && k != "staged_sha256" ==> k in e && e[k] == r[k]
  {
    r := BoardRecord(b, "");
    BoardTexts(b, "", r);
  }

  lemma IdentityFields(b: Candidate, disk: Disk, staged: Value, e: Entry)
    requires Obj(e) == EvidenceBoard(b, disk, staged)
    ensures NamesPlainly(b, e)
  {
    var r := EvidenceExtends(b, disk, staged, e);
    SameNames(b, r, e);
  }

  lemma SameNames(b: Candidate, r: Entry, e: Entry)
    requires NamesPlainly(b, r) && forall k :: k in r && k != "firmware_sha256" && k != "staged_sha256" ==> k in e && e[k] == r[k]
    ensures NamesPlainly(b, e)
  {
  }

  lemma DigestFields(b: Candidate, disk: Disk, staged: Value, e: Entry)
    requires Obj(e) == EvidenceBoard(b, disk, staged)
    ensures "staged_sha256" in e && e["staged_sha256"] == staged && "firmware_sha256" in e
    ensures e["firmware_sha256"] == if disk.firmwareSha(b).Some? then Str(disk.firmwareSha(b).value) else Null
  {
  }

  lemma BoardNamed(g: EvidenceCodec, b: Candidate, disk: Disk, staged: Value, e: Entry)
    requires Obj(e) == EvidenceBoard(b, disk, staged)
    ensures Redact(g, Obj(e)).Obj? && NamesBoard(g, b, Redact(g, Obj(e)).fields)
  {
    IdentityFields(b, disk, staged, e);
    RedactedField(g, e, "board_id", b.boardId);
    RedactedField(g, e, "sha256", b.sha256);
    RedactedField(g, e, "source_id", b.sourceId);
    RedactedField(g, e, "revision", b.revision);
    RedactedField(g, e, "relative_path", b.relativePath);
    RedactedField(g, e, "input_format", b.inputFormat);
  }

  lemma BoardEvidenced(g: EvidenceCodec, run: GateRun, b: Candidate, i: nat, e: Entry)
    requires VerdictOf(run).Records? && Obj(e) == EvidenceBoard(b, run.disk, StagedSha(VerdictOf(run).staged, i))
    ensures EvidencedBoard(g, run, b, i, Redact(g, Obj(e)))
  {
    BoardNamed(g, b, run.disk, StagedSha(VerdictOf(run).staged, i), e);
    DigestFields(b, run.disk, StagedSha(VerdictOf(run).staged, i), e);
    RedactedObject(g, e);
  }

  lemma BoardsEvidenced(g: EvidenceCodec, run: GateRun, selected: seq<Candidate>)
    requires VerdictOf(run).Records?
    ensures DocumentLists(g, run, selected, Redact(g, Arr(EvidenceBoards(selected, run.disk, VerdictOf(run).staged))))
  {
    forall i | 0 <= i < |selected|
      ensures EvidencedBoard(g, run, selected[i], i,
                             Redact(g, EvidenceBoards(selected, run.disk, VerdictOf(run).staged)[i]))
    {
      BoardEvidenced(g, run, selected[i], i, EvidenceBoard(selected[i], run.disk, StagedSha(VerdictOf(run).staged, i)).fields);
    }
  }

  /** The document before it is redacted. */
  lemma PlainFields(run: GateRun, boards: seq<Value>, completed: bool, browser: Value, e: Entry)
    requires Obj(e) == EvidenceOf(run, boards, completed, browser)
    ensures e.Keys == {"schema_version", "gate", "iteration_id", "planned_at", "tool_commit", "manifest_sha256",
                       "candidate_pool_sha256", "boards", "status", "browser"}
    ensures e["schema_version"] == Int(1) && Says(e, "gate", "external-five") && Says(e, "iteration_id", run.plan.iterationId)
    ensures Says(e, "planned_at", run.plan.plannedAt) && Says(e, "tool_commit", run.plan.toolCommit)
    ensures Says(e, "manifest_sha256", run.plan.manifestSha256) && Says(e, "candidate_pool_sha256", run.poolSha)
    ensures Says(e, "status", if completed then "completed" else "failed") && e["browser"] == browser && e["boards"] == Arr(boards)
  {
  }

  lemma DocumentFields(g: EvidenceCodec, run: GateRun, boards: seq<Value>, e: Entry, v: Value)
    requires VerdictOf(run).Records? && v == Redact(g, Obj(e))
    requires Obj(e) == EvidenceOf(run, boards, VerdictOf(run).completed, VerdictOf(run).browser)
    ensures DocumentSays(g, run, v) && v.fields["boards"] == Redact(g, Arr(boards))
  {
    PlainFields(run, boards, VerdictOf(run).completed, VerdictOf(run).browser, e);
    RedactedObject(g, e);
    RedactedField(g, e, "gate", "external-five");
    RedactedField(g, e, "iteration_id", run.plan.iterationId);
    RedactedField(g, e, "planned_at", run.plan.plannedAt);
    RedactedField(g, e, "tool_commit", run.plan.toolCommit);
    RedactedField(g, e, "manifest_sha256", run.plan.manifestSha256);
    RedactedField(g, e, "candidate_pool_sha256", run.poolSha);
    RedactedField(g, e, "status", if VerdictOf(run).completed then "completed" else "failed");
  }

  /** A recorded run leaves its document, encoded, in its own file. */
  lemma EvidenceIsWritten(c: Codec, g: EvidenceCodec, store: Store, run: GateRun) returns (v: Value)
    requires GoodCodec(c) && WholeLines(store.ledger) && GateProofs.Reserves(c, store, run) && GateProofs.ReadsBack(run)
    requires GateProofs.ReachesRecord(c, g, store, run)
    ensures DocumentSays(g, run, v)
    ensures DocumentLists(g, run, SelectedOf(run.eligible, BoardsOf(GateProofs.EntryFor(c, store, run))), v.fields["boards"])
    ensures var key, after := FileKeyOf(run.plan.iterationId + ".json"), GateSpec(c, g, store, run).0;
            key in after.evidence && after.evidence[key] == g.encode(v)
  {
    v := GateProofs.EvidenceOfRun(c, g, store, run);
    FileIsWritten(c, g, store, run);
    EvidenceIs(g, run, GateProofs.EntryFor(c, store, run), v);
  }

  lemma FileIsWritten(c: Codec, g: EvidenceCodec, store: Store, run: GateRun)
    requires GoodCodec(c) && WholeLines(store.ledger) && GateProofs.Reserves(c, store, run) && GateProofs.ReadsBack(run)
    requires GateProofs.ReachesRecord(c, g, store, run)
    ensures var key, after := FileKeyOf(run.plan.iterationId + ".json"), GateSpec(c, g, store, run).0;
            key in after.evidence && after.evidence[key] == g.encode(GateProofs.EvidenceOfRun(c, g, store, run))
  {
    var r := GateProofs.RecordCloses(c, g, store, run);
  }

  lemma EvidenceIs(g: EvidenceCodec, run: GateRun, entry: Entry, v: Value)
    requires VerdictOf(run).Records?
    requires v == EvidenceFor(g, run, entry, VerdictOf(run).staged, VerdictOf(run).completed, VerdictOf(run).browser)
    ensures DocumentSays(g, run, v) && DocumentLists(g, run, SelectedOf(run.eligible, BoardsOf(entry)), v.fields["boards"])
  {
    var selected, d := SelectedOf(run.eligible, BoardsOf(entry)), VerdictOf(run);
    var boards := EvidenceBoards(selected, run.disk, d.staged);
    BoardsEvidenced(g, run, selected);
    DocumentFields(g, run, boards, EvidenceOf(run, boards, d.completed, d.browser).fields, v);
  }
}
