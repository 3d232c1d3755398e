/** Every reservation the gate makes is closed, and the audit finds its evidence. */
module GateProofs {
  import opened Wrappers
  import opened Json
  import opened Ledger
  import opened LedgerProofs
  import opened Gate

  /** The reservation a run makes on this store. */
  ghost predicate Reserves(c: Codec, store: Store, run: GateRun) {
    ReserveSpec(c, store.ledger, run.eligible, run.disk, run.plan).Ok?
  }

  ghost function EntryFor(c: Codec, store: Store, run: GateRun): Entry
    requires Reserves(c, store, run)
  {
    ReserveSpec(c, store.ledger, run.eligible, run.disk, run.plan).value
  }

  ghost function Reserved(c: Codec, store: Store, run: GateRun): Store
    requires Reserves(c, store, run)
  {
    Store(store.ledger + LineOf(c, EntryFor(c, store, run)), store.evidence)
  }

  /** Dated, and drawing only boards whose records read back. */
  predicate ReadsBack(run: GateRun) {
    run.plan.plannedAt != "" && forall b :: b in run.eligible ==> WellFormed(b)
  }

  /** The evidence the run's verdict makes it write. */
  ghost function EvidenceOfRun(c: Codec, g: EvidenceCodec, store: Store, run: GateRun): Value
    requires Reserves(c, store, run) && VerdictOf(run).Records?
  {
    var d := VerdictOf(run);
    EvidenceFor(g, run, EntryFor(c, store, run), d.staged, d.completed, d.browser)
  }

  /** The evidence passes the path guard and finds its file free, or already the same. */
  predicate Writable(g: EvidenceCodec, files: map<FileKey, string>, key: FileKey, encoded: string) {
    !g.leaks(encoded) && (key in files ==> files[key] == encoded)
  }

  /** The run reaches its record: no exception it does not handle, and a writable evidence file. */
  ghost predicate ReachesRecord(c: Codec, g: EvidenceCodec, store: Store, run: GateRun)
    requires Reserves(c, store, run)
  {
    && VerdictOf(run).Records?
    && Writable(g, store.evidence, FileKeyOf(FileOf(run.plan.iterationId)), g.encode(EvidenceOfRun(c, g, store, run)))
  }

  // ---------------------------------------------------------------------------------------------
  // One terminal record
  // ---------------------------------------------------------------------------------------------

  lemma {:induction false} JoinLast(s: string)
    requires s != "" && '/' !in s && s != "."
    ensures Parts(s) == [s]
  {
    SlashAtEnd(s);
    assert Split(s) == [s];
    assert Proper([s]) == [s] + Proper([s][1..]);
  }

  /** The recorded name is one safe component. */
  lemma {:induction false} NameIsSafe(id: string)
    ensures var name := NameOf(FileOf(id)); SafePath(name) && Parts(name) == [name]
  {
    var s := FileOf(id);
    var name := LastPieceOf(id);
    JoinLast(name);
  }

  /** The last component of an id's file: what follows the id's last slash, with the suffix. */
  lemma {:induction false} LastPieceOf(id: string) returns (name: string)
    ensures name == NameOf(FileOf(id)) && name != "" && name != "." && name != ".." && '/' !in name
    decreases |id|
  {
    var s := FileOf(id);
    var i := SlashAt(s);
    var ps := Parts(s);
    if i == |s| {
      name := s;
      assert s[|s| - 1] == 'n';
      assert s[..i] == s;
      JoinLast(s);
    } else {
      assert i < |id|;
      var rest := id[i + 1..];
      assert s[i + 1..] == FileOf(rest);
      name := LastPieceOf(rest);
      var qs := Parts(FileOf(rest));
      assert Split(s) == [s[..i]] + Split(FileOf(rest));
      assert Split(s)[1..] == Split(FileOf(rest));
      assert ps == (if s[..i] != "" && s[..i] != "." then [s[..i]] else []) + qs;
      assert qs != [];
      assert ps[|ps| - 1] == qs[|qs| - 1];
    }
  }

  /** Closing a reservation that is there and still open cannot be refused; what the record then says. */
  lemma OpenReservationCloses(c: Codec, text: string, h: History, e: Entry, t: Terminal) returns (r: Entry)
    requires GoodCodec(c) && WholeLines(text) && ParseSpec(c, text) == Ok(h)
    requires e in h.iterations && IdOf(e) == t.iterationId && !HasId(h.results, t.iterationId)
    requires t.status == "completed" || t.status == "failed"
    requires Hex(t.evidenceSha256, 64) && Hex(t.toolCommit, 40)
    requires SafePath(t.evidenceFile) && Parts(t.evidenceFile) == [t.evidenceFile]
    ensures AppendSpec(c, text, t) == Ok(r) && WholeLines(text + LineOf(c, r))
    ensures ParseSpec(c, text + LineOf(c, r)) == Ok(History(h.iterations, h.seenBoardIds, h.seenSha256, h.results + [r]))
    ensures IdOf(r) == t.iterationId && Text(r, "status") == t.status && Text(r, "evidence_sha256") == t.evidenceSha256
    ensures Text(r, "tool_commit") == t.toolCommit && Text(r, "evidence_file") == t.evidenceFile
  {
    var found := FindIteration(h.iterations, t.iterationId);
    assert found.Some?;
    ResultFields(t, c.sha(text), ShaList(found.value));
    assert PosixForm(t.evidenceFile) == t.evidenceFile;
    r := AppendSpec(c, text, t).value;
    AppendKeepsLedger(c, text, t);
  }

  /** The reservation is in the ledger after it, and no result for it is. */
  lemma AfterReserving(c: Codec, store: Store, run: GateRun)
    requires GoodCodec(c) && WholeLines(store.ledger) && Reserves(c, store, run) && ReadsBack(run)
    ensures var h, e := ParseSpec(c, store.ledger), EntryFor(c, store, run);
            && h.Ok? && WholeLines(Reserved(c, store, run).ledger)
            && ParseSpec(c, Reserved(c, store, run).ledger) == Ok(AddIteration(State(h.value, store.ledger), e, "").history)
            && IdOf(e) == run.plan.iterationId
            && !HasId(h.value.iterations, run.plan.iterationId) && !HasId(h.value.results, run.plan.iterationId)
            && Hex(run.plan.toolCommit, 40)
  {
    var selected := ReserveKeepsLedgerIff(c, store.ledger, run.eligible, run.disk, run.plan);
    ReadableLedgerIsSound(c, store.ledger);
    var h := ParseSpec(c, store.ledger).value;
    forall r | r in h.results
      ensures IdOf(r) != run.plan.iterationId
    {
      var i :| 0 <= i < |h.results| && h.results[i] == r;
      assert HasId(h.iterations, IdOf(h.results[i]));
    }
  }

  /** What one closed run adds: its reservation, its result, its evidence file. */
  ghost predicate ClosedWith(c: Codec, before: Store, after: Store, e: Entry, r: Entry, key: FileKey, encoded: string) {
    && WholeLines(after.ledger) && ParseSpec(c, before.ledger).Ok? && ParseSpec(c, after.ledger).Ok?
    && ParseSpec(c, after.ledger).value.iterations == ParseSpec(c, before.ledger).value.iterations + [e]
    && ParseSpec(c, after.ledger).value.results == ParseSpec(c, before.ledger).value.results + [r]
    && after.evidence == before.evidence[key := encoded]
    && (key in before.evidence ==> before.evidence[key] == encoded)
    && Text(r, "evidence_sha256") == c.sha(encoded)
  }

  /** Recording evidence that can be written closes an open reservation. */
  lemma RecordingCloses(c: Codec, g: EvidenceCodec, store: Store, h: History, e: Entry, run: GateRun, completed: bool, v: Value)
    returns (r: Entry)
    requires GoodCodec(c) && WholeLines(store.ledger) && ParseSpec(c, store.ledger) == Ok(h) && Hex(run.plan.toolCommit, 40)
    requires e in h.iterations && IdOf(e) == run.plan.iterationId && !HasId(h.results, run.plan.iterationId)
    requires Writable(g, store.evidence, FileKeyOf(FileOf(run.plan.iterationId)), g.encode(v))
    ensures var key := FileKeyOf(FileOf(run.plan.iterationId));
            && RecordSpec(c, g, store, run, completed, v)
               == (Store(store.ledger + LineOf(c, r), store.evidence[key := g.encode(v)]), true)
            && (key in store.evidence ==> store.evidence[key] == g.encode(v))
    ensures WholeLines(store.ledger + LineOf(c, r))
    ensures ParseSpec(c, store.ledger + LineOf(c, r)) == Ok(History(h.iterations, h.seenBoardIds, h.seenSha256, h.results + [r]))
    ensures IdOf(r) == run.plan.iterationId && Text(r, "status") == Status(completed)
    ensures Text(r, "evidence_sha256") == c.sha(g.encode(v)) && Text(r, "tool_commit") == run.plan.toolCommit
    ensures Text(r, "evidence_file") == NameOf(FileOf(run.plan.iterationId))
  {
    var t := TerminalOf(c, run, completed, g.encode(v));
    NameIsSafe(run.plan.iterationId);
    assert Hex(c.sha(g.encode(v)), 64);
    r := OpenReservationCloses(c, store.ledger, h, e, t);
  }

  /** The store and the ending of a run that reaches its record. */
  lemma RecordCloses(c: Codec, g: EvidenceCodec, store: Store, run: GateRun) returns (r: Entry)
    requires GoodCodec(c) && WholeLines(store.ledger) && Reserves(c, store, run) && ReadsBack(run)
    requires ReachesRecord(c, g, store, run)
    ensures var after, v := GateSpec(c, g, store, run), EvidenceOfRun(c, g, store, run);
            && ClosedWith(c, store, after.0, EntryFor(c, store, run), r, FileKeyOf(FileOf(run.plan.iterationId)), g.encode(v))
            && after.1 == if VerdictOf(run).completed then Returned(v) else Failed
    ensures IdOf(r) == IdOf(EntryFor(c, store, run)) == run.plan.iterationId
    ensures Text(r, "status") == Status(VerdictOf(run).completed) && Text(r, "tool_commit") == run.plan.toolCommit
    ensures Text(r, "evidence_file") == NameOf(FileOf(run.plan.iterationId))
  {
    AfterReserving(c, store, run);
    var e, reserved, v := EntryFor(c, store, run), Reserved(c, store, run), EvidenceOfRun(c, g, store, run);
    var h := ParseSpec(c, reserved.ledger).value;
    assert e in h.iterations;
    r := RecordingCloses(c, g, reserved, h, e, run, VerdictOf(run).completed, v);
    RunRecords(c, g, store, run);
  }

  /** A run with a verdict ends as its record does. */
  lemma RunRecords(c: Codec, g: EvidenceCodec, store: Store, run: GateRun)
    requires Reserves(c, store, run) && VerdictOf(run).Records?
    ensures var d, v := VerdictOf(run), EvidenceOfRun(c, g, store, run);
            var after := RecordSpec(c, g, Reserved(c, store, run), run, d.completed, v);
            GateSpec(c, g, store, run)
            == (after.0, if !after.1 then Escaped else if d.completed then Returned(v) else Failed)
  {
  }

  /** How many terminal results the ledger holds for an iteration. */
  function TerminalCount(rs: seq<Entry>, id: string): nat {
    if rs == [] then 0
    else (if IdOf(rs[0]) == id then 1 else 0) + TerminalCount(rs[1..], id)
  }

  lemma {:induction false} TerminalCountZero(rs: seq<Entry>, id: string)
    ensures TerminalCount(rs, id) == 0 <==> !HasId(rs, id)
  {
    if rs != [] {
      TerminalCountZero(rs[1..], id);
      assert rs == [rs[0]] + rs[1..];
    }
  }

  lemma {:induction false} TerminalCountAppend(rs: seq<Entry>, r: Entry, id: string)
    ensures TerminalCount(rs + [r], id) == TerminalCount(rs, id) + if IdOf(r) == id then 1 else 0
  {
    if rs == [] {
      assert [r][1..] == [];
    } else {
      assert (rs + [r])[1..] == rs[1..] + [r];
      TerminalCountAppend(rs[1..], r, id);
    }
  }

  /** A run that does not reach its record leaves its reservation open, whatever it wrote besides. */
  lemma UnrecordedRunEscapes(c: Codec, g: EvidenceCodec, store: Store, run: GateRun)
    requires Reserves(c, store, run) && !ReachesRecord(c, g, store, run)
    ensures GateSpec(c, g, store, run) == (Reserved(c, store, run), Escaped)
  {
    if VerdictOf(run).Records? {
      var v := EvidenceOfRun(c, g, store, run);
      assert WriteEvidence(g, store.evidence, FileKeyOf(FileOf(run.plan.iterationId)), v).None?;
      assert RecordSpec(c, g, Reserved(c, store, run), run, VerdictOf(run).completed, v) == (Reserved(c, store, run), false);
    }
  }

  /** How one run leaves the ledger for its iteration. */
  ghost predicate Closed(h: History, id: string, recorded: bool, ending: Ending) {
    && HasId(h.iterations, id)
    && TerminalCount(h.results, id) == (if recorded then 1 else 0)
    && (ending.Escaped? <==> !recorded) && !ending.Refused?
    && (recorded ==>
          h.results != [] && IdOf(h.results[|h.results| - 1]) == id
          && Text(h.results[|h.results| - 1], "status") == Status(ending.Returned?))
  }

  /**
    A reserved run leaves exactly one terminal record for its iteration if it reaches its record, and
    none otherwise; the record says `completed` exactly when the call returns, and an exception other
    than the run's own failure leaves the call exactly when there is no record.
   */
  lemma RunClosesReservationIff(c: Codec, g: EvidenceCodec, store: Store, run: GateRun)
    requires GoodCodec(c) && WholeLines(store.ledger) && Reserves(c, store, run) && ReadsBack(run)
    ensures var after := GateSpec(c, g, store, run);
            && ParseSpec(c, after.0.ledger).Ok?
            && Closed(ParseSpec(c, after.0.ledger).value, run.plan.iterationId, ReachesRecord(c, g, store, run), after.1)
  {
    AfterReserving(c, store, run);
    var h, id, e := ParseSpec(c, store.ledger).value, run.plan.iterationId, EntryFor(c, store, run);
    TerminalCountZero(h.results, id);
    if ReachesRecord(c, g, store, run) {
      var r := RecordCloses(c, g, store, run);
      TerminalCountAppend(h.results, r, id);
      EntryIsThere(h.iterations, e);
    } else {
      UnrecordedRunEscapes(c, g, store, run);
      EntryIsThere(h.iterations, e);
    }
  }

  lemma EntryIsThere(es: seq<Entry>, e: Entry)
    ensures HasId(es + [e], IdOf(e))
  {
    assert e in es + [e];
  }

  /**
    What keeps a reserved run from a record to write: a runner that raises a selection error, or an
    artifact that is not text, each only once the inputs were staged and read.
   */
  lemma EscapesIff(run: GateRun)
    ensures VerdictOf(run).Escapes? <==>
      && run.staging.Done? && run.digests.Done?
      && (run.runner.SelectionFailure? || (run.runner.Done? && run.artifact.NotUtf8?))
    ensures VerdictOf(run).Records? && VerdictOf(run).completed <==>
      && run.staging.Done? && run.digests.Done? && run.runner == Done(0)
      && run.digestsAfter == Some(run.digests.value)
      && run.artifact.Readable? && run.artifact.graded.Valid? && !run.artifact.graded.valueFailed
  {
  }
}
