/**
  One run of the external-five gate over the ledger and the evidence store, and the audit of both.
  Staging, reading, the browser run and grading enter as outcomes.
 */
module Gate {
  import opened Wrappers
  import opened Order
  import opened Json
  import opened Selection
  import opened Ledger

  /** How evidence is written, read back, redacted and checked for local paths. */
  datatype EvidenceCodec = EvidenceCodec(
    encode: Value -> string, decode: string -> Option<Value>, redact: string -> string, leaks: string -> bool)

  ghost predicate GoodEvidenceCodec(g: EvidenceCodec) {
    && (forall v :: g.decode(g.encode(v)) == Some(v))
    && (forall s :: '/' !in s && '\\' !in s ==> g.redact(s) == s)
  }

  /** A file in the store: whether its path is absolute, and its components. */
  type FileKey = (bool, seq<string>)

  function FileKeyOf(path: string): FileKey {
    (Absolute(path), Parts(path))
  }

  function FileOf(id: string): string {
    id + ".json"
  }

  /** The last component of a path. */
  function NameOf(path: string): string {
    var ps := Parts(path);
    if ps == [] then "" else ps[|ps| - 1]
  }

  // ---------------------------------------------------------------------------------------------
  // Outcomes of one run
  // ---------------------------------------------------------------------------------------------

  datatype Outcome<T> = Done(value: T) | OsFailure | SelectionFailure

  /** What validating the browser artifact comes to. */
  datatype Graded = Valid(browser: Value, valueFailed: bool) | JourneysFailed(browser: Value) | Rejected

  /** The browser artifact; `summary` is its reduction to failure facts. */
  datatype Artifact = Missing | NotUtf8 | Readable(summary: Value, graded: Graded)

  datatype GateRun = GateRun(
    eligible: seq<Candidate>,
    disk: Disk,
    plan: Plan,
    recordedAt: string,
    poolSha: string,
    staging: Outcome<()>,
    digests: Outcome<seq<string>>,
    runner: Outcome<int>,
    digestsAfter: Option<seq<string>>,
    artifact: Artifact)

  const NO_ARTIFACT: Value := Obj(map["artifact" := Str("missing-or-invalid"), "results" := Arr([])])

  function Summary(a: Artifact): Option<Value> {
    match a
    case Missing => Some(NO_ARTIFACT)
    case NotUtf8 => None
    case Readable(s, _) => Some(s)
  }

  function Problem(text: string): Value {
    Obj(map["artifact" := Str(text), "results" := Arr([])])
  }

  /** Grading never raises, unless reducing an artifact that is not text does. */
  function GradedOrReduced(a: Artifact): Option<Graded> {
    match a
    case Missing => Some(Rejected)
    case NotUtf8 => None
    case Readable(_, g) => Some(g)
  }

  /** Where a reserved run ends up: with a record to write, or with an exception on its way out. */
  datatype Verdict = Escapes | Records(staged: Option<seq<string>>, completed: bool, browser: Value)

  function VerdictOf(run: GateRun): Verdict {
    if !run.staging.Done? then Records(None, false, Problem("inputs-not-staged"))
    else if !run.digests.Done? then Records(None, false, Problem("staged-inputs-unreadable"))
    else
      var staged := Some(run.digests.value);
      match run.runner
      case OsFailure => Records(staged, false, Problem("runner-did-not-start"))
      case SelectionFailure => Escapes
      case Done(code) =>
        if run.digestsAfter != Some(run.digests.value) then
          match Summary(run.artifact)
          case None => Escapes
          case Some(s) => Records(staged, false, s)
        else
          match GradedOrReduced(run.artifact)
          case None => Escapes
          case Some(Rejected) => Records(staged, false, GetSummary(run.artifact))
          case Some(JourneysFailed(b)) => Records(staged, false, b)
          case Some(Valid(b, valueFailed)) => Records(staged, code == 0 && !valueFailed, b)
  }

  function GetSummary(a: Artifact): Value {
    match Summary(a)
    case Some(s) => s
    case None => Null
  }

  // ---------------------------------------------------------------------------------------------
  // Evidence
  // ---------------------------------------------------------------------------------------------

  function Redact(g: EvidenceCodec, v: Value): Value {
    match v
    case Str(s) => Str(g.redact(s))
    case Arr(xs) => Arr(seq(|xs|, i requires 0 <= i < |xs| => Redact(g, xs[i])))
    case Obj(m) => Obj(map k | k in m :: Redact(g, m[k]))
    case _ => v
  }

  function EvidenceBoard(b: Candidate, disk: Disk, staged: Value): Value {
    var sha := disk.firmwareSha(b);
    Obj(BoardRecord(b, "")["firmware_sha256" := if sha.Some? then Str(sha.value) else Null]["staged_sha256" := staged])
  }

  /** The digest of the `i`-th staged board, where it was staged. */
  function StagedSha(staged: Option<seq<string>>, i: nat): Value {
    if staged.Some? && i < |staged.value| then Str(staged.value[i]) else Null
  }

  function EvidenceBoards(bs: seq<Candidate>, disk: Disk, staged: Option<seq<string>>): (r: seq<Value>)
    ensures |r| == |bs|
    ensures forall i :: 0 <= i < |bs| ==> r[i] == EvidenceBoard(bs[i], disk, StagedSha(staged, i))
  {
    seq(|bs|, i requires 0 <= i < |bs| => EvidenceBoard(bs[i], disk, StagedSha(staged, i)))
  }

  function Status(completed: bool): string {
    if completed then "completed" else "failed"
  }

  function EvidenceOf(run: GateRun, boards: seq<Value>, completed: bool, browser: Value): Value {
    Obj(map["schema_version" := Int(1),
            "gate" := Str("external-five"),
            "iteration_id" := Str(run.plan.iterationId),
            "planned_at" := Str(run.plan.plannedAt),
            "tool_commit" := Str(run.plan.toolCommit),
            "manifest_sha256" := Str(run.plan.manifestSha256),
            "candidate_pool_sha256" := Str(run.poolSha),
            "boards" := Arr(boards),
            "status" := Str(Status(completed)),
            "browser" := browser])
  }

  /** The last candidate of that id. */
  function FindById(cs: seq<Candidate>, id: string): Option<Candidate> {
    if cs == [] then None
    else if cs[|cs| - 1].boardId == id then Some(cs[|cs| - 1])
    else FindById(cs[..|cs| - 1], id)
  }

  /** The candidates behind a reservation's boards, looked up by id. */
  function SelectedOf(cs: seq<Candidate>, boards: seq<Value>): seq<Candidate> {
    if boards == [] then []
    else
      var found := FindById(cs, BoardText(boards[0], "board_id"));
      (if found.Some? then [found.value] else []) + SelectedOf(cs, boards[1..])
  }

  // ---------------------------------------------------------------------------------------------
  // The run
  // ---------------------------------------------------------------------------------------------

  datatype Store = Store(ledger: string, evidence: map<FileKey, string>)

  /** How a run ends for its caller. */
  datatype Ending =
    | Refused(why: LedgerError)
    | Returned(evidence: Value)
    | Failed
    | Escaped

  /** The redacted, encoded evidence, refused when it leaks a path or the file holds something else. */
  function WriteEvidence(g: EvidenceCodec, files: map<FileKey, string>, key: FileKey, v: Value)
    : Option<(map<FileKey, string>, string)>
  {
    var encoded := g.encode(v);
    if g.leaks(encoded) then None
    else if key in files && files[key] != encoded then None
    else Some((files[key := encoded], encoded))
  }

  function TerminalOf(c: Codec, run: GateRun, completed: bool, encoded: string): Terminal {
    Terminal(run.plan.iterationId, Status(completed), run.recordedAt, c.sha(encoded),
             NameOf(FileOf(run.plan.iterationId)), run.plan.toolCommit)
  }

  /** Writing the evidence, then closing the reservation with its digest. */
  function RecordSpec(c: Codec, g: EvidenceCodec, store: Store, run: GateRun, completed: bool, v: Value): (Store, bool) {
    match WriteEvidence(g, store.evidence, FileKeyOf(FileOf(run.plan.iterationId)), v)
    case None => (store, false)
    case Some((files, encoded)) =>
      match AppendSpec(c, store.ledger, TerminalOf(c, run, completed, encoded))
      case Err(_) => (Store(store.ledger, files), false)
      case Ok(e) => (Store(store.ledger + LineOf(c, e), files), true)
  }

  /** The redacted evidence a reserved run writes. */
  function EvidenceFor(g: EvidenceCodec, run: GateRun, entry: Entry, staged: Option<seq<string>>, completed: bool,
                       browser: Value): Value
  {
    Redact(g, EvidenceOf(run, EvidenceBoards(SelectedOf(run.eligible, BoardsOf(entry)), run.disk, staged), completed, browser))
  }

  /** Everything after the reservation `entry` was appended. */
  function FinishSpec(c: Codec, g: EvidenceCodec, reserved: Store, run: GateRun, entry: Entry): (Store, Ending) {
    match VerdictOf(run)
    case Escapes => (reserved, Escaped)
    case Records(staged, completed, browser) =>
      var v := EvidenceFor(g, run, entry, staged, completed, browser);
      var after := RecordSpec(c, g, reserved, run, completed, v);
      (after.0, if !after.1 then Escaped else if completed then Returned(v) else Failed)
  }

  ghost function GateSpec(c: Codec, g: EvidenceCodec, store: Store, run: GateRun): (Store, Ending) {
    match ReserveSpec(c, store.ledger, run.eligible, run.disk, run.plan)
    case Err(why) => (store, Refused(why))
    case Ok(entry) => FinishSpec(c, g, Store(store.ledger + LineOf(c, entry), store.evidence), run, entry)
  }

  class ReleaseStore {
    const file: LedgerFile
    var evidence: map<FileKey, string>

    constructor ()
      ensures fresh(file) && View() == Store("", map[])
    {
      file := new LedgerFile();
      evidence := map[];
    }

    ghost function View(): Store
      reads this, file
    {
      Store(file.text, evidence)
    }

    method RecordExternalEvidence(c: Codec, g: EvidenceCodec, run: GateRun, completed: bool, v: Value) returns (ok: bool)
      modifies this, file
      ensures (View(), ok) == old(RecordSpec(c, g, View(), run, completed, v))
    {
      var key := FileKeyOf(FileOf(run.plan.iterationId));
      var encoded := g.encode(v);
      if g.leaks(encoded) {
        return false;
      }
      if key in evidence && evidence[key] != encoded {
        return false;
      }
      evidence := evidence[key := encoded];
      var r := file.AppendIterationResult(c, TerminalOf(c, run, completed, encoded));
      ok := r.Ok?;
    }

    /** Records the run and tells the caller how it ended. */
    method Finish(c: Codec, g: EvidenceCodec, run: GateRun, v: Value, completed: bool) returns (r: Ending)
      modifies this, file
      ensures var after := old(RecordSpec(c, g, View(), run, completed, v));
              View() == after.0 && r == if !after.1 then Escaped else if completed then Returned(v) else Failed
    {
      var ok := RecordExternalEvidence(c, g, run, completed, v);
      r := if !ok then Escaped else if completed then Returned(v) else Failed;
    }

    /** The run proper, every way out of it included. */
    method RunReserved(c: Codec, g: EvidenceCodec, run: GateRun, entry: Entry) returns (r: Ending)
      modifies this, file
      ensures (View(), r) == old(FinishSpec(c, g, View(), run, entry))
    {
      if !run.staging.Done? {
        r := Finish(c, g, run, EvidenceFor(g, run, entry, None, false, Problem("inputs-not-staged")), false);
        return;
      }
      if !run.digests.Done? {
        r := Finish(c, g, run, EvidenceFor(g, run, entry, None, false, Problem("staged-inputs-unreadable")), false);
        return;
      }
      r := RunStaged(c, g, run, entry);
    }

    /** The browser run and its grading, once the inputs are staged and read. */
    method RunStaged(c: Codec, g: EvidenceCodec, run: GateRun, entry: Entry) returns (r: Ending)
      requires run.staging.Done? && run.digests.Done?
      modifies this, file
      ensures (View(), r) == old(FinishSpec(c, g, View(), run, entry))
    {
      var staged := Some(run.digests.value);
      if run.runner.OsFailure? {
        r := Finish(c, g, run, EvidenceFor(g, run, entry, staged, false, Problem("runner-did-not-start")), false);
        return;
      }
      if run.runner.SelectionFailure? {
        return Escaped;
      }
      if run.digestsAfter != Some(run.digests.value) {
        var summary := Summary(run.artifact);
        if summary.None? {
          return Escaped;
        }
        r := Finish(c, g, run, EvidenceFor(g, run, entry, staged, false, summary.value), false);
        return;
      }
      var graded := GradedOrReduced(run.artifact);
      if graded.None? {
        return Escaped;
      }
      var browser, completed := GetSummary(run.artifact), false;
      match graded.value {
        case Rejected =>
        case JourneysFailed(b) => browser := b;
        case Valid(b, valueFailed) => browser, completed := b, run.runner.value == 0 && !valueFailed;
      }
      r := Finish(c, g, run, EvidenceFor(g, run, entry, staged, completed, browser), completed);
    }

    /** Reserves five boards, runs them, and closes the reservation with whatever came of it. */
    method RunExternalGate(c: Codec, g: EvidenceCodec, run: GateRun) returns (r: Ending)
      modifies this, file
      ensures (View(), r) == old(GateSpec(c, g, View(), run))
    {
      var reservation := file.ReserveIteration(c, run.eligible, run.disk, run.plan);
      if reservation.Err? {
        return Refused(reservation.error);
      }
      r := RunReserved(c, g, run, reservation.value);
    }
  }

  // ---------------------------------------------------------------------------------------------
  // The audit
  // ---------------------------------------------------------------------------------------------

  datatype AuditError =
    | BadLedger(h: HistoryError)
    | NoTerminalResult
    | EvidenceMissing
    | DigestMismatch
    | EvidenceNotJson
    | EvidenceNotObject
    | WrongGate
    | WrongIteration
    | WrongStatus
    | WrongCommit
    | BadEvidenceBoards
    | WrongBoards
    | NoneCompleted

  datatype Counts = Counts(reservations: nat, completed: nat, failed: nat)

  predicate BoardsListed(v: Value) {
    v.Arr? && forall x :: x in v.items ==> x.Obj? && IsStr(x.fields, "sha256")
  }

  /** What is wrong with one closed iteration's evidence. */
  function ResultFault(c: Codec, g: EvidenceCodec, files: map<FileKey, string>, h: History, r: Entry): Option<AuditError> {
    var key := FileKeyOf(Text(r, "evidence_file"));
    if key !in files then Some(EvidenceMissing)
    else if c.sha(files[key]) != Text(r, "evidence_sha256") then Some(DigestMismatch)
    else
      match g.decode(files[key])
      case None => Some(EvidenceNotJson)
      case Some(v) => EvidenceFault(v, h, r)
  }

  function EvidenceFault(v: Value, h: History, r: Entry): Option<AuditError> {
    if !v.Obj? then Some(EvidenceNotObject)
    else
      var e := v.fields;
      if Field(e, "gate") != Str("external-five") then Some(WrongGate)
      else if Field(e, "iteration_id") != Str(IdOf(r)) then Some(WrongIteration)
      else if Field(e, "status") != Str(Text(r, "status")) then Some(WrongStatus)
      else if Field(e, "tool_commit") != Str(Text(r, "tool_commit")) then Some(WrongCommit)
      else if !BoardsListed(Field(e, "boards")) then Some(BadEvidenceBoards)
      else
        match FindIteration(h.iterations, IdOf(r))
        case None => Some(WrongBoards)
        case Some(reservation) =>
          if Sort(TextsOf(Field(e, "boards").items, "sha256")) != Sort(TextsOf(BoardsOf(reservation), "sha256"))
          then Some(WrongBoards)
          else None
  }

  function CountStatus(rs: seq<Entry>, k: nat, completed: bool): nat
    requires k <= |rs|
  {
    if k == 0 then 0
    else CountStatus(rs, k - 1, completed) + if (Text(rs[k - 1], "status") == "completed") == completed then 1 else 0
  }

  /** The first fault among the results, in ledger order. */
  function FirstFault(c: Codec, g: EvidenceCodec, files: map<FileKey, string>, h: History, rs: seq<Entry>): Option<AuditError>
    decreases |rs|
  {
    if rs == [] then None
    else if ResultFault(c, g, files, h, rs[0]).Some? then ResultFault(c, g, files, h, rs[0])
    else FirstFault(c, g, files, h, rs[1..])
  }

  predicate AllClosed(h: History) {
    forall e :: e in h.iterations ==> HasId(h.results, IdOf(e))
  }

  function AuditSpec(c: Codec, g: EvidenceCodec, store: Store, requireCompleted: bool): Result<Counts, AuditError> {
    match ParseSpec(c, store.ledger)
    case Err(p) => Err(BadLedger(p))
    case Ok(h) =>
      if !AllClosed(h) then Err(NoTerminalResult)
      else
        var completed, failed := CountStatus(h.results, |h.results|, true), CountStatus(h.results, |h.results|, false);
        match FirstFault(c, g, store.evidence, h, h.results)
        case Some(f) => Err(f)
        case None =>
          if requireCompleted && completed == 0 then Err(NoneCompleted)
          else Ok(Counts(|h.iterations|, completed, failed))
  }

  lemma FirstFaultStep(c: Codec, g: EvidenceCodec, files: map<FileKey, string>, h: History, i: nat)
    requires i < |h.results|
    ensures FirstFault(c, g, files, h, h.results[i..]) ==
            if ResultFault(c, g, files, h, h.results[i]).Some? then ResultFault(c, g, files, h, h.results[i])
            else FirstFault(c, g, files, h, h.results[i + 1..])
  {
    assert h.results[i..][0] == h.results[i] && h.results[i..][1..] == h.results[i + 1..];
  }

  lemma CountStep(rs: seq<Entry>, i: nat)
    requires i < |rs|
    ensures var done := Text(rs[i], "status") == "completed";
            && CountStatus(rs, i + 1, true) == CountStatus(rs, i, true) + (if done then 1 else 0)
            && CountStatus(rs, i + 1, false) == CountStatus(rs, i, false) + (if done then 0 else 1)
  {
  }

  /** The counts, up to the first fault. */
  method CheckResults(c: Codec, g: EvidenceCodec, files: map<FileKey, string>, h: History)
    returns (fault: Option<AuditError>, completed: nat, failed: nat)
    ensures fault == FirstFault(c, g, files, h, h.results)
    ensures fault.None? ==>
      completed == CountStatus(h.results, |h.results|, true) && failed == CountStatus(h.results, |h.results|, false)
  {
    completed, failed := 0, 0;
    for i := 0 to |h.results|
      invariant completed == CountStatus(h.results, i, true) && failed == CountStatus(h.results, i, false)
      invariant FirstFault(c, g, files, h, h.results[i..]) == FirstFault(c, g, files, h, h.results)
    {
      var result := h.results[i];
      FirstFaultStep(c, g, files, h, i);
      CountStep(h.results, i);
      fault := ResultFault(c, g, files, h, result);
      if fault.Some? {
        return fault, completed, failed;
      }
      if Text(result, "status") == "completed" {
        completed := completed + 1;
      } else {
        failed := failed + 1;
      }
    }
    fault := None;
  }

  method AuditReleaseHistory(c: Codec, g: EvidenceCodec, store: Store, requireCompleted: bool)
    returns (r: Result<Counts, AuditError>)
    ensures r == AuditSpec(c, g, store, requireCompleted)
  {
    var parsed := ParseHistory(c, store.ledger);
    if parsed.Err? {
      return Err(BadLedger(parsed.error));
    }
    var h := parsed.value;
    if !AllClosed(h) {
      return Err(NoTerminalResult);
    }
    var fault, completed, failed := CheckResults(c, g, store.evidence, h);
    if fault.Some? {
      return Err(fault.value);
    }
    if requireCompleted && completed == 0 {
      return Err(NoneCompleted);
    }
    r := Ok(Counts(|h.iterations|, completed, failed));
  }
}
