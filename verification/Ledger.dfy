/**
  The append-only iteration ledger: how it is read back, and the two operations that extend it.
  Encoding, decoding and hashing are parameters.
 */
module Ledger {
  import opened Wrappers
  import opened Order
  import opened Json
  import opened Selection

  /** `rank(seed, id)` is the seeded digest a board is ranked by, read as a number. */
  datatype Codec = Codec(
    encode: Value -> string,
    decode: string -> Option<Value>,
    sha: string -> string,
    rank: (string, string) -> nat)

  /** What is taken from the encoder and the hash: a line each value comes back from, and hex digests. */
  ghost predicate GoodCodec(c: Codec) {
    && (forall v :: c.decode(c.encode(v)) == Some(v) && NoNewline(c.encode(v)) && !Blank(c.encode(v)))
    && (forall t :: Hex(c.sha(t), 64))
  }

  const SELECTOR_VERSION := 1
  const ITERATION_BOARDS := 5

  datatype HistoryError =
    | InvalidJson
    | NotAnObject
    | MissingField(field: string)
    | UnsupportedSchema
    | InvalidStatus
    | InvalidDigest(field: string)
    | BrokenChain
    | NoReservation
    | AlreadyTerminal
    | BoardsDoNotMatch
    | UnsafeEvidenceFile
    | UnsupportedStatus
    | UnsupportedSelector
    | TooFewCandidates
    | WrongSeed
    | DuplicateIteration
    | NotFiveBoards
    | BoardNotObject
    | BadBoardId
    | BadBoardDigest
    | ContentReused
    | UnsafeRelativePath
    | ContentRepeated
    | BoardReused
    | EmptyIterationId

  datatype History = History(
    iterations: seq<Entry>, seenBoardIds: set<string>, seenSha256: set<string>, results: seq<Entry>)

  /** What reading has gathered; `prefix` is the text read so far. */
  datatype State = State(history: History, prefix: string)

  const START := State(History([], {}, {}, []), "")

  function Text(e: Entry, f: string): string {
    if IsStr(e, f) then e[f].s else ""
  }

  function IdOf(e: Entry): string {
    Text(e, "iteration_id")
  }

  function DeriveSeed(c: Codec, id: string, prior: string, entropy: string): string {
    c.sha("unseen-five-selector-v1" + "\0" + id + "\0" + prior + "\0" + entropy)
  }

  // ---------------------------------------------------------------------------------------------
  // Boards of an iteration
  // ---------------------------------------------------------------------------------------------

  function BoardsOf(e: Entry): seq<Value> {
    if IsList(e, "boards") then e["boards"].items else []
  }

  function BoardText(v: Value, f: string): string {
    if v.Obj? then Text(v.fields, f) else ""
  }

  function TextsOf(vs: seq<Value>, f: string): (r: seq<string>)
    ensures |r| == |vs|
    ensures forall i :: 0 <= i < |vs| ==> r[i] == BoardText(vs[i], f)
  {
    seq(|vs|, i requires 0 <= i < |vs| => BoardText(vs[i], f))
  }

  function SetOf(s: seq<string>): set<string> {
    set x | x in s
  }

  function BoardIds(e: Entry): set<string> {
    SetOf(TextsOf(BoardsOf(e), "board_id"))
  }

  function BoardShas(e: Entry): set<string> {
    SetOf(TextsOf(BoardsOf(e), "sha256"))
  }

  predicate IsBoardId(s: string) {
    |s| == 70 && s[..6] == "board:" && Hex(s[6..], 64)
  }

  /** A text field that is there and not empty. */
  predicate Filled(e: Entry, f: string) {
    IsStr(e, f) && e[f].s != ""
  }

  /** The first of the required texts that a board lacks or leaves empty. */
  function MissingBoardField(b: Entry): Option<string> {
    if !Filled(b, "board_id") then Some("board_id")
    else if !Filled(b, "sha256") then Some("sha256")
    else if !Filled(b, "source_id") then Some("source_id")
    else if !Filled(b, "revision") then Some("revision")
    else if !Filled(b, "relative_path") then Some("relative_path")
    else if !Filled(b, "input_format") then Some("input_format")
    else None
  }

  function BoardProblem(v: Value, seenSha: set<string>): Option<HistoryError> {
    if !v.Obj? then Some(BoardNotObject)
    else
      var b := v.fields;
      var missing := MissingBoardField(b);
      if missing.Some? then Some(MissingField(missing.value))
      else if !IsBoardId(Text(b, "board_id")) then Some(BadBoardId)
      else if !Hex(Text(b, "sha256"), 64) then Some(BadBoardDigest)
      else if Text(b, "sha256") in seenSha then Some(ContentReused)
      else if !SafePath(Text(b, "relative_path")) then Some(UnsafeRelativePath)
      else None
  }

  /** The first problem of a board, in list order. */
  function BoardsProblem(vs: seq<Value>, seenSha: set<string>): Option<HistoryError> {
    if vs == [] then None
    else if BoardProblem(vs[0], seenSha).Some? then BoardProblem(vs[0], seenSha)
    else BoardsProblem(vs[1..], seenSha)
  }

  // ---------------------------------------------------------------------------------------------
  // Reading one line
  // ---------------------------------------------------------------------------------------------

  /** The first field of a result that is missing or of the wrong kind. */
  function MissingResultField(e: Entry): Option<string> {
    if !IsInt(e, "schema_version") then Some("schema_version")
    else if !IsStr(e, "record_type") then Some("record_type")
    else if !IsStr(e, "iteration_id") then Some("iteration_id")
    else if !IsStr(e, "recorded_at") then Some("recorded_at")
    else if !IsStr(e, "status") then Some("status")
    else if !IsStr(e, "prior_history_sha256") then Some("prior_history_sha256")
    else if !IsStr(e, "evidence_sha256") then Some("evidence_sha256")
    else if !IsStr(e, "evidence_file") then Some("evidence_file")
    else if !IsStr(e, "tool_commit") then Some("tool_commit")
    else if !IsList(e, "board_sha256s") then Some("board_sha256s")
    else None
  }

  /** The first field of a reservation that is missing, of the wrong kind, or an empty text. */
  function MissingIterationField(e: Entry): Option<string> {
    if !Filled(e, "iteration_id") then Some("iteration_id")
    else if !Filled(e, "planned_at") then Some("planned_at")
    else if !Filled(e, "seed") then Some("seed")
    else if !Filled(e, "entropy") then Some("entropy")
    else if !Filled(e, "prior_history_sha256") then Some("prior_history_sha256")
    else if !Filled(e, "status") then Some("status")
    else if !IsInt(e, "selector_version") then Some("selector_version")
    else if !IsInt(e, "candidate_count") then Some("candidate_count")
    else if !Filled(e, "candidate_pool_sha256") then Some("candidate_pool_sha256")
    else if !Filled(e, "manifest_sha256") then Some("manifest_sha256")
    else if !Filled(e, "tool_commit") then Some("tool_commit")
    else if !IsList(e, "boards") then Some("boards")
    else None
  }

  function FindIteration(es: seq<Entry>, id: string): (r: Option<Entry>)
    ensures r.Some? ==> r.value in es && IdOf(r.value) == id
    ensures r.None? ==> forall e :: e in es ==> IdOf(e) != id
  {
    if es == [] then None else if IdOf(es[0]) == id then Some(es[0]) else FindIteration(es[1..], id)
  }

  predicate HasId(es: seq<Entry>, id: string) {
    exists e :: e in es && IdOf(e) == id
  }

  /** A reservation's content digests, in order, as a result repeats them. */
  function ShaList(e: Entry): seq<Value> {
    var s := Sort(TextsOf(BoardsOf(e), "sha256"));
    seq(|s|, i requires 0 <= i < |s| => Str(s[i]))
  }

  function ResultProblem(c: Codec, st: State, e: Entry): Option<HistoryError> {
    var missing := MissingResultField(e);
    if missing.Some? then Some(MissingField(missing.value))
    else if !NumberIs(Field(e, "schema_version"), 2) then Some(UnsupportedSchema)
    else if Text(e, "status") != "completed" && Text(e, "status") != "failed" then Some(InvalidStatus)
    else if !Hex(Text(e, "prior_history_sha256"), 64) then Some(InvalidDigest("prior_history_sha256"))
    else if !Hex(Text(e, "evidence_sha256"), 64) then Some(InvalidDigest("evidence_sha256"))
    else if !Hex(Text(e, "tool_commit"), 40) then Some(InvalidDigest("tool_commit"))
    else if Text(e, "prior_history_sha256") != c.sha(st.prefix) then Some(BrokenChain)
    else
      match FindIteration(st.history.iterations, IdOf(e))
      case None => Some(NoReservation)
      case Some(reservation) =>
        if HasId(st.history.results, IdOf(e)) then Some(AlreadyTerminal)
        else if Field(e, "board_sha256s") != Arr(ShaList(reservation)) then Some(BoardsDoNotMatch)
        else if !SafePath(Text(e, "evidence_file")) then Some(UnsafeEvidenceFile)
        else None
  }

  function IterationProblem(c: Codec, st: State, e: Entry): Option<HistoryError> {
    var missing := MissingIterationField(e);
    if missing.Some? then Some(MissingField(missing.value))
    else if Text(e, "status") != "planned" then Some(UnsupportedStatus)
    else if !NumberIs(Field(e, "selector_version"), SELECTOR_VERSION) then Some(UnsupportedSelector)
    else if IntOf(Field(e, "candidate_count")) < ITERATION_BOARDS then Some(TooFewCandidates)
    else if !Hex(Text(e, "entropy"), 64) then Some(InvalidDigest("entropy"))
    else if !Hex(Text(e, "prior_history_sha256"), 64) then Some(InvalidDigest("prior_history_sha256"))
    else if !Hex(Text(e, "candidate_pool_sha256"), 64) then Some(InvalidDigest("candidate_pool_sha256"))
    else if !Hex(Text(e, "manifest_sha256"), 64) then Some(InvalidDigest("manifest_sha256"))
    else if !Hex(Text(e, "tool_commit"), 40) then Some(InvalidDigest("tool_commit"))
    else if Chained(e) && Text(e, "prior_history_sha256") != c.sha(st.prefix) then Some(BrokenChain)
    else if Chained(e) && Text(e, "seed") != DeriveSeed(c, IdOf(e), c.sha(st.prefix), Text(e, "entropy")) then Some(WrongSeed)
    else if HasId(st.history.iterations, IdOf(e)) then Some(DuplicateIteration)
    else IterationBoardsProblem(st, e)
  }

  /** A reservation of the present schema carries the hash of everything before it. */
  predicate Chained(e: Entry) {
    NumberIs(Field(e, "schema_version"), 2)
  }

  function IterationBoardsProblem(st: State, e: Entry): Option<HistoryError> {
    var boards := BoardsOf(e);
    if |boards| != ITERATION_BOARDS then Some(NotFiveBoards)
    else if BoardsProblem(boards, st.history.seenSha256).Some? then BoardsProblem(boards, st.history.seenSha256)
    else if |BoardIds(e)| != ITERATION_BOARDS then Some(NotFiveBoards)
    else if |BoardShas(e)| != ITERATION_BOARDS then Some(ContentRepeated)
    else if BoardIds(e) * st.history.seenBoardIds != {} then Some(BoardReused)
    else None
  }

  function AddResult(st: State, e: Entry, line: string): State {
    State(History(st.history.iterations, st.history.seenBoardIds, st.history.seenSha256, st.history.results + [e]),
          st.prefix + line)
  }

  function AddIteration(st: State, e: Entry, line: string): State {
    State(History(st.history.iterations + [e], st.history.seenBoardIds + BoardIds(e),
                  st.history.seenSha256 + BoardShas(e), st.history.results),
          st.prefix + line)
  }

  predicate IsResult(e: Entry) {
    Field(e, "record_type") == Str("result")
  }

  function ReadLine(c: Codec, st: State, line: string): Result<State, HistoryError> {
    var raw := StripNewlines(line);
    if Blank(raw) then Ok(State(st.history, st.prefix + line))
    else
      match c.decode(raw)
      case None => Err(InvalidJson)
      case Some(v) =>
        if !v.Obj? then Err(NotAnObject)
        else if IsResult(v.fields) then
          (match ResultProblem(c, st, v.fields)
           case Some(p) => Err(p)
           case None => Ok(AddResult(st, v.fields, line)))
        else
          (match IterationProblem(c, st, v.fields)
           case Some(p) => Err(p)
           case None => Ok(AddIteration(st, v.fields, line)))
  }

  function ReadLines(c: Codec, st: State, lines: seq<string>): Result<State, HistoryError>
    decreases |lines|
  {
    if lines == [] then Ok(st)
    else
      match ReadLine(c, st, lines[0])
      case Err(p) => Err(p)
      case Ok(st') => ReadLines(c, st', lines[1..])
  }

  function ParseSpec(c: Codec, text: string): Result<History, HistoryError> {
    match ReadLines(c, START, Lines(text))
    case Err(p) => Err(p)
    case Ok(st) => Ok(st.history)
  }

  /** Reads the ledger back line by line, growing the history and the hashed prefix as it goes. */
  method ParseHistory(c: Codec, text: string) returns (r: Result<History, HistoryError>)
    ensures r == ParseSpec(c, text)
  {
    var iterations: seq<Entry>, results: seq<Entry>, seen: set<string>, seenContent: set<string>, prefix := [], [], {}, {}, "";
    var lines := Lines(text);
    for i := 0 to |lines|
      invariant ReadLines(c, State(History(iterations, seen, seenContent, results), prefix), lines[i..])
                == ReadLines(c, START, lines)
    {
      var line := lines[i];
      assert lines[i..][0] == line && lines[i..][1..] == lines[i + 1..];
      var st := State(History(iterations, seen, seenContent, results), prefix);
      var raw := StripNewlines(line);
      if Blank(raw) {
        prefix := prefix + line;
        continue;
      }
      var decoded := c.decode(raw);
      if decoded.None? {
        return Err(InvalidJson);
      }
      if !decoded.value.Obj? {
        return Err(NotAnObject);
      }
      var entry := decoded.value.fields;
      if IsResult(entry) {
        var problem := ResultProblem(c, st, entry);
        if problem.Some? {
          return Err(problem.value);
        }
        results := results + [entry];
      } else {
        var problem := IterationProblem(c, st, entry);
        if problem.Some? {
          return Err(problem.value);
        }
        seen := seen + BoardIds(entry);
        seenContent := seenContent + BoardShas(entry);
        iterations := iterations + [entry];
      }
      prefix := prefix + line;
    }
    r := Ok(History(iterations, seen, seenContent, results));
  }

  // ---------------------------------------------------------------------------------------------
  // Extending the ledger
  // ---------------------------------------------------------------------------------------------

  datatype LedgerError = OfHistory(h: HistoryError) | OfSelection(s: SelectionError)

  /**
    What reservation reads off the disk: whether a candidate is still what was discovered, the
    digest of its firmware ("" when it has none) or nothing when that cannot be read, and the
    encoded pool.
   */
  datatype Disk = Disk(
    intact: Candidate -> bool, firmwareSha: Candidate -> Option<string>, pool: seq<Candidate> -> Option<string>)

  function BoardRecord(b: Candidate, firmwareSha: string): Entry {
    map["board_id" := Str(b.boardId),
        "sha256" := Str(b.sha256),
        "source_id" := Str(b.sourceId),
        "revision" := Str(b.revision),
        "relative_path" := Str(b.relativePath),
        "input_format" := Str(b.inputFormat),
        "axes" := StrList(b.axes),
        "bundle_members" := StrList(b.bundleMembers),
        "cohort" := Str(b.cohort),
        "source_url" := Str(b.sourceUrl),
        "license" := Str(b.license),
        "firmware_relative_path" := Str(b.firmwareRelativePath),
        "firmware_expect" := Str(b.firmwareExpect),
        "firmware_sha256" := Str(firmwareSha)]
  }

  function StrList(ss: seq<string>): Value {
    Arr(seq(|ss|, i requires 0 <= i < |ss| => Str(ss[i])))
  }

  function BoardRecords(bs: seq<Candidate>, disk: Disk): (r: Option<seq<Value>>)
    ensures r.Some? ==> |r.value| == |bs|
    ensures r.Some? ==> forall i :: 0 <= i < |bs| ==>
      disk.firmwareSha(bs[i]).Some? && r.value[i] == Obj(BoardRecord(bs[i], disk.firmwareSha(bs[i]).value))
  {
    if bs == [] then Some([])
    else
      match (disk.firmwareSha(bs[0]), BoardRecords(bs[1..], disk))
      case (Some(sha), Some(rest)) => Some([Obj(BoardRecord(bs[0], sha))] + rest)
      case _ => None
  }

  datatype Plan = Plan(
    entropy: string, iterationId: string, plannedAt: string, manifestSha256: string, toolCommit: string)

  function ReservationEntry(p: Plan, seed: string, prior: string, count: nat, poolSha: string, boards: seq<Value>): Entry {
    map["schema_version" := Int(2),
        "record_type" := Str("reservation"),
        "iteration_id" := Str(p.iterationId),
        "planned_at" := Str(p.plannedAt),
        "seed" := Str(seed),
        "entropy" := Str(p.entropy),
        "prior_history_sha256" := Str(prior),
        "status" := Str("planned"),
        "selector_version" := Int(SELECTOR_VERSION),
        "candidate_count" := Int(count),
        "candidate_pool_sha256" := Str(poolSha),
        "manifest_sha256" := Str(p.manifestSha256),
        "tool_commit" := Str(p.toolCommit),
        "boards" := Arr(boards)]
  }

  function ResultEntry(id: string, at: string, status: string, prior: string, evidenceSha: string, evidenceFile: string,
                       commit: string, shas: seq<Value>): Entry {
    map["schema_version" := Int(2),
        "record_type" := Str("result"),
        "iteration_id" := Str(id),
        "recorded_at" := Str(at),
        "status" := Str(status),
        "prior_history_sha256" := Str(prior),
        "evidence_sha256" := Str(evidenceSha),
        "evidence_file" := Str(evidenceFile),
        "tool_commit" := Str(commit),
        "board_sha256s" := Arr(shas)]
  }

  /** The arguments' own problem, in the order they are checked. */
  function PlanProblem(p: Plan): Option<LedgerError> {
    if p.iterationId == "" then Some(OfHistory(EmptyIterationId))
    else if !Hex(p.entropy, 64) then Some(OfSelection(BadEntropy))
    else if !Hex(p.manifestSha256, 64) then Some(OfSelection(BadManifestDigest))
    else if !Hex(p.toolCommit, 40) then Some(OfSelection(BadToolCommit))
    else None
  }

  function Index(cs: seq<Candidate>): map<string, Candidate>
    requires Consistent(cs)
  {
    map c | c in cs :: c.boardId := c
  }

  function RankFor(c: Codec, seed: string): Rank {
    (id: string) => c.rank(seed, id)
  }

  /** The entry for a ledger that reads back as `history`. */
  ghost function ReserveOn(c: Codec, history: History, prior: string, cs: seq<Candidate>, disk: Disk, p: Plan)
    : Result<Entry, LedgerError>
  {
    if HasId(history.iterations, p.iterationId) then Err(OfHistory(DuplicateIteration))
    else if !Consistent(cs) then Err(OfSelection(ConflictingCandidates))
    else
      var seed := DeriveSeed(c, p.iterationId, prior, p.entropy);
      match SelectSpec(Index(cs), history.seenBoardIds, history.seenSha256, ITERATION_BOARDS, RankFor(c, seed))
      case Err(s) => Err(OfSelection(s))
      case Ok(selected) =>
        match (disk.pool(cs), BoardRecords(selected, disk))
        case (Some(pool), Some(boards)) =>
          Ok(ReservationEntry(p, seed, prior, |Index(cs)|, c.sha(pool), boards))
        case _ => Err(OfSelection(FirmwareUnreadable))
  }

  /** The entry a reservation appends, or why it appends none. */
  ghost function ReserveSpec(c: Codec, text: string, cs: seq<Candidate>, disk: Disk, p: Plan): Result<Entry, LedgerError> {
    if PlanProblem(p).Some? then Err(PlanProblem(p).value)
    else if exists b :: b in cs && !disk.intact(b) then Err(OfSelection(CandidateChanged))
    else
      match ParseSpec(c, text)
      case Err(h) => Err(OfHistory(h))
      case Ok(history) => ReserveOn(c, history, c.sha(text), cs, disk, p)
  }

  lemma IndexIsIndex(cs: seq<Candidate>)
    requires Consistent(cs)
    ensures IsIndex(cs, Index(cs))
  {
  }

  /** Draws the boards and composes the entry. */
  method ComposeReservation(c: Codec, history: History, prior: string, cs: seq<Candidate>, disk: Disk, p: Plan)
    returns (r: Result<Entry, LedgerError>)
    ensures r == ReserveOn(c, history, prior, cs, disk, p)
  {
    if HasId(history.iterations, p.iterationId) {
      return Err(OfHistory(DuplicateIteration));
    }
    var seed := DeriveSeed(c, p.iterationId, prior, p.entropy);
    var chosen := SelectUnseen(cs, history.seenBoardIds, history.seenSha256, ITERATION_BOARDS, RankFor(c, seed));
    var unique := UniqueCandidates(cs);
    if unique.Err? {
      return Err(OfSelection(ConflictingCandidates));
    }
    IndexIsIndex(cs);
    IndexIgnoresOrder(cs, cs, unique.value, Index(cs));
    if chosen.Err? {
      return Err(OfSelection(chosen.error));
    }
    var pool, boards := disk.pool(cs), BoardRecords(chosen.value, disk);
    if pool.None? || boards.None? {
      return Err(OfSelection(FirmwareUnreadable));
    }
    r := Ok(ReservationEntry(p, seed, prior, |unique.value|, c.sha(pool.value), boards.value));
  }

  datatype Terminal = Terminal(
    iterationId: string, status: string, recordedAt: string, evidenceSha256: string, evidenceFile: string, toolCommit: string)

  datatype AppendError =
    | BadStatus
    | BadEvidenceDigest
    | BadCommit
    | UnsafeEvidence
    | Unreadable(h: HistoryError)
    | UnknownIteration
    | AlreadyClosed

  function AppendSpec(c: Codec, text: string, t: Terminal): Result<Entry, AppendError> {
    if t.status != "completed" && t.status != "failed" then Err(BadStatus)
    else if !Hex(t.evidenceSha256, 64) then Err(BadEvidenceDigest)
    else if !Hex(t.toolCommit, 40) then Err(BadCommit)
    else if !SafePath(t.evidenceFile) then Err(UnsafeEvidence)
    else
      match ParseSpec(c, text)
      case Err(h) => Err(Unreadable(h))
      case Ok(history) =>
        match FindIteration(history.iterations, t.iterationId)
        case None => Err(UnknownIteration)
        case Some(reservation) =>
          if HasId(history.results, t.iterationId) then Err(AlreadyClosed)
          else Ok(ResultEntry(t.iterationId, t.recordedAt, t.status, c.sha(text), t.evidenceSha256,
                              PosixForm(t.evidenceFile), t.toolCommit, ShaList(reservation)))
  }

  function LineOf(c: Codec, e: Entry): string {
    c.encode(Obj(e)) + "\n"
  }

  class LedgerFile {
    var text: string

    constructor ()
      ensures text == ""
    {
      text := "";
    }

    method ReserveIteration(c: Codec, cs: seq<Candidate>, disk: Disk, p: Plan) returns (r: Result<Entry, LedgerError>)
      modifies this
      ensures r == old(ReserveSpec(c, text, cs, disk, p))
      ensures text == if r.Ok? then old(text) + LineOf(c, r.value) else old(text)
    {
      var problem := PlanProblem(p);
      if problem.Some? {
        return Err(problem.value);
      }
      for i := 0 to |cs|
        invariant forall b :: b in cs[..i] ==> disk.intact(b)
      {
        if !disk.intact(cs[i]) {
          return Err(OfSelection(CandidateChanged));
        }
        assert cs[..i + 1] == cs[..i] + [cs[i]];
      }
      assert cs[..|cs|] == cs;
      var existing := text;
      var parsed := ParseHistory(c, existing);
      if parsed.Err? {
        return Err(OfHistory(parsed.error));
      }
      r := ComposeReservation(c, parsed.value, c.sha(existing), cs, disk, p);
      if r.Ok? {
        text := text + LineOf(c, r.value);
      }
    }

    method AppendIterationResult(c: Codec, t: Terminal) returns (r: Result<Entry, AppendError>)
      modifies this
      ensures r == old(AppendSpec(c, text, t))
      ensures text == if r.Ok? then old(text) + LineOf(c, r.value) else old(text)
    {
      if t.status != "completed" && t.status != "failed" {
        return Err(BadStatus);
      }
      if !Hex(t.evidenceSha256, 64) {
        return Err(BadEvidenceDigest);
      }
      if !Hex(t.toolCommit, 40) {
        return Err(BadCommit);
      }
      if !SafePath(t.evidenceFile) {
        return Err(UnsafeEvidence);
      }
      var existing := text;
      var parsed := ParseHistory(c, existing);
      if parsed.Err? {
        return Err(Unreadable(parsed.error));
      }
      var reservation := FindIteration(parsed.value.iterations, t.iterationId);
      if reservation.None? {
        return Err(UnknownIteration);
      }
      if HasId(parsed.value.results, t.iterationId) {
        return Err(AlreadyClosed);
      }
      var entry := ResultEntry(t.iterationId, t.recordedAt, t.status, c.sha(existing), t.evidenceSha256,
                               PosixForm(t.evidenceFile), t.toolCommit, ShaList(reservation.value));
      text := text + LineOf(c, entry);
      r := Ok(entry);
    }
  }
}
