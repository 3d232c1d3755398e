/** What each refusal of the reader says of the first line that does not fit. */
module LedgerRefusals {
  import opened Wrappers
  import opened Order
  import opened Json
  import opened Selection
  import opened Ledger
  import opened LedgerProofs
  import opened LedgerMeaning

  // ---------------------------------------------------------------------------------------------
  // A result
  // ---------------------------------------------------------------------------------------------

  const RESULT_TEXTS: set<string> :=
    {"record_type", "iteration_id", "recorded_at", "status", "prior_history_sha256", "evidence_sha256", "evidence_file", "tool_commit"}

  predicate HasNumber(e: Entry, f: string) {
    f in e && (e[f].Int? || e[f].Bool?)
  }

  predicate HasList(e: Entry, f: string) {
    f in e && e[f].Arr?
  }

  /** How long the digest in a field is. */
  function DigestLength(f: string): nat {
    if f == "tool_commit" then 40 else 64
  }

  /** The result is not of the form a result has. */
  ghost predicate ResultMisformed(e: Entry, p: HistoryError) {
    match p
    case MissingField(f) =>
      || (f in RESULT_TEXTS && !HasText(e, f)) || (f == "schema_version" && !HasNumber(e, f))
      || (f == "board_sha256s" && !HasList(e, f))
    case UnsupportedSchema => HasNumber(e, "schema_version") && e["schema_version"] != Int(2)
    case InvalidStatus => HasText(e, "status") && !Says(e, "status", "completed") && !Says(e, "status", "failed")
    case InvalidDigest(f) =>
      f in {"prior_history_sha256", "evidence_sha256", "tool_commit"} && HasText(e, f) && !HasDigest(e, f, DigestLength(f))
    case _ => false
  }

  /** No reservation above has the id. */
  ghost predicate NotReserved(c: Codec, ls: seq<string>, k: nat, id: string)
    requires k <= |ls|
  {
    forall j, r :: 0 <= j < k && Reserves(c, ls[j], r) ==> IdOf(r) != id
  }

  /** A reservation above has the result's id and other contents. */
  ghost predicate Contradicted(c: Codec, ls: seq<string>, k: nat, e: Entry)
    requires k <= |ls|
  {
    exists j, r :: 0 <= j < k && Reserves(c, ls[j], r) && IdOf(r) == IdOf(e) && !RepeatsBoards(e, r)
  }

  /** It is, but does not stand where it can close its reservation. */
  ghost predicate ResultMisplaced(c: Codec, ls: seq<string>, k: nat, e: Entry, p: HistoryError)
    requires k < |ls|
  {
    match p
    case BrokenChain => Text(e, "prior_history_sha256") != c.sha(Above(ls, k))
    case NoReservation => NotReserved(c, ls, k, IdOf(e))
    case AlreadyTerminal => !NotClosed(c, ls, k, IdOf(e))
    case BoardsDoNotMatch => Contradicted(c, ls, k, e)
    case UnsafeEvidenceFile => !Stays(Text(e, "evidence_file"))
    case _ => false
  }

  lemma MissingResultIs(e: Entry)
    ensures MissingResultField(e).Some? ==> ResultMisformed(e, MissingField(MissingResultField(e).value))
  {
  }

  /** The checks on the result's own form, and what is left when it passes them. */
  lemma ResultFormSteps(c: Codec, st: State, e: Entry, p: HistoryError)
    requires ResultProblem(c, st, e) == Some(p) && IsResult(e)
    ensures ResultMisformed(e, p) || ResultPlaceProblem(c, st, e) == Some(p)
  {
    MissingResultIs(e);
    HexIff(e, "prior_history_sha256", 64);
    HexIff(e, "evidence_sha256", 64);
    HexIff(e, "tool_commit", 40);
  }

  /** The part of the reader's check that looks at the lines above. */
  function ResultPlaceProblem(c: Codec, st: State, e: Entry): Option<HistoryError> {
    if Text(e, "prior_history_sha256") != c.sha(st.prefix) then Some(BrokenChain)
    else
      match FindIteration(st.history.iterations, IdOf(e))
      case None => Some(NoReservation)
      case Some(reservation) =>
        if HasId(st.history.results, IdOf(e)) then Some(AlreadyTerminal)
        else if Field(e, "board_sha256s") != Arr(ShaList(reservation)) then Some(BoardsDoNotMatch)
        else if !SafePath(Text(e, "evidence_file")) then Some(UnsafeEvidenceFile)
        else None
  }

  lemma NoneFound(c: Codec, ls: seq<string>, k: nat, its: seq<Entry>, e: Entry)
    requires k <= |ls| && Reservations(c, ls, k, its) && FindIteration(its, IdOf(e)).None?
    ensures NotReserved(c, ls, k, IdOf(e))
  {
    forall j, r | 0 <= j < k && Reserves(c, ls[j], r)
      ensures IdOf(r) != IdOf(e)
    {
      assert ReservedAbove(c, ls, k, r);
    }
  }

  lemma OthersFound(c: Codec, ls: seq<string>, k: nat, its: seq<Entry>, e: Entry, found: Entry)
    requires k <= |ls| && Reservations(c, ls, k, its) && FindIteration(its, IdOf(e)) == Some(found)
    requires Field(e, "board_sha256s") != Arr(ShaList(found))
    ensures Contradicted(c, ls, k, e)
  {
    ShaListIff(e, found);
    assert ReservedAbove(c, ls, k, found);
    var j :| 0 <= j < k && Reserves(c, ls[j], found);
    assert !RepeatsBoards(e, found);
  }

  lemma ResultRefusal(c: Codec, ls: seq<string>, k: nat, st: State, e: Entry, p: HistoryError, found: Option<Entry>)
    requires k < |ls| && st.prefix == Above(ls, k) && Reservations(c, ls, k, st.history.iterations)
    requires Results(c, ls, k, st.history.results) && ResultPlaceProblem(c, st, e) == Some(p)
    requires found == FindIteration(st.history.iterations, IdOf(e))
    ensures ResultMisplaced(c, ls, k, e, p)
  {
    if found.None? {
      NoneFound(c, ls, k, st.history.iterations, e);
    } else if HasId(st.history.results, IdOf(e)) {
      ResultOnce(c, ls, k, st.history.results, e);
    } else if Field(e, "board_sha256s") != Arr(ShaList(found.value)) {
      OthersFound(c, ls, k, st.history.iterations, e, found.value);
    } else {
      StaysIff(Text(e, "evidence_file"));
    }
  }

  // ---------------------------------------------------------------------------------------------
  // A reservation
  // ---------------------------------------------------------------------------------------------

  const RESERVATION_TEXTS: set<string> :=
    {"iteration_id", "planned_at", "seed", "entropy", "prior_history_sha256", "status", "candidate_pool_sha256", "manifest_sha256",
     "tool_commit"}

  const RESERVATION_DIGESTS: set<string> :=
    {"entropy", "prior_history_sha256", "candidate_pool_sha256", "manifest_sha256", "tool_commit"}

  const BOARD_TEXTS: set<string> := {"board_id", "sha256", "source_id", "revision", "relative_path", "input_format"}

  predicate IsBoardName(s: string) {
    |s| == 70 && s[..6] == "board:" && forall c :: c in s[6..] ==> c in "0123456789abcdef"
  }

  /** The reservation is not of the form a reservation has, its boards aside. */
  ghost predicate ReservationMisformed(e: Entry, p: HistoryError) {
    match p
    case MissingField(f) =>
      || (f in RESERVATION_TEXTS && !HasWords(e, f)) || (f in {"selector_version", "candidate_count"} && !HasNumber(e, f))
      || (f == "boards" && !HasList(e, f))
    case UnsupportedStatus => HasWords(e, "status") && !Says(e, "status", "planned")
    case UnsupportedSelector => HasNumber(e, "selector_version") && e["selector_version"] != Int(1) && e["selector_version"] != Bool(true)
    case TooFewCandidates => HasNumber(e, "candidate_count") && (e["candidate_count"].Int? ==> e["candidate_count"].n < 5)
    case InvalidDigest(f) => f in RESERVATION_DIGESTS && HasWords(e, f) && !HasDigest(e, f, DigestLength(f))
    case _ => false
  }

  /** One of its boards is not of the form a board has, or its content stands above already. */
  ghost predicate BoardMisformed(c: Codec, ls: seq<string>, k: nat, v: Value, p: HistoryError)
    requires k < |ls|
  {
    match p
    case BoardNotObject => !v.Obj?
    case MissingField(f) => v.Obj? && f in BOARD_TEXTS && !HasWords(v.fields, f)
    case BadBoardId => v.Obj? && HasWords(v.fields, "board_id") && !IsBoardName(v.fields["board_id"].s)
    case BadBoardDigest => v.Obj? && HasWords(v.fields, "sha256") && !HasDigest(v.fields, "sha256", 64)
    case ContentReused => exists j, r :: 0 <= j < k && Reserves(c, ls[j], r) && BoardText(v, "sha256") in BoardShas(r)
    case UnsafeRelativePath => v.Obj? && HasWords(v.fields, "relative_path") && !Stays(v.fields["relative_path"].s)
    case _ => false
  }

  /** It is, but does not stand where it can be made. */
  ghost predicate ReservationMisplaced(c: Codec, ls: seq<string>, k: nat, e: Entry, p: HistoryError)
    requires k < |ls|
  {
    match p
    case BrokenChain => SchemaTwo(e) && Text(e, "prior_history_sha256") != c.sha(Above(ls, k))
    case WrongSeed =>
      && SchemaTwo(e)
      && Text(e, "seed") !=
         c.sha("unseen-five-selector-v1" + "\0" + IdOf(e) + "\0" + c.sha(Above(ls, k)) + "\0" + Text(e, "entropy"))
    case DuplicateIteration => exists j, r :: 0 <= j < k && Reserves(c, ls[j], r) && IdOf(r) == IdOf(e)
    case NotFiveBoards =>
      HasList(e, "boards") && (|e["boards"].items| != 5 || exists i, j :: 0 <= i < j < 5 && SameField(e, i, j, "board_id"))
    case ContentRepeated => exists i, j :: 0 <= i < j < |BoardsOf(e)| && SameField(e, i, j, "sha256")
    case BoardReused => exists j, r, id :: 0 <= j < k && Reserves(c, ls[j], r) && id in BoardIds(r) && id in BoardIds(e)
    case _ => exists v :: v in BoardsOf(e) && BoardMisformed(c, ls, k, v, p)
  }

  predicate SameField(e: Entry, i: nat, j: nat, f: string) {
    i < |BoardsOf(e)| && j < |BoardsOf(e)| && BoardText(BoardsOf(e)[i], f) == BoardText(BoardsOf(e)[j], f)
  }

  lemma MissingIterationIs(e: Entry)
    ensures MissingIterationField(e).Some? ==> ReservationMisformed(e, MissingField(MissingIterationField(e).value))
  {
  }

  /** The part of the reader's check that looks at the lines above and at the boards. */
  function IterationPlaceProblem(c: Codec, st: State, e: Entry): Option<HistoryError> {
    if Chained(e) && Text(e, "prior_history_sha256") != c.sha(st.prefix) then Some(BrokenChain)
    else if Chained(e) && Text(e, "seed") != DeriveSeed(c, IdOf(e), c.sha(st.prefix), Text(e, "entropy")) then Some(WrongSeed)
    else if HasId(st.history.iterations, IdOf(e)) then Some(DuplicateIteration)
    else IterationBoardsProblem(st, e)
  }

  lemma IterationFormSteps(c: Codec, st: State, e: Entry, p: HistoryError)
    requires IterationProblem(c, st, e) == Some(p)
    ensures ReservationMisformed(e, p) || (HasList(e, "boards") && IterationPlaceProblem(c, st, e) == Some(p))
  {
    MissingIterationIs(e);
    HexIff(e, "entropy", 64);
    HexIff(e, "prior_history_sha256", 64);
    HexIff(e, "candidate_pool_sha256", 64);
    HexIff(e, "manifest_sha256", 64);
    HexIff(e, "tool_commit", 40);
  }

  lemma {:induction false} SomeBoard(vs: seq<Value>, seenSha: set<string>, p: HistoryError)
    requires BoardsProblem(vs, seenSha) == Some(p)
    ensures exists v :: v in vs && BoardProblem(v, seenSha) == Some(p)
  {
    if BoardProblem(vs[0], seenSha) != Some(p) {
      SomeBoard(vs[1..], seenSha, p);
    }
  }

  /** What the contents and identities seen so far come from. */
  ghost predicate UsedAbove(c: Codec, ls: seq<string>, k: nat, h: History)
    requires k <= |ls|
  {
    && (forall x :: x in h.seenSha256 ==> exists j, r :: 0 <= j < k && Reserves(c, ls[j], r) && x in BoardShas(r))
    && (forall x :: x in h.seenBoardIds ==> exists j, r :: 0 <= j < k && Reserves(c, ls[j], r) && x in BoardIds(r))
  }

  lemma GatheredUses(c: Codec, ls: seq<string>, k: nat, st: State)
    requires k <= |ls| && Gathered(c, ls, k, st)
    ensures UsedAbove(c, ls, k, st.history)
  {
    forall x | x in st.history.seenSha256
      ensures exists j, r :: 0 <= j < k && Reserves(c, ls[j], r) && x in BoardShas(r)
    {
      var r :| r in st.history.iterations && x in BoardShas(r);
      assert ReservedAbove(c, ls, k, r);
    }
    forall x | x in st.history.seenBoardIds
      ensures exists j, r :: 0 <= j < k && Reserves(c, ls[j], r) && x in BoardIds(r)
    {
      var r :| r in st.history.iterations && x in BoardIds(r);
      assert ReservedAbove(c, ls, k, r);
    }
  }

  lemma BoardRefusal(c: Codec, ls: seq<string>, k: nat, h: History, v: Value, p: HistoryError)
    requires k < |ls| && UsedAbove(c, ls, k, h) && BoardProblem(v, h.seenSha256) == Some(p)
    ensures BoardMisformed(c, ls, k, v, p)
  {
    if v.Obj? {
      HexIff(v.fields, "sha256", 64);
      StaysIff(Text(v.fields, "relative_path"));
      var id := Text(v.fields, "board_id");
      if |id| == 70 {
        HexDigits(id[6..]);
      }
    }
  }

  /** Fewer different texts than boards: two of them are one. */
  lemma TwoAlike(e: Entry, f: string)
    requires |SetOf(TextsOf(BoardsOf(e), f))| != |BoardsOf(e)|
    ensures exists i, j :: 0 <= i < j < |BoardsOf(e)| && SameField(e, i, j, f)
  {
    var texts := TextsOf(BoardsOf(e), f);
    DistinctIff(texts);
    var i, j :| 0 <= i < j < |texts| && texts[i] == texts[j];
    assert SameField(e, i, j, f);
  }

  lemma BoardsRefusal(c: Codec, ls: seq<string>, k: nat, st: State, e: Entry, p: HistoryError)
    requires k < |ls| && UsedAbove(c, ls, k, st.history) && HasList(e, "boards") && IterationBoardsProblem(st, e) == Some(p)
    ensures ReservationMisplaced(c, ls, k, e, p)
  {
    var boards := BoardsOf(e);
    if |boards| == 5 {
      if BoardsProblem(boards, st.history.seenSha256).Some? {
        SomeBoard(boards, st.history.seenSha256, p);
        var v :| v in boards && BoardProblem(v, st.history.seenSha256) == Some(p);
        BoardRefusal(c, ls, k, st.history, v, p);
      } else if |BoardIds(e)| != 5 {
        TwoAlike(e, "board_id");
      } else if |BoardShas(e)| != 5 {
        TwoAlike(e, "sha256");
      } else {
        var id :| id in BoardIds(e) * st.history.seenBoardIds;
      }
    }
  }

  lemma IterationRefusal(c: Codec, ls: seq<string>, k: nat, st: State, e: Entry, p: HistoryError)
    requires k < |ls| && st.prefix == Above(ls, k) && Reservations(c, ls, k, st.history.iterations) && UsedAbove(c, ls, k, st.history)
    requires HasList(e, "boards") && IterationPlaceProblem(c, st, e) == Some(p)
    ensures ReservationMisplaced(c, ls, k, e, p)
  {
    assert Chained(e) ==> SchemaTwo(e);
    if IterationBoardsProblem(st, e) == Some(p) {
      BoardsRefusal(c, ls, k, st, e, p);
    } else if HasId(st.history.iterations, IdOf(e)) {
      var r :| r in st.history.iterations && IdOf(r) == IdOf(e);
      assert ReservedAbove(c, ls, k, r);
    }
  }

  // ---------------------------------------------------------------------------------------------
  // The first line that does not fit
  // ---------------------------------------------------------------------------------------------

  /** What the refusal says of line `k` is so. */
  ghost predicate Amiss(c: Codec, ls: seq<string>, k: nat, p: HistoryError)
    requires k < |ls|
  {
    var decoded := c.decode(StripNewlines(ls[k]));
    match p
    case InvalidJson => decoded.None?
    case NotAnObject => decoded.Some? && !decoded.value.Obj?
    case _ =>
      exists e :: Holds(c, ls[k], e) &&
        if Says(e, "record_type", "result") then ResultMisformed(e, p) || ResultMisplaced(c, ls, k, e, p)
        else ReservationMisformed(e, p) || ReservationMisplaced(c, ls, k, e, p)
  }

  lemma EntryRefusal(c: Codec, ls: seq<string>, k: nat, st: State, e: Entry, p: HistoryError)
    requires k < |ls| && st.prefix == Above(ls, k) && Reservations(c, ls, k, st.history.iterations)
    requires Results(c, ls, k, st.history.results) && UsedAbove(c, ls, k, st.history)
    requires (if IsResult(e) then ResultProblem(c, st, e) else IterationProblem(c, st, e)) == Some(p)
    ensures if IsResult(e) then ResultMisformed(e, p) || ResultMisplaced(c, ls, k, e, p)
            else ReservationMisformed(e, p) || ReservationMisplaced(c, ls, k, e, p)
  {
    if IsResult(e) {
      ResultFormSteps(c, st, e, p);
      if !ResultMisformed(e, p) {
        ResultRefusal(c, ls, k, st, e, p, FindIteration(st.history.iterations, IdOf(e)));
      }
    } else {
      IterationFormSteps(c, st, e, p);
      if !ReservationMisformed(e, p) {
        IterationRefusal(c, ls, k, st, e, p);
      }
    }
  }

  lemma LineRefusal(c: Codec, ls: seq<string>, k: nat, st: State, p: HistoryError)
    requires k < |ls| && Gathered(c, ls, k, st) && ReadLine(c, st, ls[k]) == Err(p)
    ensures Amiss(c, ls, k, p)
  {
    var raw := StripNewlines(ls[k]);
    GatheredLists(c, ls, k, st);
    GatheredUses(c, ls, k, st);
    if c.decode(raw).Some? && c.decode(raw).value.Obj? {
      var e := c.decode(raw).value.fields;
      assert Holds(c, ls[k], e);
      ResultIff(e);
      EntryRefusal(c, ls, k, st, e, p);
    }
  }

  lemma {:induction false} FirstRefused(c: Codec, ls: seq<string>, n: nat, p: HistoryError) returns (k: nat, st: State)
    requires n <= |ls| && ReadTo(c, ls, n) == Err(p)
    ensures k < n && ReadTo(c, ls, k) == Ok(st) && ReadLine(c, st, ls[k]) == Err(p)
  {
    if n == 0 {
      KnowsNothing(c, ls);
      assert false;
    } else {
      assert ls[..n] == ls[..n - 1] + [ls[n - 1]];
      ReadLinesAppend(c, START, ls[..n - 1], ls[n - 1]);
      match ReadTo(c, ls, n - 1)
      case Err(q) => k, st := FirstRefused(c, ls, n - 1, p);
      case Ok(before) => k, st := n - 1, before;
    }
  }

  /** A text that does not read back is refused for its first line that does not fit, and what the refusal says of it is so. */
  lemma RefusalIsSo(c: Codec, text: string, p: HistoryError) returns (k: nat)
    requires ParseSpec(c, text) == Err(p)
    ensures k < |Lines(text)| && AllFit(c, Lines(text), k) && !Fits(c, Lines(text), k) && Amiss(c, Lines(text), k, p)
  {
    var ls, st := Lines(text), START;
    assert ls[..|ls|] == ls;
    k, st := FirstRefused(c, ls, |ls|, p);
    PrefixIff(c, ls, k);
    KnowsOneMore(c, ls, k, st, Err(p));
    LineRefusal(c, ls, k, st, p);
  }
}
