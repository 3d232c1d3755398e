/** What the ledger's two operations keep, and what any ledger that reads back guarantees. */
module LedgerProofs {
  import opened Wrappers
  import opened Sequences
  import opened Json
  import opened Selection
  import opened Ledger

  // ---------------------------------------------------------------------------------------------
  // Reading what was appended
  // ---------------------------------------------------------------------------------------------

  lemma {:induction false} ReadLinesAppend(c: Codec, st: State, ls: seq<string>, l: string)
    ensures ReadLines(c, st, ls + [l]) ==
            match ReadLines(c, st, ls)
            case Err(p) => Err(p)
            case Ok(st') => ReadLine(c, st', l)
    decreases |ls|
  {
    if ls == [] {
      assert ls + [l] == [l];
      assert [l][1..] == [];
    } else {
      assert (ls + [l])[0] == ls[0] && (ls + [l])[1..] == ls[1..] + [l];
      if ReadLine(c, st, ls[0]).Ok? {
        ReadLinesAppend(c, ReadLine(c, st, ls[0]).value, ls[1..], l);
      }
    }
  }

  function Concat(ls: seq<string>): string {
    if ls == [] then "" else ls[0] + Concat(ls[1..])
  }

  lemma {:induction false} LinesConcat(t: string)
    ensures Concat(Lines(t)) == t
    decreases |t|
  {
    if t != "" {
      LinesConcat(t[LineEnd(t)..]);
      var ls := Lines(t);
      assert ls[1..] == Lines(t[LineEnd(t)..]);
    }
  }

  lemma {:induction false} ReadPrefix(c: Codec, st: State, ls: seq<string>)
    requires ReadLines(c, st, ls).Ok?
    ensures ReadLines(c, st, ls).value.prefix == st.prefix + Concat(ls)
    decreases |ls|
  {
    if ls != [] {
      ReadPrefix(c, ReadLine(c, st, ls[0]).value, ls[1..]);
      assert ReadLine(c, st, ls[0]).value.prefix == st.prefix + ls[0];
      assert st.prefix + ls[0] + Concat(ls[1..]) == st.prefix + (ls[0] + Concat(ls[1..]));
    }
  }

  /** The state after reading a whole text, its prefix being the text itself. */
  lemma StateAfter(c: Codec, text: string) returns (st: State)
    requires ParseSpec(c, text).Ok?
    ensures ReadLines(c, START, Lines(text)) == Ok(st)
    ensures st.history == ParseSpec(c, text).value && st.prefix == text
  {
    st := ReadLines(c, START, Lines(text)).value;
    ReadPrefix(c, START, Lines(text));
    LinesConcat(text);
  }

  /** An appended entry is read back against the state of everything before it. */
  lemma ReadAppended(c: Codec, text: string, e: Entry)
    requires GoodCodec(c) && WholeLines(text)
    ensures WholeLines(text + LineOf(c, e))
    ensures ParseSpec(c, text).Err? ==> ParseSpec(c, text + LineOf(c, e)).Err?
    ensures ParseSpec(c, text).Ok? ==>
              var st := State(ParseSpec(c, text).value, text);
              var problem := if IsResult(e) then ResultProblem(c, st, e) else IterationProblem(c, st, e);
              ParseSpec(c, text + LineOf(c, e)) ==
                match problem
                case Some(p) => Err(p)
                case None => Ok((if IsResult(e) then AddResult(st, e, "") else AddIteration(st, e, "")).history)
  {
    var l := c.encode(Obj(e));
    assert c.decode(l) == Some(Obj(e)) && NoNewline(l) && !Blank(l);
    LinesAppend(text, l);
    assert text + LineOf(c, e) == text + l + "\n";
    StripsToLine(l);
    ReadLinesAppend(c, START, Lines(text), l + "\n");
    if ParseSpec(c, text).Ok? {
      var st := StateAfter(c, text);
    }
  }

  // ---------------------------------------------------------------------------------------------
  // A reservation
  // ---------------------------------------------------------------------------------------------

  /** A board whose record the ledger reads back: hex identities, no empty fact, a safe path. */
  predicate WellFormed(b: Candidate) {
    && IsBoardId(b.boardId) && Hex(b.sha256, 64)
    && b.sourceId != "" && b.revision != "" && b.inputFormat != "" && b.relativePath != ""
    && SafePath(b.relativePath)
  }

  lemma BoardRecordProblem(b: Candidate, firmwareSha: string, seenSha: set<string>)
    ensures BoardProblem(Obj(BoardRecord(b, firmwareSha)), seenSha).None? <==> WellFormed(b) && b.sha256 !in seenSha
  {
    var r := BoardRecord(b, firmwareSha);
    assert Text(r, "board_id") == b.boardId && Text(r, "sha256") == b.sha256 && Text(r, "source_id") == b.sourceId;
    assert Text(r, "revision") == b.revision && Text(r, "relative_path") == b.relativePath && Text(r, "input_format") == b.inputFormat;
  }

  lemma {:induction false} BoardsProblemIs(vs: seq<Value>, seenSha: set<string>)
    ensures BoardsProblem(vs, seenSha).None? <==> forall i :: 0 <= i < |vs| ==> BoardProblem(vs[i], seenSha).None?
    decreases |vs|
  {
    if vs != [] {
      BoardsProblemIs(vs[1..], seenSha);
      forall i | 0 < i < |vs|
        ensures vs[i] == vs[1..][i - 1]
      {
      }
    }
  }

  function Ids(bs: seq<Candidate>): set<string> {
    set b | b in bs :: b.boardId
  }

  function Shas(bs: seq<Candidate>): set<string> {
    set b | b in bs :: b.sha256
  }

  lemma RecordNames(b: Candidate, firmwareSha: string)
    ensures BoardText(Obj(BoardRecord(b, firmwareSha)), "board_id") == b.boardId
    ensures BoardText(Obj(BoardRecord(b, firmwareSha)), "sha256") == b.sha256
  {
  }

  lemma RecordSets(selected: seq<Candidate>, disk: Disk, e: Entry)
    requires BoardRecords(selected, disk) == Some(BoardsOf(e)) && DistinctContent(selected)
    ensures BoardIds(e) == Ids(selected) && |BoardIds(e)| == |selected|
    ensures BoardShas(e) == Shas(selected) && |BoardShas(e)| == |selected|
  {
    var ids, shas := TextsOf(BoardsOf(e), "board_id"), TextsOf(BoardsOf(e), "sha256");
    forall i | 0 <= i < |selected|
      ensures ids[i] == selected[i].boardId && shas[i] == selected[i].sha256
    {
      RecordNames(selected[i], disk.firmwareSha(selected[i]).value);
    }
    MembersMatch(ids, selected, (b: Candidate) => b.boardId);
    MembersMatch(shas, selected, (b: Candidate) => b.sha256);
    DistinctLength(ids, BoardIds(e));
    DistinctLength(shas, BoardShas(e));
  }

  lemma MembersMatch(xs: seq<string>, bs: seq<Candidate>, f: Candidate -> string)
    requires |xs| == |bs| && forall i :: 0 <= i < |bs| ==> xs[i] == f(bs[i])
    ensures SetOf(xs) == set b | b in bs :: f(b)
  {
    forall x
      ensures x in xs <==> exists b :: b in bs && f(b) == x
    {
      if x in xs {
        var i :| 0 <= i < |xs| && xs[i] == x;
        assert bs[i] in bs;
      }
      if b :| b in bs && f(b) == x {
        var i :| 0 <= i < |bs| && bs[i] == b;
        assert xs[i] == x;
      }
    }
  }

  lemma RecordsProblem(selected: seq<Candidate>, disk: Disk, boards: seq<Value>, seenIds: set<string>, seenSha: set<string>)
    requires BoardRecords(selected, disk) == Some(boards)
    requires forall b :: b in selected ==> Unseen(b, seenIds, seenSha)
    ensures BoardsProblem(boards, seenSha).None? <==> forall b :: b in selected ==> WellFormed(b)
  {
    BoardsProblemIs(boards, seenSha);
    forall i | 0 <= i < |selected|
      ensures BoardProblem(boards[i], seenSha).None? <==> WellFormed(selected[i])
    {
      assert selected[i] in selected;
      BoardRecordProblem(selected[i], disk.firmwareSha(selected[i]).value, seenSha);
    }
    if BoardsProblem(boards, seenSha).None? {
      forall b | b in selected
        ensures WellFormed(b)
      {
        var i :| 0 <= i < |selected| && selected[i] == b;
        assert BoardProblem(boards[i], seenSha).None?;
      }
    }
  }

  /** The records of distinct, unseen boards are accepted exactly when each board is well formed. */
  lemma ReservedBoardsProblem(st: State, e: Entry, selected: seq<Candidate>, disk: Disk)
    requires BoardRecords(selected, disk) == Some(BoardsOf(e))
    requires |selected| == ITERATION_BOARDS && DistinctContent(selected)
    requires forall b :: b in selected ==> Unseen(b, st.history.seenBoardIds, st.history.seenSha256)
    ensures IterationBoardsProblem(st, e).None? <==> forall b :: b in selected ==> WellFormed(b)
  {
    RecordSets(selected, disk, e);
    RecordsProblem(selected, disk, BoardsOf(e), st.history.seenBoardIds, st.history.seenSha256);
    assert BoardIds(e) * st.history.seenBoardIds == {};
  }

  /** The fields of a composed reservation. */
  ghost predicate ReservationFacts(e: Entry, p: Plan, seed: string, prior: string, count: nat, pool: string, boards: seq<Value>) {
    && !IsResult(e) && Chained(e) && BoardsOf(e) == boards && IsList(e, "boards")
    && IdOf(e) == p.iterationId && IsStr(e, "iteration_id")
    && Text(e, "planned_at") == p.plannedAt && IsStr(e, "planned_at")
    && Text(e, "seed") == seed && IsStr(e, "seed")
    && Text(e, "entropy") == p.entropy && IsStr(e, "entropy")
    && Text(e, "prior_history_sha256") == prior && IsStr(e, "prior_history_sha256")
    && Text(e, "status") == "planned" && IsStr(e, "status")
    && Field(e, "selector_version") == Int(SELECTOR_VERSION) && IsInt(e, "selector_version")
    && Field(e, "candidate_count") == Int(count) && IsInt(e, "candidate_count")
    && Text(e, "candidate_pool_sha256") == pool && IsStr(e, "candidate_pool_sha256")
    && Text(e, "manifest_sha256") == p.manifestSha256 && IsStr(e, "manifest_sha256")
    && Text(e, "tool_commit") == p.toolCommit && IsStr(e, "tool_commit")
  }

  lemma ReservationFields(p: Plan, seed: string, prior: string, count: nat, pool: string, boards: seq<Value>)
    ensures ReservationFacts(ReservationEntry(p, seed, prior, count, pool, boards), p, seed, prior, count, pool, boards)
  {
  }

  /** With every digest in place, such an entry is refused only for its date or for its boards. */
  lemma OnlyDateOrBoards(c: Codec, st: State, e: Entry, p: Plan, seed: string, count: nat, pool: string, boards: seq<Value>)
    requires ReservationFacts(e, p, seed, c.sha(st.prefix), count, pool, boards)
    requires p.iterationId != "" && Hex(p.entropy, 64) && Hex(p.manifestSha256, 64) && Hex(p.toolCommit, 40)
    requires Hex(c.sha(st.prefix), 64) && Hex(seed, 64) && Hex(pool, 64) && count >= ITERATION_BOARDS
    requires seed == DeriveSeed(c, p.iterationId, c.sha(st.prefix), p.entropy)
    requires !HasId(st.history.iterations, p.iterationId)
    ensures IterationProblem(c, st, e).None? <==> p.plannedAt != "" && IterationBoardsProblem(st, e).None?
  {
    assert MissingIterationField(e).None? <==> p.plannedAt != "";
  }

  /** The boards a composed reservation drew, and what drawing them guarantees. */
  lemma ReservedBoards(c: Codec, history: History, prior: string, cs: seq<Candidate>, disk: Disk, p: Plan)
    returns (selected: seq<Candidate>)
    requires ReserveOn(c, history, prior, cs, disk, p).Ok?
    ensures Consistent(cs) && BoardRecords(selected, disk).Some? && disk.pool(cs).Some?
    ensures var seed := DeriveSeed(c, p.iterationId, prior, p.entropy);
            && SelectSpec(Index(cs), history.seenBoardIds, history.seenSha256, ITERATION_BOARDS, RankFor(c, seed)) == Ok(selected)
            && ReserveOn(c, history, prior, cs, disk, p) ==
               Ok(ReservationEntry(p, seed, prior, |Index(cs)|, c.sha(disk.pool(cs).value), BoardRecords(selected, disk).value))
    ensures |selected| == ITERATION_BOARDS && DistinctContent(selected)
    ensures forall b :: b in selected ==> b in cs && Unseen(b, history.seenBoardIds, history.seenSha256)
    ensures |Index(cs)| >= ITERATION_BOARDS
    ensures !HasId(history.iterations, p.iterationId)
  {
    var seed := DeriveSeed(c, p.iterationId, prior, p.entropy);
    selected := SelectSpec(Index(cs), history.seenBoardIds, history.seenSha256, ITERATION_BOARDS, RankFor(c, seed)).value;
    IndexIsIndex(cs);
    SelectionIsUnseen(cs, Index(cs), history.seenBoardIds, history.seenSha256, ITERATION_BOARDS, RankFor(c, seed));
    CountIds(selected);
    SubsetSize(Ids(selected), Index(cs).Keys);
  }

  lemma CountIds(bs: seq<Candidate>)
    requires DistinctContent(bs)
    ensures |Ids(bs)| == |bs|
  {
    var ids := seq(|bs|, i requires 0 <= i < |bs| => bs[i].boardId);
    MembersMatch(ids, bs, (b: Candidate) => b.boardId);
    DistinctLength(ids, Ids(bs));
  }

  /** Whether a composed entry reads back. */
  lemma ReservationProblem(c: Codec, text: string, history: History, e: Entry, p: Plan, count: nat, pool: string,
                           selected: seq<Candidate>, disk: Disk)
    requires GoodCodec(c) && PlanProblem(p).None? && count >= ITERATION_BOARDS && Hex(pool, 64)
    requires BoardRecords(selected, disk).Some? && |selected| == ITERATION_BOARDS && DistinctContent(selected)
    requires forall b :: b in selected ==> Unseen(b, history.seenBoardIds, history.seenSha256)
    requires !HasId(history.iterations, p.iterationId)
    requires ReservationFacts(e, p, DeriveSeed(c, p.iterationId, c.sha(text), p.entropy), c.sha(text), count, pool,
                              BoardRecords(selected, disk).value)
    ensures BoardIds(e) == Ids(selected) && BoardShas(e) == Shas(selected)
    ensures IterationProblem(c, State(history, text), e).None? <==>
            p.plannedAt != "" && forall b :: b in selected ==> WellFormed(b)
  {
    var prior, boards := c.sha(text), BoardRecords(selected, disk).value;
    var seed := DeriveSeed(c, p.iterationId, prior, p.entropy);
    assert Hex(prior, 64) && Hex(seed, 64);
    OnlyDateOrBoards(c, State(history, text), e, p, seed, count, pool, boards);
    RecordSets(selected, disk, e);
    ReservedBoardsProblem(State(history, text), e, selected, disk);
  }

  /**
    A reservation appended to a ledger that reads back leaves one that reads back exactly when it was
    dated and every board it drew is well formed.
   */
  lemma ReserveKeepsLedgerIff(c: Codec, text: string, cs: seq<Candidate>, disk: Disk, p: Plan) returns (selected: seq<Candidate>)
    requires GoodCodec(c) && WholeLines(text) && ReserveSpec(c, text, cs, disk, p).Ok?
    ensures ParseSpec(c, text).Ok? && Consistent(cs)
    ensures var history, e := ParseSpec(c, text).value, ReserveSpec(c, text, cs, disk, p).value;
            var text' := text + LineOf(c, e);
            && WholeLines(text') && !IsResult(e) && IdOf(e) == p.iterationId && !HasId(history.iterations, p.iterationId)
            && |selected| == ITERATION_BOARDS
            && (forall b :: b in selected ==> b in cs && Unseen(b, history.seenBoardIds, history.seenSha256))
            && BoardIds(e) == Ids(selected) && BoardShas(e) == Shas(selected)
            && (ParseSpec(c, text').Ok? <==> p.plannedAt != "" && forall b :: b in selected ==> WellFormed(b))
            && (ParseSpec(c, text').Ok? ==>
                  ParseSpec(c, text').value == AddIteration(State(history, text), e, "").history)
  {
    var history, e := ParseSpec(c, text).value, ReserveSpec(c, text, cs, disk, p).value;
    selected := ReservedBoards(c, history, c.sha(text), cs, disk, p);
    var count, pool, boards := |Index(cs)|, c.sha(disk.pool(cs).value), BoardRecords(selected, disk).value;
    var seed := DeriveSeed(c, p.iterationId, c.sha(text), p.entropy);
    assert ReservationFacts(e, p, seed, c.sha(text), count, pool, boards) by {
      ReservationFields(p, seed, c.sha(text), count, pool, boards);
    }
    assert Hex(pool, 64);
    ReservationProblem(c, text, history, e, p, count, pool, selected, disk);
    ReadAppended(c, text, e);
  }

  /** The fields of a composed result. */
  ghost predicate ResultFacts(e: Entry, t: Terminal, prior: string, shas: seq<Value>) {
    && IsResult(e) && IsStr(e, "record_type")
    && NumberIs(Field(e, "schema_version"), 2) && IsInt(e, "schema_version")
    && IdOf(e) == t.iterationId && IsStr(e, "iteration_id") && IsStr(e, "recorded_at")
    && Text(e, "status") == t.status && IsStr(e, "status")
    && Text(e, "prior_history_sha256") == prior && IsStr(e, "prior_history_sha256")
    && Text(e, "evidence_sha256") == t.evidenceSha256 && IsStr(e, "evidence_sha256")
    && SafePath(Text(e, "evidence_file")) && IsStr(e, "evidence_file")
    && Text(e, "tool_commit") == t.toolCommit && IsStr(e, "tool_commit")
    && Field(e, "board_sha256s") == Arr(shas) && IsList(e, "board_sha256s")
  }

  lemma ResultFields(t: Terminal, prior: string, shas: seq<Value>)
    requires SafePath(t.evidenceFile)
    ensures var e := ResultEntry(t.iterationId, t.recordedAt, t.status, prior, t.evidenceSha256, PosixForm(t.evidenceFile),
                                 t.toolCommit, shas);
            ResultFacts(e, t, prior, shas) && Text(e, "evidence_file") == PosixForm(t.evidenceFile)
  {
    PosixFormKeepsParts(t.evidenceFile);
  }

  lemma ResultHasNoProblem(c: Codec, st: State, e: Entry, t: Terminal, reservation: Entry)
    requires ResultFacts(e, t, c.sha(st.prefix), ShaList(reservation))
    requires t.status == "completed" || t.status == "failed"
    requires Hex(t.evidenceSha256, 64) && Hex(t.toolCommit, 40) && Hex(c.sha(st.prefix), 64)
    requires FindIteration(st.history.iterations, t.iterationId) == Some(reservation)
    requires !HasId(st.history.results, t.iterationId)
    ensures ResultProblem(c, st, e).None?
  {
    assert MissingResultField(e).None?;
  }

  /** A terminal result appended to a ledger that reads back always leaves one that reads back. */
  lemma AppendKeepsLedger(c: Codec, text: string, t: Terminal)
    requires GoodCodec(c) && WholeLines(text) && AppendSpec(c, text, t).Ok?
    ensures ParseSpec(c, text).Ok?
    ensures var history, e := ParseSpec(c, text).value, AppendSpec(c, text, t).value;
            var text' := text + LineOf(c, e);
            && WholeLines(text') && IdOf(e) == t.iterationId && IsResult(e)
            && HasId(history.iterations, t.iterationId) && !HasId(history.results, t.iterationId)
            && ParseSpec(c, text') == Ok(AddResult(State(history, text), e, "").history)
  {
    var history, e := ParseSpec(c, text).value, AppendSpec(c, text, t).value;
    var reservation := FindIteration(history.iterations, t.iterationId).value;
    assert ResultFacts(e, t, c.sha(text), ShaList(reservation)) by {
      ResultFields(t, c.sha(text), ShaList(reservation));
    }
    assert Hex(c.sha(text), 64);
    ResultHasNoProblem(c, State(history, text), e, t, reservation);
    ReadAppended(c, text, e);
  }

  // ---------------------------------------------------------------------------------------------
  // What a ledger that reads back guarantees
  // ---------------------------------------------------------------------------------------------

  /** No board and no content is in two reservations; no iteration is reserved or closed twice. */
  ghost predicate Sound(h: History) {
    && (forall i :: 0 <= i < |h.iterations| ==>
          && |BoardIds(h.iterations[i])| == |BoardShas(h.iterations[i])| == ITERATION_BOARDS
          && BoardIds(h.iterations[i]) <= h.seenBoardIds && BoardShas(h.iterations[i]) <= h.seenSha256)
    && (forall i, j :: 0 <= i < j < |h.iterations| ==>
          && BoardIds(h.iterations[i]) !! BoardIds(h.iterations[j])
          && BoardShas(h.iterations[i]) !! BoardShas(h.iterations[j])
          && IdOf(h.iterations[i]) != IdOf(h.iterations[j]))
    && (forall i, j :: 0 <= i < j < |h.results| ==> IdOf(h.results[i]) != IdOf(h.results[j]))
    && (forall i :: 0 <= i < |h.results| ==> HasId(h.iterations, IdOf(h.results[i])))
  }

  lemma {:induction false} BoardShasUnseen(vs: seq<Value>, seenSha: set<string>)
    requires BoardsProblem(vs, seenSha).None?
    ensures SetOf(TextsOf(vs, "sha256")) !! seenSha
  {
    BoardsProblemIs(vs, seenSha);
    var ts := TextsOf(vs, "sha256");
    forall x | x in ts
      ensures x !in seenSha
    {
      var i :| 0 <= i < |ts| && ts[i] == x;
      assert BoardProblem(vs[i], seenSha).None?;
    }
  }

  lemma ReadLineKeepsSound(c: Codec, st: State, line: string)
    requires Sound(st.history) && ReadLine(c, st, line).Ok?
    ensures Sound(ReadLine(c, st, line).value.history)
  {
    if !Blank(StripNewlines(line)) {
      var e := c.decode(StripNewlines(line)).value.fields;
      if IsResult(e) {
        ResultFindsReservation(c, st, e);
        ResultKeepsSound(st.history, e);
      } else {
        IterationIsFresh(c, st, e);
        IterationKeepsSound(st.history, e);
      }
    }
  }

  lemma ResultFindsReservation(c: Codec, st: State, e: Entry)
    requires ResultProblem(c, st, e).None?
    ensures HasId(st.history.iterations, IdOf(e)) && !HasId(st.history.results, IdOf(e))
  {
  }

  lemma ResultKeepsSound(h: History, e: Entry)
    requires Sound(h) && HasId(h.iterations, IdOf(e)) && !HasId(h.results, IdOf(e))
    ensures Sound(History(h.iterations, h.seenBoardIds, h.seenSha256, h.results + [e]))
  {
    forall i | 0 <= i < |h.results|
      ensures IdOf(h.results[i]) != IdOf(e)
    {
      assert h.results[i] in h.results;
    }
  }

  lemma IterationIsFresh(c: Codec, st: State, e: Entry)
    requires IterationProblem(c, st, e).None?
    ensures !HasId(st.history.iterations, IdOf(e))
    ensures |BoardIds(e)| == |BoardShas(e)| == ITERATION_BOARDS
    ensures BoardIds(e) !! st.history.seenBoardIds && BoardShas(e) !! st.history.seenSha256
  {
    assert IterationBoardsProblem(st, e).None?;
    BoardShasUnseen(BoardsOf(e), st.history.seenSha256);
    forall x | x in BoardIds(e)
      ensures x !in st.history.seenBoardIds
    {
      assert x !in BoardIds(e) * st.history.seenBoardIds;
    }
  }

  lemma IterationKeepsSound(h: History, e: Entry)
    requires Sound(h) && !HasId(h.iterations, IdOf(e))
    requires |BoardIds(e)| == |BoardShas(e)| == ITERATION_BOARDS
    requires BoardIds(e) !! h.seenBoardIds && BoardShas(e) !! h.seenSha256
    ensures Sound(History(h.iterations + [e], h.seenBoardIds + BoardIds(e), h.seenSha256 + BoardShas(e), h.results))
  {
    var its := h.iterations + [e];
    forall i, j | 0 <= i < j < |its|
      ensures BoardIds(its[i]) !! BoardIds(its[j]) && BoardShas(its[i]) !! BoardShas(its[j]) && IdOf(its[i]) != IdOf(its[j])
    {
      if j == |h.iterations| {
        FreshAfter(h, e, i);
      }
    }
    forall i | 0 <= i < |h.results|
      ensures HasId(its, IdOf(h.results[i]))
    {
      IdStays(h.iterations, e, IdOf(h.results[i]));
    }
  }

  /** A fresh reservation shares nothing with an earlier one. */
  lemma FreshAfter(h: History, e: Entry, i: nat)
    requires Sound(h) && !HasId(h.iterations, IdOf(e)) && i < |h.iterations|
    requires BoardIds(e) !! h.seenBoardIds && BoardShas(e) !! h.seenSha256
    ensures BoardIds(h.iterations[i]) !! BoardIds(e) && BoardShas(h.iterations[i]) !! BoardShas(e)
    ensures IdOf(h.iterations[i]) != IdOf(e)
  {
    assert h.iterations[i] in h.iterations;
  }

  lemma IdStays(es: seq<Entry>, e: Entry, id: string)
    requires HasId(es, id)
    ensures HasId(es + [e], id)
  {
    var x :| x in es && IdOf(x) == id;
    assert x in es + [e];
  }

  lemma {:induction false} ReadLinesKeepsSound(c: Codec, st: State, ls: seq<string>)
    requires Sound(st.history) && ReadLines(c, st, ls).Ok?
    ensures Sound(ReadLines(c, st, ls).value.history)
    decreases |ls|
  {
    if ls != [] {
      ReadLineKeepsSound(c, st, ls[0]);
      ReadLinesKeepsSound(c, ReadLine(c, st, ls[0]).value, ls[1..]);
    }
  }

  /** Any ledger that reads back, however it came about, is sound. */
  lemma ReadableLedgerIsSound(c: Codec, text: string)
    requires ParseSpec(c, text).Ok?
    ensures Sound(ParseSpec(c, text).value)
  {
    ReadLinesKeepsSound(c, START, Lines(text));
  }

  /** The entry a line holds. */
  ghost predicate Holds(c: Codec, line: string, e: Entry) {
    var raw := StripNewlines(line);
    !Blank(raw) && c.decode(raw) == Some(Obj(e))
  }

  lemma {:induction false} IterationsComeFromLines(c: Codec, st: State, ls: seq<string>, e: Entry)
    requires ReadLines(c, st, ls).Ok? && e in ReadLines(c, st, ls).value.history.iterations && e !in st.history.iterations
    ensures exists j :: 0 <= j < |ls| && Holds(c, ls[j], e) && !IsResult(e)
    decreases |ls|
  {
    if ls != [] {
      var st1 := ReadLine(c, st, ls[0]).value;
      if e in st1.history.iterations {
        assert Holds(c, ls[0], e) && !IsResult(e);
      } else {
        IterationsComeFromLines(c, st1, ls[1..], e);
        var j :| 0 <= j < |ls[1..]| && Holds(c, ls[1..][j], e) && !IsResult(e);
        assert ls[j + 1] == ls[1..][j];
      }
    }
  }

  lemma {:induction false} ReadLinesSplit(c: Codec, st: State, ls: seq<string>, k: nat)
    requires k <= |ls| && ReadLines(c, st, ls).Ok?
    ensures ReadLines(c, st, ls[..k]).Ok?
    ensures ReadLines(c, ReadLines(c, st, ls[..k]).value, ls[k..]) == ReadLines(c, st, ls)
    decreases k
  {
    if k > 0 {
      assert ls[..k][0] == ls[0] && ls[..k][1..] == ls[1..][..k - 1] && ls[k..] == ls[1..][k - 1..];
      ReadLinesSplit(c, ReadLine(c, st, ls[0]).value, ls[1..], k - 1);
    } else {
      assert ls[0..] == ls;
    }
  }

  /** In a ledger that reads back, every result stands below the reservation it closes. */
  lemma ResultFollowsReservation(c: Codec, text: string, k: nat, r: Entry)
    requires ParseSpec(c, text).Ok? && k < |Lines(text)| && Holds(c, Lines(text)[k], r) && IsResult(r)
    ensures exists j, e :: 0 <= j < k && Holds(c, Lines(text)[j], e) && !IsResult(e) && IdOf(e) == IdOf(r)
  {
    var ls := Lines(text);
    ReadLinesSplit(c, START, ls, k);
    var st := ReadLines(c, START, ls[..k]).value;
    assert ls[k..][0] == ls[k];
    assert ResultProblem(c, st, r).None?;
    var e := FindIteration(st.history.iterations, IdOf(r)).value;
    IterationsComeFromLines(c, START, ls[..k], e);
    var j :| 0 <= j < |ls[..k]| && Holds(c, ls[..k][j], e) && !IsResult(e);
    assert Holds(c, ls[j], e);
  }

  // ---------------------------------------------------------------------------------------------
  // Every run
  // ---------------------------------------------------------------------------------------------

  datatype Op = Reserve(cs: seq<Candidate>, disk: Disk, plan: Plan) | Close(terminal: Terminal)

  /** A dated reservation out of well-formed candidates. */
  predicate Orderly(op: Op) {
    op.Reserve? ==> op.plan.plannedAt != "" && forall b :: b in op.cs ==> WellFormed(b)
  }

  /** The ledger after one operation; a refused one writes nothing. */
  ghost function Step(c: Codec, text: string, op: Op): string {
    match op
    case Reserve(cs, disk, p) =>
      (match ReserveSpec(c, text, cs, disk, p)
       case Ok(e) => text + LineOf(c, e)
       case Err(_) => text)
    case Close(t) =>
      (match AppendSpec(c, text, t)
       case Ok(e) => text + LineOf(c, e)
       case Err(_) => text)
  }

  ghost function Run(c: Codec, text: string, ops: seq<Op>): string
    decreases |ops|
  {
    if ops == [] then text else Run(c, Step(c, text, ops[0]), ops[1..])
  }

  lemma StepKeepsLedger(c: Codec, text: string, op: Op)
    requires GoodCodec(c) && WholeLines(text) && ParseSpec(c, text).Ok? && Orderly(op)
    ensures WholeLines(Step(c, text, op)) && ParseSpec(c, Step(c, text, op)).Ok?
    ensures text <= Step(c, text, op)
  {
    match op
    case Reserve(cs, disk, p) =>
      if ReserveSpec(c, text, cs, disk, p).Ok? {
        var selected := ReserveKeepsLedgerIff(c, text, cs, disk, p);
      }
    case Close(t) =>
      if AppendSpec(c, text, t).Ok? {
        AppendKeepsLedger(c, text, t);
      }
  }

  lemma {:induction false} RunKeepsLedger(c: Codec, text: string, ops: seq<Op>)
    requires GoodCodec(c) && WholeLines(text) && ParseSpec(c, text).Ok?
    requires forall op :: op in ops ==> Orderly(op)
    ensures WholeLines(Run(c, text, ops)) && ParseSpec(c, Run(c, text, ops)).Ok?
    ensures text <= Run(c, text, ops)
    decreases |ops|
  {
    if ops != [] {
      StepKeepsLedger(c, text, ops[0]);
      forall op | op in ops[1..]
        ensures Orderly(op)
      {
        assert op in ops;
      }
      RunKeepsLedger(c, Step(c, text, ops[0]), ops[1..]);
    }
  }

  /**
    Built from nothing by any run of the two operations, the ledger reads back; no board or content is
    reserved twice, no iteration closed twice, and every longer run only appends.
   */
  lemma EveryRunReadsBack(c: Codec, ops: seq<Op>, more: seq<Op>)
    requires GoodCodec(c) && forall op :: op in ops + more ==> Orderly(op)
    ensures ParseSpec(c, Run(c, "", ops)).Ok? && Sound(ParseSpec(c, Run(c, "", ops)).value)
    ensures Run(c, "", ops) <= Run(c, Run(c, "", ops), more)
  {
    assert forall op :: op in ops ==> op in ops + more;
    assert forall op :: op in more ==> op in ops + more;
    assert ReadLines(c, START, Lines("")) == Ok(START);
    RunKeepsLedger(c, "", ops);
    RunKeepsLedger(c, Run(c, "", ops), more);
    ReadableLedgerIsSound(c, Run(c, "", ops));
  }
}
