/** A ledger reads back exactly when each of its lines fits the lines above it. */
module LedgerMeaning {
  import opened Wrappers
  import opened Sequences
  import opened Order
  import opened Json
  import opened Selection
  import opened Ledger
  import opened LedgerProofs

  // ---------------------------------------------------------------------------------------------
  // What a line says
  // ---------------------------------------------------------------------------------------------

  predicate HasText(e: Entry, f: string) {
    f in e && e[f].Str?
  }

  predicate HasWords(e: Entry, f: string) {
    f in e && e[f].Str? && e[f].s != ""
  }

  predicate HasDigest(e: Entry, f: string, n: nat) {
    f in e && e[f].Str? && |e[f].s| == n && forall c :: c in e[f].s ==> c in "0123456789abcdef"
  }

  predicate Says(e: Entry, f: string, words: string) {
    f in e && e[f] == Str(words)
  }

  /** The line holds a reservation, or any entry that is no result. */
  ghost predicate Reserves(c: Codec, line: string, e: Entry) {
    Holds(c, line, e) && !Says(e, "record_type", "result")
  }

  ghost predicate Closes(c: Codec, line: string, e: Entry) {
    Holds(c, line, e) && Says(e, "record_type", "result")
  }

  /** Everything above line `k`. */
  ghost function Above(ls: seq<string>, k: nat): string
    requires k <= |ls|
  {
    Concat(ls[..k])
  }

  /** Two dots at `i`, with slashes or the path's ends around them. */
  predicate DotsAt(path: string, i: nat) {
    && i + 2 <= |path| && path[i] == '.' && path[i + 1] == '.'
    && (i == 0 || path[i - 1] == '/') && (i + 2 == |path| || path[i + 2] == '/')
  }

  predicate Climbs(path: string) {
    exists i :: 0 <= i < |path| && DotsAt(path, i)
  }

  /** A relative path that never climbs out of its directory. */
  predicate Stays(path: string) {
    (path == "" || path[0] != '/') && !Climbs(path)
  }

  // ---------------------------------------------------------------------------------------------
  // A result
  // ---------------------------------------------------------------------------------------------

  predicate ResultForm(e: Entry) {
    && "schema_version" in e && e["schema_version"] == Int(2)
    && HasText(e, "iteration_id") && HasText(e, "recorded_at") && HasText(e, "evidence_file")
    && (Says(e, "status", "completed") || Says(e, "status", "failed"))
    && HasDigest(e, "prior_history_sha256", 64) && HasDigest(e, "evidence_sha256", 64) && HasDigest(e, "tool_commit", 40)
    && "board_sha256s" in e && e["board_sha256s"].Arr?
  }

  /** The result lists the reservation's content digests, sorted. */
  ghost predicate RepeatsBoards(e: Entry, reservation: Entry) {
    && "board_sha256s" in e && e["board_sha256s"].Arr?
    && exists shas: seq<string> ::
         && Sorted(shas) && multiset(shas) == multiset(TextsOf(BoardsOf(reservation), "sha256"))
         && |e["board_sha256s"].items| == |shas|
         && forall i :: 0 <= i < |shas| ==> e["board_sha256s"].items[i] == Str(shas[i])
  }

  ghost predicate ResultFits(c: Codec, ls: seq<string>, k: nat, e: Entry)
    requires k < |ls|
  {
    && ResultForm(e) && Stays(Text(e, "evidence_file"))
    && Text(e, "prior_history_sha256") == c.sha(Above(ls, k))
    && (exists j, r :: 0 <= j < k && Reserves(c, ls[j], r) && IdOf(r) == IdOf(e) && RepeatsBoards(e, r))
    && (forall j, r :: 0 <= j < k && Closes(c, ls[j], r) ==> IdOf(r) != IdOf(e))
  }

  // ---------------------------------------------------------------------------------------------
  // A reservation
  // ---------------------------------------------------------------------------------------------

  predicate ReservationForm(e: Entry) {
    && HasWords(e, "iteration_id") && HasWords(e, "planned_at") && HasWords(e, "seed") && Says(e, "status", "planned")
    && "selector_version" in e && (e["selector_version"] == Int(1) || e["selector_version"] == Bool(true))
    && "candidate_count" in e && e["candidate_count"].Int? && e["candidate_count"].n >= 5
    && HasDigest(e, "entropy", 64) && HasDigest(e, "prior_history_sha256", 64) && HasDigest(e, "candidate_pool_sha256", 64)
    && HasDigest(e, "manifest_sha256", 64) && HasDigest(e, "tool_commit", 40)
    && "boards" in e && e["boards"].Arr? && |e["boards"].items| == 5
  }

  ghost predicate BoardForm(v: Value) {
    && v.Obj?
    && HasWords(v.fields, "source_id") && HasWords(v.fields, "revision") && HasWords(v.fields, "input_format")
    && HasWords(v.fields, "relative_path") && Stays(v.fields["relative_path"].s)
    && HasDigest(v.fields, "sha256", 64)
    && HasText(v.fields, "board_id") && |v.fields["board_id"].s| == 70 && v.fields["board_id"].s[..6] == "board:"
    && forall c :: c in v.fields["board_id"].s[6..] ==> c in "0123456789abcdef"
  }

  /** Five boards, no two of one identity or one content. */
  ghost predicate BoardsForm(bs: seq<Value>) {
    && (forall i :: 0 <= i < |bs| ==> BoardForm(bs[i]))
    && (forall i, j :: 0 <= i < j < |bs| ==> BoardText(bs[i], "board_id") != BoardText(bs[j], "board_id"))
    && (forall i, j :: 0 <= i < j < |bs| ==> BoardText(bs[i], "sha256") != BoardText(bs[j], "sha256"))
  }

  /** No board of the one is, by identity or by content, a board of the other. */
  ghost predicate NoneShared(e: Entry, r: Entry) {
    forall i, j :: 0 <= i < |BoardsOf(e)| && 0 <= j < |BoardsOf(r)| ==>
      && BoardText(BoardsOf(e)[i], "board_id") != BoardText(BoardsOf(r)[j], "board_id")
      && BoardText(BoardsOf(e)[i], "sha256") != BoardText(BoardsOf(r)[j], "sha256")
  }

  /** A reservation that says it is of schema 2 is bound to everything above it. */
  ghost predicate Bound(c: Codec, above: string, e: Entry) {
    && Text(e, "prior_history_sha256") == c.sha(above)
    && Text(e, "seed") == c.sha("unseen-five-selector-v1" + "\0" + IdOf(e) + "\0" + c.sha(above) + "\0" + Text(e, "entropy"))
  }

  predicate SchemaTwo(e: Entry) {
    "schema_version" in e && (e["schema_version"] == Int(2) || (e["schema_version"].Float? && e["schema_version"].whole == Some(2)))
  }

  /** No reservation above has the id, or a board, of this one. */
  ghost predicate NewBelow(c: Codec, ls: seq<string>, k: nat, e: Entry)
    requires k < |ls|
  {
    forall j, r :: 0 <= j < k && Reserves(c, ls[j], r) ==> IdOf(r) != IdOf(e) && NoneShared(e, r)
  }

  ghost predicate ReservationFits(c: Codec, ls: seq<string>, k: nat, e: Entry)
    requires k < |ls|
  {
    && ReservationForm(e) && BoardsForm(BoardsOf(e))
    && (SchemaTwo(e) ==> Bound(c, Above(ls, k), e))
    && NewBelow(c, ls, k, e)
  }

  // ---------------------------------------------------------------------------------------------
  // Every line
  // ---------------------------------------------------------------------------------------------

  ghost predicate Fits(c: Codec, ls: seq<string>, k: nat)
    requires k < |ls|
  {
    || Blank(StripNewlines(ls[k]))
    || exists e :: Holds(c, ls[k], e) &&
         if Says(e, "record_type", "result") then ResultFits(c, ls, k, e) else ReservationFits(c, ls, k, e)
  }

  lemma HexIff(e: Entry, f: string, n: nat)
    ensures HasDigest(e, f, n) <==> HasText(e, f) && Hex(e[f].s, n)
  {
    if HasText(e, f) {
      HexDigits(e[f].s);
    }
  }

  lemma HexDigit(c: char)
    ensures c in "0123456789abcdef" <==> '0' <= c <= '9' || 'a' <= c <= 'f'
  {
    var digits := "0123456789abcdef";
    if '0' <= c <= '9' {
      assert digits[c as int - '0' as int] == c;
    } else if 'a' <= c <= 'f' {
      assert digits[10 + c as int - 'a' as int] == c;
    }
  }

  lemma HexDigits(s: string)
    ensures (forall c :: c in s ==> '0' <= c <= '9' || 'a' <= c <= 'f') <==> forall c :: c in s ==> c in "0123456789abcdef"
  {
    forall c
      ensures c in "0123456789abcdef" <==> '0' <= c <= '9' || 'a' <= c <= 'f'
    {
      HexDigit(c);
    }
  }

  lemma ResultFormIff(e: Entry)
    ensures ResultForm(e) && Says(e, "record_type", "result") <==>
            ResultChecks(e) && IsResult(e)
  {
    HexIff(e, "prior_history_sha256", 64);
    HexIff(e, "evidence_sha256", 64);
    HexIff(e, "tool_commit", 40);
  }

  // ---------------------------------------------------------------------------------------------
  // Paths that stay
  // ---------------------------------------------------------------------------------------------

  /** The first slash is no later than any. */
  lemma SlashWithin(s: string, k: nat)
    requires k < |s| && s[k] == '/'
    ensures SlashAt(s) <= k
  {
    var first := s[..SlashAt(s)];
    assert forall i :: 0 <= i < |first| ==> first[i] in first;
  }

  lemma DotsFirst(s: string)
    requires DotsAt(s, 0)
    ensures s[..SlashAt(s)] == ".."
  {
    if |s| > 2 {
      SlashWithin(s, 2);
    }
    assert SlashAt(s) != 0 && SlashAt(s) != 1;
  }

  lemma DotsLater(s: string, i: nat, k: nat)
    requires i < |s| && s[i] == '/' && k + i + 1 < |s|
    ensures DotsAt(s, k + i + 1) <==> DotsAt(s[i + 1..], k)
  {
  }

  lemma ClimbsHere(s: string, k: nat)
    requires k < |s| && DotsAt(s, k)
    ensures var i := SlashAt(s);
            s[..i] == ".." || (i < |s| && Climbs(s[i + 1..]))
  {
    if k == 0 {
      DotsFirst(s);
    } else {
      SlashWithin(s, k - 1);
      DotsLater(s, SlashAt(s), k - SlashAt(s) - 1);
    }
  }

  lemma ClimbsAtFirst(s: string)
    requires s[..SlashAt(s)] == ".."
    ensures Climbs(s)
  {
    assert s[0] == s[..SlashAt(s)][0] && s[1] == s[..SlashAt(s)][1];
    assert DotsAt(s, 0);
  }

  lemma ClimbsLater(s: string, i: nat)
    requires i < |s| && s[i] == '/' && Climbs(s[i + 1..])
    ensures Climbs(s)
  {
    var k: nat :| k < |s[i + 1..]| && DotsAt(s[i + 1..], k);
    DotsLater(s, i, k);
  }

  lemma ClimbsSomewhere(s: string)
    requires Climbs(s)
    ensures var i := SlashAt(s);
            s[..i] == ".." || (i < |s| && Climbs(s[i + 1..]))
  {
    var k: nat :| k < |s| && DotsAt(s, k);
    ClimbsHere(s, k);
  }

  /** A climbing component is the first one, or comes after the first slash. */
  lemma ClimbsIff(s: string)
    ensures var i := SlashAt(s);
            Climbs(s) <==> s[..i] == ".." || (i < |s| && Climbs(s[i + 1..]))
  {
    var i := SlashAt(s);
    if Climbs(s) {
      ClimbsSomewhere(s);
    } else if s[..i] == ".." {
      ClimbsAtFirst(s);
    } else if i < |s| && Climbs(s[i + 1..]) {
      ClimbsLater(s, i);
    }
  }

  lemma SplitFirst(s: string, i: nat)
    requires i == SlashAt(s)
    ensures i < |s| ==> (".." in Split(s) <==> s[..i] == ".." || ".." in Split(s[i + 1..]))
    ensures i == |s| ==> (".." in Split(s) <==> s[..i] == "..")
  {
    assert i == |s| ==> s[..i] == s;
  }

  lemma {:induction false} SplitClimbs(s: string)
    ensures ".." in Split(s) <==> Climbs(s)
    decreases |s|
  {
    var i := SlashAt(s);
    ClimbsIff(s);
    SplitFirst(s, i);
    if i < |s| {
      SplitClimbs(s[i + 1..]);
    }
  }

  lemma StaysIff(s: string)
    ensures SafePath(s) <==> Stays(s)
  {
    SplitClimbs(s);
    ProperIs(Split(s));
  }

  // ---------------------------------------------------------------------------------------------
  // A board, and the boards
  // ---------------------------------------------------------------------------------------------

  lemma BoardFormIff(v: Value, seenSha: set<string>)
    ensures BoardProblem(v, seenSha).None? <==> BoardForm(v) && BoardText(v, "sha256") !in seenSha
  {
    if v.Obj? {
      HexIff(v.fields, "sha256", 64);
      StaysIff(Text(v.fields, "relative_path"));
      var id := Text(v.fields, "board_id");
      if |id| == 70 {
        HexDigits(id[6..]);
      }
    }
  }

  predicate AllDiffer(xs: seq<string>) {
    forall i, j :: 0 <= i < j < |xs| ==> xs[i] != xs[j]
  }

  lemma DistinctIff(xs: seq<string>)
    ensures |SetOf(xs)| == |xs| <==> AllDiffer(xs)
  {
    if AllDiffer(xs) {
      DistinctLength(xs, SetOf(xs));
    } else {
      var i, j :| 0 <= i < j < |xs| && xs[i] == xs[j];
      RepeatShortens(xs, i, j);
    }
  }

  lemma RepeatShortens(xs: seq<string>, i: nat, j: nat)
    requires i < j < |xs| && xs[i] == xs[j]
    ensures |SetOf(xs)| < |xs|
  {
    var rest := xs[..j] + xs[j + 1..];
    assert rest[i] == xs[i];
    forall x | x in xs
      ensures x in rest
    {
      var k :| 0 <= k < |xs| && xs[k] == x;
      assert k < j ==> rest[k] == x;
      assert k > j ==> rest[k - 1] == x;
    }
    SetNoLonger(rest);
    assert SetOf(xs) == SetOf(rest);
  }

  lemma {:induction false} SetNoLonger(xs: seq<string>)
    ensures |SetOf(xs)| <= |xs|
  {
    if xs != [] {
      SetNoLonger(xs[1..]);
      assert xs == [xs[0]] + xs[1..];
      assert SetOf(xs) == SetOf(xs[1..]) + {xs[0]};
    }
  }

  lemma FormsIff(bs: seq<Value>, seenSha: set<string>)
    ensures BoardsProblem(bs, seenSha).None? <==>
            (forall i :: 0 <= i < |bs| ==> BoardForm(bs[i])) && SetOf(TextsOf(bs, "sha256")) !! seenSha
  {
    var shas := TextsOf(bs, "sha256");
    BoardsProblemIs(bs, seenSha);
    forall i | 0 <= i < |bs|
      ensures BoardProblem(bs[i], seenSha).None? <==> BoardForm(bs[i]) && shas[i] !in seenSha
    {
      BoardFormIff(bs[i], seenSha);
    }
    if SetOf(shas) !! seenSha {
      forall i | 0 <= i < |bs|
        ensures shas[i] !in seenSha
      {
        assert shas[i] in SetOf(shas);
      }
    }
  }

  lemma ApartSets(a: set<string>, b: set<string>)
    ensures a * b == {} <==> a !! b
  {
    if a * b == {} {
      forall x | x in a
        ensures x !in b
      {
        assert x !in a * b;
      }
    } else {
      var x :| x in a * b;
      assert x in a && x in b;
    }
  }

  lemma BoardsSteps(st: State, e: Entry)
    ensures IterationBoardsProblem(st, e).None? <==>
            && |BoardsOf(e)| == 5 && BoardsProblem(BoardsOf(e), st.history.seenSha256).None?
            && |BoardIds(e)| == 5 && |BoardShas(e)| == 5 && BoardIds(e) !! st.history.seenBoardIds
  {
    ApartSets(BoardIds(e), st.history.seenBoardIds);
  }

  lemma FiveBoardsIff(bs: seq<Value>, seenSha: set<string>)
    requires |bs| == 5
    ensures var ids, shas := TextsOf(bs, "board_id"), TextsOf(bs, "sha256");
            (BoardsProblem(bs, seenSha).None? && |SetOf(ids)| == 5 && |SetOf(shas)| == 5) <==> BoardsForm(bs) && SetOf(shas) !! seenSha
  {
    FormsIff(bs, seenSha);
    DistinctIff(TextsOf(bs, "board_id"));
    DistinctIff(TextsOf(bs, "sha256"));
    BoardsFormIff(bs);
  }

  /** The boards of a reservation, on their own and against those of earlier ones. */
  lemma BoardsIff(st: State, e: Entry)
    ensures IterationBoardsProblem(st, e).None? <==>
            && |BoardsOf(e)| == 5 && BoardsForm(BoardsOf(e))
            && BoardShas(e) !! st.history.seenSha256 && BoardIds(e) !! st.history.seenBoardIds
  {
    BoardsSteps(st, e);
    if |BoardsOf(e)| == 5 {
      FiveBoardsIff(BoardsOf(e), st.history.seenSha256);
    }
  }

  lemma BoardsFormIff(bs: seq<Value>)
    ensures BoardsForm(bs) <==>
            && (forall i :: 0 <= i < |bs| ==> BoardForm(bs[i]))
            && AllDiffer(TextsOf(bs, "board_id")) && AllDiffer(TextsOf(bs, "sha256"))
  {
    AllDifferIff(bs, "board_id");
    AllDifferIff(bs, "sha256");
  }

  lemma AllDifferIff(bs: seq<Value>, f: string)
    ensures AllDiffer(TextsOf(bs, f)) <==> forall i, j :: 0 <= i < j < |bs| ==> BoardText(bs[i], f) != BoardText(bs[j], f)
  {
    var xs := TextsOf(bs, f);
    if AllDiffer(xs) {
      forall i, j | 0 <= i < j < |bs|
        ensures BoardText(bs[i], f) != BoardText(bs[j], f)
      {
        assert xs[i] != xs[j];
      }
    }
  }

  // ---------------------------------------------------------------------------------------------
  // What reading has gathered
  // ---------------------------------------------------------------------------------------------

  ghost predicate ReservedAbove(c: Codec, ls: seq<string>, k: nat, e: Entry)
    requires k <= |ls|
  {
    exists j :: 0 <= j < k && Reserves(c, ls[j], e)
  }

  ghost predicate ClosedAbove(c: Codec, ls: seq<string>, k: nat, e: Entry)
    requires k <= |ls|
  {
    exists j :: 0 <= j < k && Closes(c, ls[j], e)
  }

  /** The history holds exactly what stands above line `k`. */
  ghost predicate Gathered(c: Codec, ls: seq<string>, k: nat, st: State)
    requires k <= |ls|
  {
    && st.prefix == Above(ls, k)
    && (forall e :: e in st.history.iterations <==> ReservedAbove(c, ls, k, e))
    && (forall e :: e in st.history.results <==> ClosedAbove(c, ls, k, e))
    && (forall x :: x in st.history.seenBoardIds <==> exists e :: e in st.history.iterations && x in BoardIds(e))
    && (forall x :: x in st.history.seenSha256 <==> exists e :: e in st.history.iterations && x in BoardShas(e))
  }

  lemma ResultIff(e: Entry)
    ensures IsResult(e) <==> Says(e, "record_type", "result")
  {
  }

  lemma HoldsOne(c: Codec, line: string, e: Entry, f: Entry)
    requires Holds(c, line, e) && Holds(c, line, f)
    ensures e == f
  {
  }

  lemma AboveMore(ls: seq<string>, k: nat)
    requires k < |ls|
    ensures Above(ls, k + 1) == Above(ls, k) + ls[k]
  {
    ConcatMore(ls[..k], ls[k]);
    assert ls[..k + 1] == ls[..k] + [ls[k]];
  }

  lemma {:induction false} ConcatMore(ls: seq<string>, l: string)
    ensures Concat(ls + [l]) == Concat(ls) + l
  {
    if ls == [] {
      assert ls + [l] == [l] && [l][1..] == [];
      assert Concat([]) == "";
    } else {
      assert (ls + [l])[1..] == ls[1..] + [l];
      ConcatMore(ls[1..], l);
    }
  }

  /** One line more: blank, a result, or a reservation. */
  lemma GatherBlank(c: Codec, ls: seq<string>, k: nat, st: State)
    requires k < |ls| && Gathered(c, ls, k, st) && Blank(StripNewlines(ls[k]))
    ensures Gathered(c, ls, k + 1, State(st.history, st.prefix + ls[k]))
  {
    AboveMore(ls, k);
    forall e
      ensures ReservedAbove(c, ls, k + 1, e) <==> ReservedAbove(c, ls, k, e)
      ensures ClosedAbove(c, ls, k + 1, e) <==> ClosedAbove(c, ls, k, e)
    {
    }
  }

  lemma GatherResult(c: Codec, ls: seq<string>, k: nat, st: State, e: Entry)
    requires k < |ls| && Gathered(c, ls, k, st) && Closes(c, ls[k], e)
    ensures Gathered(c, ls, k + 1, AddResult(st, e, ls[k]))
  {
    AboveMore(ls, k);
    var rs := st.history.results + [e];
    forall f
      ensures ReservedAbove(c, ls, k + 1, f) <==> ReservedAbove(c, ls, k, f)
      ensures ClosedAbove(c, ls, k + 1, f) <==> ClosedAbove(c, ls, k, f) || f == e
      ensures f in rs <==> f in st.history.results || f == e
    {
    }
  }

  lemma GatherIteration(c: Codec, ls: seq<string>, k: nat, st: State, e: Entry)
    requires k < |ls| && Gathered(c, ls, k, st) && Reserves(c, ls[k], e)
    ensures Gathered(c, ls, k + 1, AddIteration(st, e, ls[k]))
  {
    AboveMore(ls, k);
    var its := st.history.iterations + [e];
    forall f
      ensures ReservedAbove(c, ls, k + 1, f) <==> ReservedAbove(c, ls, k, f) || f == e
      ensures ClosedAbove(c, ls, k + 1, f) <==> ClosedAbove(c, ls, k, f)
      ensures f in its <==> f in st.history.iterations || f == e
    {
    }
  }

  // ---------------------------------------------------------------------------------------------
  // Reading one line
  // ---------------------------------------------------------------------------------------------

  lemma SortedTexts(ss: seq<string>, wanted: seq<string>)
    requires Sorted(ss) && multiset(ss) == multiset(wanted)
    ensures ss == Sort(wanted)
  {
    SortIsSorted(wanted);
    SortedUnique(ss, Sort(wanted));
  }

  lemma ShaListIs(ss: seq<string>, reservation: Entry, items: seq<Value>)
    requires ss == Sort(TextsOf(BoardsOf(reservation), "sha256"))
    requires |items| == |ss| && forall i :: 0 <= i < |ss| ==> items[i] == Str(ss[i])
    ensures items == ShaList(reservation)
  {
  }

  lemma RepeatsIsShaList(e: Entry, reservation: Entry)
    requires RepeatsBoards(e, reservation)
    ensures Field(e, "board_sha256s") == Arr(ShaList(reservation))
  {
    var items, wanted := e["board_sha256s"].items, TextsOf(BoardsOf(reservation), "sha256");
    var ss: seq<string> :| Sorted(ss) && multiset(ss) == multiset(wanted)
                           && |items| == |ss| && forall i :: 0 <= i < |ss| ==> items[i] == Str(ss[i]);
    SortedTexts(ss, wanted);
    ShaListIs(ss, reservation, items);
  }

  lemma ShaListIff(e: Entry, reservation: Entry)
    ensures Field(e, "board_sha256s") == Arr(ShaList(reservation)) <==> RepeatsBoards(e, reservation)
  {
    if RepeatsBoards(e, reservation) {
      RepeatsIsShaList(e, reservation);
    } else {
      SortIsSorted(TextsOf(BoardsOf(reservation), "sha256"));
      assert |ShaList(reservation)| == |Sort(TextsOf(BoardsOf(reservation), "sha256"))|;
    }
  }

  predicate ResultChecks(e: Entry) {
    && MissingResultField(e).None? && NumberIs(Field(e, "schema_version"), 2)
    && (Text(e, "status") == "completed" || Text(e, "status") == "failed")
    && Hex(Text(e, "prior_history_sha256"), 64) && Hex(Text(e, "evidence_sha256"), 64) && Hex(Text(e, "tool_commit"), 40)
  }

  /** The reservation found for it has the contents the result repeats. */
  ghost predicate Found(its: seq<Entry>, e: Entry) {
    var found := FindIteration(its, IdOf(e));
    found.Some? && Field(e, "board_sha256s") == Arr(ShaList(found.value))
  }

  lemma ResultSteps(c: Codec, st: State, e: Entry)
    ensures ResultProblem(c, st, e).None? <==>
            && ResultChecks(e) && Text(e, "prior_history_sha256") == c.sha(st.prefix) && Found(st.history.iterations, e)
            && !HasId(st.history.results, IdOf(e)) && SafePath(Text(e, "evidence_file"))
  {
  }

  /** The reservations, and the results, that stand above line `k`. */
  ghost predicate Reservations(c: Codec, ls: seq<string>, k: nat, its: seq<Entry>)
    requires k <= |ls|
  {
    forall e :: e in its <==> ReservedAbove(c, ls, k, e)
  }

  ghost predicate Results(c: Codec, ls: seq<string>, k: nat, rs: seq<Entry>)
    requires k <= |ls|
  {
    forall e :: e in rs <==> ClosedAbove(c, ls, k, e)
  }

  predicate IdsDiffer(es: seq<Entry>) {
    forall i, j :: 0 <= i < j < |es| ==> IdOf(es[i]) != IdOf(es[j])
  }

  lemma GatheredLists(c: Codec, ls: seq<string>, k: nat, st: State)
    requires k <= |ls| && Gathered(c, ls, k, st)
    ensures st.prefix == Above(ls, k) && Reservations(c, ls, k, st.history.iterations) && Results(c, ls, k, st.history.results)
  {
  }

  lemma SoundDiffers(h: History)
    requires Sound(h)
    ensures IdsDiffer(h.iterations)
  {
  }

  lemma ResultLineIff(c: Codec, ls: seq<string>, k: nat, st: State, e: Entry)
    requires k < |ls| && st.prefix == Above(ls, k) && Closes(c, ls[k], e) && IdsDiffer(st.history.iterations)
    requires Reservations(c, ls, k, st.history.iterations) && Results(c, ls, k, st.history.results)
    ensures ResultProblem(c, st, e).None? <==> ResultFits(c, ls, k, e)
  {
    ResultSteps(c, st, e);
    ResultFormIff(e);
    StaysIff(Text(e, "evidence_file"));
    ReservationFound(c, ls, k, st.history.iterations, e);
    ResultOnce(c, ls, k, st.history.results, e);
    ResultPieces(c, ls, k, e);
  }

  /** A reservation above has the result's id and the contents it repeats. */
  ghost predicate Answered(c: Codec, ls: seq<string>, k: nat, e: Entry)
    requires k <= |ls|
  {
    exists j, r :: 0 <= j < k && Reserves(c, ls[j], r) && IdOf(r) == IdOf(e) && RepeatsBoards(e, r)
  }

  ghost predicate NotClosed(c: Codec, ls: seq<string>, k: nat, id: string)
    requires k <= |ls|
  {
    forall j, r :: 0 <= j < k && Closes(c, ls[j], r) ==> IdOf(r) != id
  }

  /** The pieces a fitting result is made of. */
  lemma ResultPieces(c: Codec, ls: seq<string>, k: nat, e: Entry)
    requires k < |ls|
    ensures ResultFits(c, ls, k, e) <==>
            && ResultForm(e) && Stays(Text(e, "evidence_file")) && Text(e, "prior_history_sha256") == c.sha(Above(ls, k))
            && Answered(c, ls, k, e) && NotClosed(c, ls, k, IdOf(e))
  {
  }

  lemma FoundAnswers(c: Codec, ls: seq<string>, k: nat, e: Entry, found: Entry)
    requires k <= |ls| && ReservedAbove(c, ls, k, found) && IdOf(found) == IdOf(e) && RepeatsBoards(e, found)
    ensures Answered(c, ls, k, e)
  {
    var j :| 0 <= j < k && Reserves(c, ls[j], found);
  }

  lemma OneOfAnId(es: seq<Entry>, e: Entry, f: Entry)
    requires IdsDiffer(es) && e in es && f in es && IdOf(e) == IdOf(f)
    ensures e == f
  {
    var i :| 0 <= i < |es| && es[i] == e;
    var j :| 0 <= j < |es| && es[j] == f;
  }

  /** Where ids differ there is one reservation of an id, and that is the one found. */
  lemma FoundIs(es: seq<Entry>, e: Entry)
    requires IdsDiffer(es) && e in es
    ensures FindIteration(es, IdOf(e)) == Some(e)
  {
    OneOfAnId(es, e, FindIteration(es, IdOf(e)).value);
  }

  lemma AnsweredIsFound(c: Codec, ls: seq<string>, k: nat, its: seq<Entry>, e: Entry)
    requires k <= |ls| && Reservations(c, ls, k, its) && IdsDiffer(its) && Answered(c, ls, k, e)
    ensures exists r :: FindIteration(its, IdOf(e)) == Some(r) && RepeatsBoards(e, r)
  {
    var j, r :| 0 <= j < k && Reserves(c, ls[j], r) && IdOf(r) == IdOf(e) && RepeatsBoards(e, r);
    assert ReservedAbove(c, ls, k, r);
    FoundIs(its, r);
  }

  lemma FoundIff(its: seq<Entry>, e: Entry)
    ensures Found(its, e) <==> exists r :: FindIteration(its, IdOf(e)) == Some(r) && RepeatsBoards(e, r)
  {
    if FindIteration(its, IdOf(e)).Some? {
      ShaListIff(e, FindIteration(its, IdOf(e)).value);
    }
  }

  /** The reservation the result closes is the one above it under its id. */
  lemma ReservationFound(c: Codec, ls: seq<string>, k: nat, its: seq<Entry>, e: Entry)
    requires k <= |ls| && Reservations(c, ls, k, its) && IdsDiffer(its)
    ensures Found(its, e) <==> Answered(c, ls, k, e)
  {
    FoundIff(its, e);
    if r :| FindIteration(its, IdOf(e)) == Some(r) && RepeatsBoards(e, r) {
      assert ReservedAbove(c, ls, k, r);
      FoundAnswers(c, ls, k, e, r);
    }
    if Answered(c, ls, k, e) {
      AnsweredIsFound(c, ls, k, its, e);
    }
  }

  lemma ResultOnce(c: Codec, ls: seq<string>, k: nat, rs: seq<Entry>, e: Entry)
    requires k <= |ls| && Results(c, ls, k, rs)
    ensures !HasId(rs, IdOf(e)) <==> NotClosed(c, ls, k, IdOf(e))
  {
    if HasId(rs, IdOf(e)) {
      var r :| r in rs && IdOf(r) == IdOf(e);
      assert ClosedAbove(c, ls, k, r);
    }
    if j, r :| 0 <= j < k && Closes(c, ls[j], r) && IdOf(r) == IdOf(e) {
      assert ClosedAbove(c, ls, k, r);
    }
  }

  lemma ReservationFormIff(e: Entry)
    ensures ReservationForm(e) && !Says(e, "record_type", "result") <==>
            IterationChecks(e) && !IsResult(e) && |BoardsOf(e)| == 5
  {
    HexIff(e, "entropy", 64);
    HexIff(e, "prior_history_sha256", 64);
    HexIff(e, "candidate_pool_sha256", 64);
    HexIff(e, "manifest_sha256", 64);
    HexIff(e, "tool_commit", 40);
  }

  /** The reservation's id and boards are new. */
  lemma NewAbove(c: Codec, ls: seq<string>, k: nat, st: State, e: Entry)
    requires k < |ls| && Gathered(c, ls, k, st)
    ensures (!HasId(st.history.iterations, IdOf(e)) && BoardShas(e) !! st.history.seenSha256 && BoardIds(e) !! st.history.seenBoardIds)
            <==> NewBelow(c, ls, k, e)
  {
    forall r | r in st.history.iterations
      ensures NoneShared(e, r) <==> BoardShas(e) !! BoardShas(r) && BoardIds(e) !! BoardIds(r)
    {
      NoneSharedIff(e, r);
    }
    if forall r :: r in st.history.iterations ==> IdOf(r) != IdOf(e) && NoneShared(e, r) {
      forall j, r | 0 <= j < k && Reserves(c, ls[j], r)
        ensures IdOf(r) != IdOf(e) && NoneShared(e, r)
      {
        assert ReservedAbove(c, ls, k, r);
      }
    } else {
      var r :| r in st.history.iterations && !(IdOf(r) != IdOf(e) && NoneShared(e, r));
      assert ReservedAbove(c, ls, k, r);
    }
  }

  lemma NoneSharedIff(e: Entry, r: Entry)
    ensures NoneShared(e, r) <==> BoardShas(e) !! BoardShas(r) && BoardIds(e) !! BoardIds(r)
  {
    ApartIff(TextsOf(BoardsOf(e), "sha256"), TextsOf(BoardsOf(r), "sha256"));
    ApartIff(TextsOf(BoardsOf(e), "board_id"), TextsOf(BoardsOf(r), "board_id"));
  }

  lemma ApartIff(xs: seq<string>, ys: seq<string>)
    ensures SetOf(xs) !! SetOf(ys) <==> forall i, j :: 0 <= i < |xs| && 0 <= j < |ys| ==> xs[i] != ys[j]
  {
    if SetOf(xs) !! SetOf(ys) {
      forall i, j | 0 <= i < |xs| && 0 <= j < |ys|
        ensures xs[i] != ys[j]
      {
        assert xs[i] in SetOf(xs) && ys[j] in SetOf(ys);
      }
    }
  }

  predicate IterationChecks(e: Entry) {
    && MissingIterationField(e).None? && Text(e, "status") == "planned"
    && NumberIs(Field(e, "selector_version"), SELECTOR_VERSION) && IntOf(Field(e, "candidate_count")) >= ITERATION_BOARDS
    && Hex(Text(e, "entropy"), 64) && Hex(Text(e, "prior_history_sha256"), 64)
    && Hex(Text(e, "candidate_pool_sha256"), 64) && Hex(Text(e, "manifest_sha256"), 64) && Hex(Text(e, "tool_commit"), 40)
  }

  lemma IterationSteps(c: Codec, st: State, e: Entry)
    ensures IterationProblem(c, st, e).None? <==>
            && IterationChecks(e) && (SchemaTwo(e) ==> Bound(c, st.prefix, e))
            && !HasId(st.history.iterations, IdOf(e)) && IterationBoardsProblem(st, e).None?
  {
    assert Chained(e) <==> SchemaTwo(e);
  }

  lemma ReservationLineIff(c: Codec, ls: seq<string>, k: nat, st: State, e: Entry)
    requires k < |ls| && Gathered(c, ls, k, st) && Reserves(c, ls[k], e)
    ensures IterationProblem(c, st, e).None? <==> ReservationFits(c, ls, k, e)
  {
    IterationSteps(c, st, e);
    NewBoards(c, ls, k, st, e);
    ReservationFormIff(e);
    ResultIff(e);
    assert ReservationForm(e) ==> |BoardsOf(e)| == 5;
  }

  /** The id and the boards, on their own and against those above. */
  lemma NewBoards(c: Codec, ls: seq<string>, k: nat, st: State, e: Entry)
    requires k < |ls| && Gathered(c, ls, k, st)
    ensures (!HasId(st.history.iterations, IdOf(e)) && IterationBoardsProblem(st, e).None?) <==>
            |BoardsOf(e)| == 5 && BoardsForm(BoardsOf(e)) && NewBelow(c, ls, k, e)
  {
    BoardsIff(st, e);
    NewAbove(c, ls, k, st, e);
  }

  lemma FitsAs(c: Codec, ls: seq<string>, k: nat, e: Entry)
    requires k < |ls| && Holds(c, ls[k], e)
    ensures Fits(c, ls, k) <==> if Says(e, "record_type", "result") then ResultFits(c, ls, k, e) else ReservationFits(c, ls, k, e)
  {
    if Fits(c, ls, k) {
      var f :| Holds(c, ls[k], f) && if Says(f, "record_type", "result") then ResultFits(c, ls, k, f) else ReservationFits(c, ls, k, f);
      HoldsOne(c, ls[k], e, f);
    }
  }

  /** A line is read exactly when it fits the lines above, which the state has gathered; then it is gathered too. */
  lemma LineIff(c: Codec, ls: seq<string>, k: nat, st: State)
    requires k < |ls| && Gathered(c, ls, k, st) && Sound(st.history)
    ensures ReadLine(c, st, ls[k]).Ok? <==> Fits(c, ls, k)
    ensures ReadLine(c, st, ls[k]).Ok? ==> Gathered(c, ls, k + 1, ReadLine(c, st, ls[k]).value)
  {
    var raw := StripNewlines(ls[k]);
    if Blank(raw) {
      GatherBlank(c, ls, k, st);
    } else if c.decode(raw).Some? && c.decode(raw).value.Obj? {
      var e := c.decode(raw).value.fields;
      FitsAs(c, ls, k, e);
      ResultIff(e);
      if IsResult(e) {
        GatheredLists(c, ls, k, st);
        SoundDiffers(st.history);
        ResultLineIff(c, ls, k, st, e);
        GatherResult(c, ls, k, st, e);
      } else {
        ReservationLineIff(c, ls, k, st, e);
        GatherIteration(c, ls, k, st, e);
      }
    }
  }

  ghost predicate AllFit(c: Codec, ls: seq<string>, k: nat)
    requires k <= |ls|
  {
    forall j :: 0 <= j < k ==> Fits(c, ls, j)
  }

  /** What reading the first `k` lines comes to. */
  ghost function ReadTo(c: Codec, ls: seq<string>, k: nat): Result<State, HistoryError>
    requires k <= |ls|
  {
    ReadLines(c, START, ls[..k])
  }

  lemma ReadOneMore(c: Codec, ls: seq<string>, k: nat)
    requires k < |ls|
    ensures ReadTo(c, ls, k).Err? ==> ReadTo(c, ls, k + 1).Err?
    ensures ReadTo(c, ls, k).Ok? ==> ReadTo(c, ls, k + 1) == ReadLine(c, ReadTo(c, ls, k).value, ls[k])
  {
    assert ls[..k + 1] == ls[..k] + [ls[k]];
    ReadLinesAppend(c, START, ls[..k], ls[k]);
  }

  ghost predicate Knows(c: Codec, ls: seq<string>, k: nat, st: State)
    requires k <= |ls|
  {
    Gathered(c, ls, k, st) && Sound(st.history)
  }

  lemma KnowsOneMore(c: Codec, ls: seq<string>, k: nat, st: State, r: Result<State, HistoryError>)
    requires k < |ls| && Knows(c, ls, k, st) && r == ReadLine(c, st, ls[k])
    ensures r.Ok? <==> Fits(c, ls, k)
    ensures r.Ok? ==> Knows(c, ls, k + 1, r.value)
  {
    LineIff(c, ls, k, st);
    if r.Ok? {
      ReadLineKeepsSound(c, st, ls[k]);
    }
  }

  lemma KnowsNothing(c: Codec, ls: seq<string>)
    ensures ReadTo(c, ls, 0) == Ok(START) && Knows(c, ls, 0, START)
  {
    assert ls[..0] == [];
    assert Concat([]) == "";
  }

  /** One step of a reading of which only this is known. */
  lemma {:induction false} StepByStep(n: nat, read: seq<Result<State, HistoryError>>, fits: seq<bool>, knows: (nat, State) -> bool)
    requires |read| == n + 1 && |fits| == n && read[0].Ok? && knows(0, read[0].value)
    requires forall k :: 0 <= k < n && read[k].Err? ==> read[k + 1].Err?
    requires forall k :: 0 <= k < n && read[k].Ok? && knows(k, read[k].value) ==>
      (read[k + 1].Ok? <==> fits[k]) && (read[k + 1].Ok? ==> knows(k + 1, read[k + 1].value))
    ensures read[n].Ok? <==> forall k :: 0 <= k < n ==> fits[k]
    ensures read[n].Ok? ==> knows(n, read[n].value)
  {
    if n > 0 {
      StepByStep(n - 1, read[..n], fits[..n - 1], knows);
      assert read[..n][n - 1] == read[n - 1];
      assert forall k :: 0 <= k < n - 1 ==> fits[..n - 1][k] == fits[k];
    }
  }

  lemma FitsList(c: Codec, ls: seq<string>, n: nat) returns (fits: seq<bool>)
    requires n <= |ls|
    ensures |fits| == n && forall k :: 0 <= k < n ==> fits[k] == Fits(c, ls, k)
    ensures (forall k :: 0 <= k < n ==> fits[k]) <==> AllFit(c, ls, n)
  {
    fits := seq(n, k requires 0 <= k < n => Fits(c, ls, k));
    if forall k :: 0 <= k < n ==> fits[k] {
      forall k | 0 <= k < n
        ensures Fits(c, ls, k)
      {
        assert fits[k];
      }
    }
  }

  lemma ReadList(c: Codec, ls: seq<string>, n: nat) returns (read: seq<Result<State, HistoryError>>)
    requires n <= |ls|
    ensures |read| == n + 1 && forall k :: 0 <= k <= n ==> read[k] == ReadTo(c, ls, k)
  {
    read := seq(n + 1, k requires 0 <= k < n + 1 => ReadTo(c, ls, k));
  }

  lemma ReadStep(c: Codec, ls: seq<string>, k: nat, r: Result<State, HistoryError>, next: Result<State, HistoryError>)
    requires k < |ls| && r == ReadTo(c, ls, k) && next == ReadTo(c, ls, k + 1)
    ensures r.Err? ==> next.Err?
    ensures r.Ok? && Knows(c, ls, k, r.value) ==>
      (next.Ok? <==> Fits(c, ls, k)) && (next.Ok? ==> Knows(c, ls, k + 1, next.value))
  {
    ReadOneMore(c, ls, k);
    if r.Ok? && Knows(c, ls, k, r.value) {
      KnowsOneMore(c, ls, k, r.value, next);
    }
  }

  /** The step from the first `k` lines to one more. */
  ghost predicate Steps(c: Codec, ls: seq<string>, k: nat, fit: bool, r: Result<State, HistoryError>, next: Result<State, HistoryError>)
    requires k < |ls|
  {
    && (r.Err? ==> next.Err?)
    && (r.Ok? && Knows(c, ls, k, r.value) ==> (next.Ok? <==> fit) && (next.Ok? ==> Knows(c, ls, k + 1, next.value)))
  }

  lemma AllSteps(c: Codec, ls: seq<string>, n: nat) returns (read: seq<Result<State, HistoryError>>, fits: seq<bool>)
    requires n <= |ls|
    ensures |read| == n + 1 && |fits| == n && read[0] == Ok(START) && read[n] == ReadTo(c, ls, n)
    ensures forall k :: 0 <= k < n ==> Steps(c, ls, k, fits[k], read[k], read[k + 1])
    ensures (forall k :: 0 <= k < n ==> fits[k]) <==> AllFit(c, ls, n)
  {
    read := ReadList(c, ls, n);
    fits := FitsList(c, ls, n);
    KnowsNothing(c, ls);
    forall k | 0 <= k < n
      ensures Steps(c, ls, k, fits[k], read[k], read[k + 1])
    {
      ReadStep(c, ls, k, read[k], read[k + 1]);
    }
  }

  lemma PrefixIff(c: Codec, ls: seq<string>, n: nat)
    requires n <= |ls|
    ensures ReadTo(c, ls, n).Ok? <==> AllFit(c, ls, n)
    ensures ReadTo(c, ls, n).Ok? ==> Knows(c, ls, n, ReadTo(c, ls, n).value)
  {
    var read, fits := AllSteps(c, ls, n);
    KnowsNothing(c, ls);
    StepByStep(n, read, fits, (k: nat, st: State) => k <= |ls| && Knows(c, ls, k, st));
  }

  /** The reservations and results that stand in the lines, and the boards and contents they use up. */
  ghost predicate HoldsLines(c: Codec, ls: seq<string>, h: History) {
    && (forall e :: e in h.iterations <==> ReservedAbove(c, ls, |ls|, e))
    && (forall e :: e in h.results <==> ClosedAbove(c, ls, |ls|, e))
    && (forall x :: x in h.seenBoardIds <==> exists e :: e in h.iterations && x in BoardIds(e))
    && (forall x :: x in h.seenSha256 <==> exists e :: e in h.iterations && x in BoardShas(e))
  }

  /**
    A text reads back exactly when every line of it fits those above; then the history holds exactly the
    reservations and the results that stand in it.
   */
  lemma ReadableIff(c: Codec, text: string)
    ensures var ls := Lines(text);
            && Concat(ls) == text
            && (ParseSpec(c, text).Ok? <==> forall k :: 0 <= k < |ls| ==> Fits(c, ls, k))
            && (ParseSpec(c, text).Ok? ==> HoldsLines(c, ls, ParseSpec(c, text).value))
  {
    var ls := Lines(text);
    LinesConcat(text);
    PrefixIff(c, ls, |ls|);
    assert ls[..|ls|] == ls;
  }

  // ---------------------------------------------------------------------------------------------
  // The chain
  // ---------------------------------------------------------------------------------------------

  /** A result, or a reservation of schema 2. */
  predicate IsLink(e: Entry) {
    Says(e, "record_type", "result") || SchemaTwo(e)
  }

  /** In a ledger that reads back each link carries the hash of all the text above it, and a reservation's seed is drawn from it. */
  lemma LinksCarryTheHash(c: Codec, text: string, k: nat, e: Entry)
    requires ParseSpec(c, text).Ok? && k < |Lines(text)| && Holds(c, Lines(text)[k], e) && IsLink(e)
    ensures Text(e, "prior_history_sha256") == c.sha(Above(Lines(text), k))
    ensures !Says(e, "record_type", "result") ==>
      Text(e, "seed") == c.sha("unseen-five-selector-v1" + "\0" + IdOf(e) + "\0" + Text(e, "prior_history_sha256")
                               + "\0" + Text(e, "entropy"))
  {
    ReadableIff(c, text);
    FitsAs(c, Lines(text), k, e);
  }

  /** So no ledger that reads back has other text above the same link, but for two texts with one hash. */
  lemma EditedAboveCollides(c: Codec, t: string, u: string, k: nat, m: nat, e: Entry)
    requires ParseSpec(c, t).Ok? && k < |Lines(t)| && Holds(c, Lines(t)[k], e)
    requires ParseSpec(c, u).Ok? && m < |Lines(u)| && Holds(c, Lines(u)[m], e)
    requires IsLink(e) && Above(Lines(t), k) != Above(Lines(u), m)
    ensures exists a, b :: a != b && c.sha(a) == c.sha(b)
  {
    LinksCarryTheHash(c, t, k, e);
    LinksCarryTheHash(c, u, m, e);
    assert c.sha(Above(Lines(t), k)) == c.sha(Above(Lines(u), m));
  }

  // ---------------------------------------------------------------------------------------------
  // The lines
  // ---------------------------------------------------------------------------------------------

  /** The lines are the text cut after each newline. */
  lemma {:induction false} LinesAre(t: string)
    ensures forall k :: 0 <= k < |Lines(t)| ==> Lines(t)[k] != "" && '\n' !in Lines(t)[k][..|Lines(t)[k]| - 1]
    ensures forall k :: 0 <= k < |Lines(t)| - 1 ==> Lines(t)[k][|Lines(t)[k]| - 1] == '\n'
    decreases |t|
  {
    if t != "" {
      LineEndIs(t);
      LinesAre(t[LineEnd(t)..]);
    }
  }

  lemma {:induction false} LineEndIs(t: string)
    requires t != ""
    ensures 0 < LineEnd(t) <= |t| && '\n' !in t[..LineEnd(t) - 1]
    ensures LineEnd(t) < |t| ==> t[LineEnd(t) - 1] == '\n'
  {
    if t[0] != '\n' && |t| > 1 {
      LineEndIs(t[1..]);
      assert t[..LineEnd(t) - 1] == [t[0]] + t[1..][..LineEnd(t[1..]) - 1];
    }
  }

  /** What is read of a line is the line without the line ends after it. */
  lemma {:induction false} StripIs(line: string)
    ensures var raw := StripNewlines(line);
            && raw <= line && (forall i :: |raw| <= i < |line| ==> line[i] == '\n' || line[i] == '\r')
            && (raw != "" ==> raw[|raw| - 1] != '\n' && raw[|raw| - 1] != '\r')
  {
    if line != "" && (line[|line| - 1] == '\n' || line[|line| - 1] == '\r') {
      StripIs(line[..|line| - 1]);
    }
  }
}
