/** The seeded, stratified choice of boards no earlier iteration has used. */
module Selection {
  import opened Wrappers
  import opened Sequences
  import opened Order

  datatype Candidate = Candidate(
    boardId: string,
    sha256: string,
    sourceId: string,
    revision: string,
    relativePath: string,
    absolutePath: string,
    inputFormat: string,
    axes: seq<string>,
    bundleMembers: seq<string>,
    cohort: string,
    sourceUrl: string,
    license: string,
    firmwareRelativePath: string,
    firmwareAbsolutePath: Option<string>,
    firmwareExpect: string)

  datatype SelectionError =
    | ConflictingCandidates
    | CountNotPositive
    | TooFew(available: nat, candidates: nat)
    | BadEntropy
    | BadManifestDigest
    | BadToolCommit
    | CandidateChanged
    | FirmwareUnreadable

  /** The seeded rank of a board: its 32-byte digest, read as a number. */
  type Rank = string -> nat

  // ---------------------------------------------------------------------------------------------
  // One candidate per board id
  // ---------------------------------------------------------------------------------------------

  predicate Consistent(cs: seq<Candidate>) {
    forall c, d :: c in cs && d in cs && c.boardId == d.boardId ==> c == d
  }

  /** `m` holds exactly the candidates, each under its id. */
  ghost predicate IsIndex(cs: seq<Candidate>, m: map<string, Candidate>) {
    && (forall c :: c in cs ==> c.boardId in m && m[c.boardId] == c)
    && (forall id :: id in m ==> m[id] in cs && m[id].boardId == id)
  }

  method UniqueCandidates(cs: seq<Candidate>) returns (r: Result<map<string, Candidate>, SelectionError>)
    ensures r.Ok? <==> Consistent(cs)
    ensures r.Ok? ==> IsIndex(cs, r.value)
    ensures r.Err? ==> r.error == ConflictingCandidates
  {
    var unique: map<string, Candidate> := map[];
    for i := 0 to |cs|
      invariant IsIndex(cs[..i], unique)
    {
      var c := cs[i];
      if c.boardId in unique && unique[c.boardId] != c {
        assert unique[c.boardId] in cs[..i];
        return Err(ConflictingCandidates);
      }
      unique := unique[c.boardId := c];
      assert cs[..i + 1] == cs[..i] + [c];
    }
    assert cs[..|cs|] == cs;
    r := Ok(unique);
  }

  /** Candidates listed in another order, or listed again, make the same index. */
  lemma IndexIgnoresOrder(cs: seq<Candidate>, ds: seq<Candidate>, m: map<string, Candidate>, n: map<string, Candidate>)
    requires forall c :: c in cs <==> c in ds
    requires IsIndex(cs, m) && IsIndex(ds, n)
    ensures m == n
  {
    forall id
      ensures id in m <==> id in n
    {
      if id in m { assert m[id] in ds; }
      if id in n { assert n[id] in cs; }
    }
    forall id | id in m
      ensures m[id] == n[id]
    {
      assert m[id] in ds;
    }
  }

  // ---------------------------------------------------------------------------------------------
  // The unseen candidates, one per content
  // ---------------------------------------------------------------------------------------------

  predicate Unseen(c: Candidate, seenIds: set<string>, seenSha: set<string>) {
    c.boardId !in seenIds && c.sha256 !in seenSha
  }

  predicate HoldsContent(s: seq<Candidate>, sha: string) {
    exists c :: c in s && c.sha256 == sha
  }

  /** The unseen candidates among the first `k` ids, the first of each content. */
  function DistinctUpTo(m: map<string, Candidate>, ids: seq<string>, seenIds: set<string>, seenSha: set<string>, k: nat)
    : seq<Candidate>
    requires k <= |ids| && forall id :: id in ids ==> id in m
  {
    if k == 0 then []
    else
      var rest, c := DistinctUpTo(m, ids, seenIds, seenSha, k - 1), m[ids[k - 1]];
      if Unseen(c, seenIds, seenSha) && !HoldsContent(rest, c.sha256) then rest + [c] else rest
  }

  ghost function Available(m: map<string, Candidate>, seenIds: set<string>, seenSha: set<string>): seq<Candidate> {
    var ids := SortSet(m.Keys);
    SortSetIs(m.Keys);
    DistinctUpTo(m, ids, seenIds, seenSha, |ids|)
  }

  ghost predicate DistinctContent(s: seq<Candidate>) {
    forall i, j :: 0 <= i < j < |s| ==> s[i].sha256 != s[j].sha256 && s[i].boardId != s[j].boardId
  }

  lemma {:induction false} DistinctUpToIs(m: map<string, Candidate>, ids: seq<string>, seenIds: set<string>,
                                          seenSha: set<string>, k: nat)
    requires k <= |ids| && (forall id :: id in ids ==> id in m && m[id].boardId == id)
    requires forall i, j :: 0 <= i < j < |ids| ==> ids[i] != ids[j]
    ensures var r := DistinctUpTo(m, ids, seenIds, seenSha, k);
            && DistinctContent(r)
            && (forall c :: c in r ==> Unseen(c, seenIds, seenSha) && c.boardId in ids[..k] && m[c.boardId] == c)
            && (forall i :: 0 <= i < k && Unseen(m[ids[i]], seenIds, seenSha) ==> HoldsContent(r, m[ids[i]].sha256))
  {
    if k > 0 {
      DistinctUpToIs(m, ids, seenIds, seenSha, k - 1);
      assert ids[..k] == ids[..k - 1] + [ids[k - 1]];
      var rest, r := DistinctUpTo(m, ids, seenIds, seenSha, k - 1), DistinctUpTo(m, ids, seenIds, seenSha, k);
      var c := m[ids[k - 1]];
      assert r == if Unseen(c, seenIds, seenSha) && !HoldsContent(rest, c.sha256) then rest + [c] else rest;
      forall i | 0 <= i < k && Unseen(m[ids[i]], seenIds, seenSha)
        ensures HoldsContent(r, m[ids[i]].sha256)
      {
        ContentStays(rest, c, m[ids[i]].sha256);
      }
    }
  }

  lemma ContentStays(rest: seq<Candidate>, c: Candidate, sha: string)
    ensures HoldsContent(rest + [c], sha) <==> HoldsContent(rest, sha) || c.sha256 == sha
  {
    if d :| d in rest && d.sha256 == sha {
      assert d in rest + [c];
    }
    if c.sha256 == sha {
      assert c in rest + [c];
    }
  }

  ghost function UnseenContents(cs: seq<Candidate>, seenIds: set<string>, seenSha: set<string>): set<string> {
    set c | c in cs && Unseen(c, seenIds, seenSha) :: c.sha256
  }

  function Contents(s: seq<Candidate>): (r: seq<string>)
    ensures |r| == |s|
    ensures forall i :: 0 <= i < |s| ==> r[i] == s[i].sha256
  {
    seq(|s|, i requires 0 <= i < |s| => s[i].sha256)
  }

  /** The available candidates are unseen ones of distinct contents, every unseen content among them. */
  lemma AvailableIs(cs: seq<Candidate>, m: map<string, Candidate>, seenIds: set<string>, seenSha: set<string>)
    requires IsIndex(cs, m)
    ensures var r := Available(m, seenIds, seenSha);
            && DistinctContent(r)
            && (forall c :: c in r ==> c in cs && Unseen(c, seenIds, seenSha))
            && (forall c :: c in cs && Unseen(c, seenIds, seenSha) ==> HoldsContent(r, c.sha256))
  {
    var ids := SortSet(m.Keys);
    SortSetIs(m.Keys);
    DistinctUpToIs(m, ids, seenIds, seenSha, |ids|);
    assert ids[..|ids|] == ids;
    AvailableUnfolds(m, ids, seenIds, seenSha);
    DrawnFromIndex(cs, m, ids, seenIds, seenSha, Available(m, seenIds, seenSha));
  }

  lemma AvailableUnfolds(m: map<string, Candidate>, ids: seq<string>, seenIds: set<string>, seenSha: set<string>)
    requires ids == SortSet(m.Keys) && forall id :: id in ids ==> id in m
    ensures Available(m, seenIds, seenSha) == DistinctUpTo(m, ids, seenIds, seenSha, |ids|)
  {
  }

  lemma DrawnFromIndex(cs: seq<Candidate>, m: map<string, Candidate>, ids: seq<string>, seenIds: set<string>,
                       seenSha: set<string>, r: seq<Candidate>)
    requires IsIndex(cs, m) && forall id :: id in ids <==> id in m
    requires forall c :: c in r ==> Unseen(c, seenIds, seenSha) && c.boardId in ids && m[c.boardId] == c
    requires forall i :: 0 <= i < |ids| && Unseen(m[ids[i]], seenIds, seenSha) ==> HoldsContent(r, m[ids[i]].sha256)
    ensures forall c :: c in r ==> c in cs && Unseen(c, seenIds, seenSha)
    ensures forall c :: c in cs && Unseen(c, seenIds, seenSha) ==> HoldsContent(r, c.sha256)
  {
    forall c | c in cs && Unseen(c, seenIds, seenSha)
      ensures HoldsContent(r, c.sha256)
    {
      assert c.boardId in ids;
      var i :| 0 <= i < |ids| && ids[i] == c.boardId;
      assert m[ids[i]] == c;
    }
  }

  /** So there are as many of them as there are unseen contents. */
  lemma AvailableCount(cs: seq<Candidate>, m: map<string, Candidate>, seenIds: set<string>, seenSha: set<string>)
    requires IsIndex(cs, m)
    ensures |Available(m, seenIds, seenSha)| == |UnseenContents(cs, seenIds, seenSha)|
  {
    AvailableIs(cs, m, seenIds, seenSha);
    var r := Available(m, seenIds, seenSha);
    var contents, shas := UnseenContents(cs, seenIds, seenSha), Contents(r);
    forall x
      ensures x in contents <==> x in shas
    {
      ContentListed(r, x);
    }
    DistinctLength(shas, contents);
  }

  lemma ContentListed(r: seq<Candidate>, x: string)
    ensures HoldsContent(r, x) <==> x in Contents(r)
  {
    if HoldsContent(r, x) {
      var d :| d in r && d.sha256 == x;
      var k :| 0 <= k < |r| && r[k] == d;
      assert Contents(r)[k] == x;
    }
    if x in Contents(r) {
      var k :| 0 <= k < |r| && Contents(r)[k] == x;
      assert r[k] in r;
    }
  }

  // ---------------------------------------------------------------------------------------------
  // The greedy choice
  // ---------------------------------------------------------------------------------------------

  function Sources(s: seq<Candidate>): set<string> {
    set c | c in s :: c.sourceId
  }

  function Formats(s: seq<Candidate>): set<string> {
    set c | c in s :: c.inputFormat
  }

  function AxisSet(c: Candidate): set<string> {
    set a | a in c.axes
  }

  function Axes(s: seq<Candidate>): set<string> {
    set c, a | c in s && a in c.axes :: a
  }

  /** What the boards selected so far already cover. */
  datatype Cover = Cover(sources: set<string>, formats: set<string>, axes: set<string>)

  function CoverOf(s: seq<Candidate>): Cover {
    Cover(Sources(s), Formats(s), Axes(s))
  }

  function Score(c: Candidate, cover: Cover): nat {
    (if c.inputFormat !in cover.formats then 10_000 else 0)
    + (if c.sourceId !in cover.sources then 1_000 else 0)
    + 100 * |AxisSet(c) - cover.axes|
  }

  /** A candidate's sort key: its score, and its rank. */
  type Key = (nat, nat)

  function KeyOf(c: Candidate, cover: Cover, rank: Rank): Key {
    (Score(c, cover), rank(c.boardId))
  }

  /** Ahead of another: worth more, or as much with a lower rank. */
  predicate Ahead(k: Key, l: Key) {
    k.0 > l.0 || (k.0 == l.0 && k.1 < l.1)
  }

  function Keys(remaining: seq<Candidate>, cover: Cover, rank: Rank): (r: seq<Key>)
    ensures |r| == |remaining|
    ensures forall i :: 0 <= i < |remaining| ==> r[i] == KeyOf(remaining[i], cover, rank)
  {
    seq(|remaining|, i requires 0 <= i < |remaining| => KeyOf(remaining[i], cover, rank))
  }

  /** The first of the first `k` keys that none of them is ahead of. */
  function FirstBest(keys: seq<Key>, k: nat): (i: nat)
    requires 0 < k <= |keys|
    ensures i < k
  {
    if k == 1 then 0
    else
      var best := FirstBest(keys, k - 1);
      if Ahead(keys[k - 1], keys[best]) then k - 1 else best
  }

  lemma {:induction false} NothingAhead(keys: seq<Key>, k: nat, j: nat)
    requires j < k <= |keys|
    ensures !Ahead(keys[j], keys[FirstBest(keys, k)])
    ensures j < FirstBest(keys, k) ==> keys[j] != keys[FirstBest(keys, k)]
    decreases k
  {
    if k > 1 {
      NothingAhead(keys, k - 1, FirstBest(keys, k - 1));
      if j < k - 1 {
        NothingAhead(keys, k - 1, j);
      }
    }
  }

  /** The place of the candidate chosen next. */
  function Choice(remaining: seq<Candidate>, cover: Cover, rank: Rank): (i: nat)
    requires remaining != []
    ensures i < |remaining|
  {
    FirstBest(Keys(remaining, cover, rank), |remaining|)
  }

  function GreedyFrom(remaining: seq<Candidate>, selected: seq<Candidate>, rank: Rank, count: nat): (r: seq<Candidate>)
    requires |selected| <= count <= |selected| + |remaining|
    decreases count - |selected|
  {
    if |selected| == count then selected
    else
      var i := Choice(remaining, CoverOf(selected), rank);
      GreedyFrom(Without(remaining, i), selected + [remaining[i]], rank, count)
  }

  /** The whole selection as a function of the candidates' index. */
  ghost function SelectSpec(m: map<string, Candidate>, seenIds: set<string>, seenSha: set<string>, count: int, rank: Rank)
    : Result<seq<Candidate>, SelectionError>
  {
    var available := Available(m, seenIds, seenSha);
    if count < 1 then Err(CountNotPositive)
    else if |available| < count then Err(TooFew(|available|, |m|))
    else Ok(GreedyFrom(available, [], rank, count))
  }

  method DistinctUnseen(unique: map<string, Candidate>, seenIds: set<string>, seenSha: set<string>)
    returns (available: seq<Candidate>)
    ensures available == Available(unique, seenIds, seenSha)
  {
    var ids := ListSorted(unique.Keys);
    SortSetIs(unique.Keys);
    available := [];
    for i := 0 to |ids|
      invariant available == DistinctUpTo(unique, ids, seenIds, seenSha, i)
    {
      assert ids[i] in ids;
      var item := unique[ids[i]];
      if Unseen(item, seenIds, seenSha) && !HoldsContent(available, item.sha256) {
        available := available + [item];
      }
    }
  }

  method FindBest(remaining: seq<Candidate>, cover: Cover, rank: Rank) returns (best: nat)
    requires remaining != []
    ensures best == Choice(remaining, cover, rank)
  {
    best := 0;
    var keys := Keys(remaining, cover, rank);
    for j := 1 to |keys|
      invariant best == FirstBest(keys, j)
    {
      if Ahead(keys[j], keys[best]) {
        best := j;
      }
    }
  }

  lemma CoverGrows(s: seq<Candidate>, c: Candidate)
    ensures Sources(s + [c]) == Sources(s) + {c.sourceId}
    ensures Formats(s + [c]) == Formats(s) + {c.inputFormat}
    ensures Axes(s + [c]) == Axes(s) + AxisSet(c)
  {
  }

  method SelectGreedily(available: seq<Candidate>, rank: Rank, count: nat) returns (selected: seq<Candidate>)
    requires count <= |available|
    ensures selected == GreedyFrom(available, [], rank, count)
  {
    selected := [];
    var remaining := available;
    var sources: set<string>, formats: set<string>, axes: set<string> := {}, {}, {};
    while |selected| < count
      invariant |selected| <= count <= |selected| + |remaining|
      invariant Cover(sources, formats, axes) == CoverOf(selected)
      invariant GreedyFrom(remaining, selected, rank, count) == GreedyFrom(available, [], rank, count)
      decreases count - |selected|
    {
      var best := FindBest(remaining, Cover(sources, formats, axes), rank);
      var choice := remaining[best];
      CoverGrows(selected, choice);
      selected := selected + [choice];
      sources := sources + {choice.sourceId};
      formats := formats + {choice.inputFormat};
      axes := axes + AxisSet(choice);
      remaining := Without(remaining, best);
    }
  }

  method SelectUnseen(cs: seq<Candidate>, seenIds: set<string>, seenSha: set<string>, count: int, rank: Rank)
    returns (r: Result<seq<Candidate>, SelectionError>)
    ensures count < 1 ==> r == Err(CountNotPositive)
    ensures count >= 1 && !Consistent(cs) ==> r == Err(ConflictingCandidates)
    ensures forall m :: IsIndex(cs, m) ==> r == SelectSpec(m, seenIds, seenSha, count, rank)
  {
    if count < 1 {
      return Err(CountNotPositive);
    }
    var index := UniqueCandidates(cs);
    forall m | IsIndex(cs, m)
      ensures Consistent(cs) && index.Ok? && m == index.value
    {
      IndexConsistent(cs, m);
      IndexIgnoresOrder(cs, cs, m, index.value);
    }
    if index.Err? {
      return Err(index.error);
    }
    var unique := index.value;
    var available := DistinctUnseen(unique, seenIds, seenSha);
    if |available| < count {
      return Err(TooFew(|available|, |unique|));
    }
    var selected := SelectGreedily(available, rank, count);
    r := Ok(selected);
  }

  lemma IndexConsistent(cs: seq<Candidate>, m: map<string, Candidate>)
    requires IsIndex(cs, m)
    ensures Consistent(cs)
  {
  }

  // ---------------------------------------------------------------------------------------------
  // What is selected
  // ---------------------------------------------------------------------------------------------

  lemma {:induction false} GreedyPartitions(remaining: seq<Candidate>, selected: seq<Candidate>, rank: Rank, count: nat)
    returns (rest: seq<Candidate>)
    requires |selected| <= count <= |selected| + |remaining|
    ensures var r := GreedyFrom(remaining, selected, rank, count);
            |r| == count && multiset(r) + multiset(rest) == multiset(selected) + multiset(remaining)
    decreases count - |selected|
  {
    if |selected| == count {
      rest := remaining;
    } else {
      var i := Choice(remaining, CoverOf(selected), rank);
      WithoutMultiset(remaining, i);
      assert multiset(selected + [remaining[i]]) == multiset(selected) + multiset{remaining[i]};
      rest := GreedyPartitions(Without(remaining, i), selected + [remaining[i]], rank, count);
    }
  }

  lemma SubMultisetDistinct(r: seq<Candidate>, rest: seq<Candidate>, all: seq<Candidate>)
    requires multiset(r) + multiset(rest) == multiset(all) && DistinctContent(all)
    ensures DistinctContent(r) && forall c :: c in r ==> c in all
  {
    forall c | c in r
      ensures c in all
    {
      assert c in multiset(r);
      assert c in multiset(all);
    }
    forall i, j | 0 <= i < j < |r|
      ensures r[i].sha256 != r[j].sha256 && r[i].boardId != r[j].boardId
    {
      assert r[i] in r && r[j] in r;
      var a :| 0 <= a < |all| && all[a] == r[i];
      var b :| 0 <= b < |all| && all[b] == r[j];
      if a == b {
        TwiceInMultiset(r, i, j);
        OnceInMultiset(all, a);
        assert false;
      }
    }
  }

  lemma {:induction false} OnceInMultiset(all: seq<Candidate>, a: nat)
    requires a < |all| && DistinctContent(all)
    ensures multiset(all)[all[a]] == 1
  {
    assert all == all[..a] + [all[a]] + all[a + 1..];
    assert all[a] !in multiset(all[..a]) && all[a] !in multiset(all[a + 1..]);
  }

  /**
    A selection has exactly the boards asked for, distinct in id and in content and none of them
    seen; and it fails exactly when fewer unseen contents remain.
   */
  lemma SelectionIsUnseen(cs: seq<Candidate>, m: map<string, Candidate>, seenIds: set<string>, seenSha: set<string>,
                          count: int, rank: Rank)
    requires IsIndex(cs, m) && count >= 1
    ensures var r := SelectSpec(m, seenIds, seenSha, count, rank);
            && (r.Ok? <==> count <= |UnseenContents(cs, seenIds, seenSha)|)
            && (r.Ok? ==>
                  && |r.value| == count && DistinctContent(r.value)
                  && (forall c :: c in r.value ==> c in cs && Unseen(c, seenIds, seenSha)))
  {
    AvailableIs(cs, m, seenIds, seenSha);
    AvailableCount(cs, m, seenIds, seenSha);
    var available := Available(m, seenIds, seenSha);
    if count <= |available| {
      var rest := GreedyPartitions(available, [], rank, count);
      var r := GreedyFrom(available, [], rank, count);
      assert multiset(r) + multiset(rest) == multiset(available);
      SubMultisetDistinct(r, rest, available);
    }
  }

  /** Listing the candidates in another order, or some of them twice, selects the same boards. */
  lemma SelectionIgnoresOrder(cs: seq<Candidate>, ds: seq<Candidate>, m: map<string, Candidate>, n: map<string, Candidate>,
                              seenIds: set<string>, seenSha: set<string>, count: int, rank: Rank)
    requires forall c :: c in cs <==> c in ds
    requires IsIndex(cs, m) && IsIndex(ds, n)
    ensures Consistent(cs) && Consistent(ds)
    ensures SelectSpec(m, seenIds, seenSha, count, rank) == SelectSpec(n, seenIds, seenSha, count, rank)
  {
    IndexIgnoresOrder(cs, ds, m, n);
  }

  // ---------------------------------------------------------------------------------------------
  // Format coverage
  // ---------------------------------------------------------------------------------------------

  /** With this few axes a covered format can never outscore a new one. */
  const AXIS_LIMIT: nat := 89

  ghost predicate FewAxes(s: seq<Candidate>) {
    forall c :: c in s ==> |AxisSet(c)| <= AXIS_LIMIT
  }

  /** A new format outweighs everything a covered format can offer. */
  lemma NewFormatWins(c: Candidate, d: Candidate, cover: Cover, rank: Rank)
    requires c.inputFormat !in cover.formats && d.inputFormat in cover.formats
    requires |AxisSet(d)| <= AXIS_LIMIT
    ensures Ahead(KeyOf(c, cover, rank), KeyOf(d, cover, rank))
  {
    SubsetSize(AxisSet(d) - cover.axes, AxisSet(d));
  }

  ghost function Min(a: nat, b: nat): nat {
    if a < b then a else b
  }

  lemma FormatsStep(remaining: seq<Candidate>, selected: seq<Candidate>, i: nat)
    requires i < |remaining|
    ensures Formats(selected + [remaining[i]]) == Formats(selected) + {remaining[i].inputFormat}
    ensures Formats(remaining) == Formats(Without(remaining, i)) + {remaining[i].inputFormat}
    ensures Formats(selected + [remaining[i]]) + Formats(Without(remaining, i)) == Formats(selected) + Formats(remaining)
    ensures forall c :: c in Without(remaining, i) ==> c in remaining
  {
    WithoutMembers(remaining, i);
  }

  /** Once every format is covered the rest adds none. */
  lemma {:induction false} GreedyStaysCovered(remaining: seq<Candidate>, selected: seq<Candidate>, rank: Rank, count: nat)
    requires |selected| <= count <= |selected| + |remaining| && Formats(remaining) <= Formats(selected)
    ensures Formats(GreedyFrom(remaining, selected, rank, count)) == Formats(selected)
    decreases count - |selected|
  {
    if |selected| < count {
      var i := Choice(remaining, CoverOf(selected), rank);
      FormatsStep(remaining, selected, i);
      GreedyStaysCovered(Without(remaining, i), selected + [remaining[i]], rank, count);
    }
  }

  /** While some format is not covered the choice covers one. */
  lemma ChoiceIsNewFormat(remaining: seq<Candidate>, selected: seq<Candidate>, rank: Rank)
    requires FewAxes(remaining) && !(Formats(remaining) <= Formats(selected))
    ensures remaining != []
    ensures remaining[Choice(remaining, CoverOf(selected), rank)].inputFormat !in Formats(selected)
  {
    var f :| f in Formats(remaining) && f !in Formats(selected);
    var c :| c in remaining && c.inputFormat == f;
    var j :| 0 <= j < |remaining| && remaining[j] == c;
    var choice := remaining[Choice(remaining, CoverOf(selected), rank)];
    var cover := CoverOf(selected);
    assert !Ahead(KeyOf(c, cover, rank), KeyOf(choice, cover, rank)) by {
      NothingAhead(Keys(remaining, cover, rank), |remaining|, j);
    }
    if choice.inputFormat in Formats(selected) {
      assert choice in remaining;
      NewFormatWins(c, choice, cover, rank);
    }
  }

  lemma {:induction false} GreedyCovers(remaining: seq<Candidate>, selected: seq<Candidate>, rank: Rank, count: nat)
    requires |selected| <= count <= |selected| + |remaining| && FewAxes(remaining)
    requires |Formats(selected)| == |selected|
    ensures |Formats(GreedyFrom(remaining, selected, rank, count))|
            == Min(count, |Formats(selected) + Formats(remaining)|)
    decreases count - |selected|
  {
    if |selected| == count {
      SubsetSize(Formats(selected), Formats(selected) + Formats(remaining));
    } else if Formats(remaining) <= Formats(selected) {
      GreedyStaysCovered(remaining, selected, rank, count);
      assert Formats(selected) + Formats(remaining) == Formats(selected);
    } else {
      var i := NewFormatStep(remaining, selected, rank, count);
      GreedyCovers(Without(remaining, i), selected + [remaining[i]], rank, count);
    }
  }

  lemma GreedyStep(remaining: seq<Candidate>, selected: seq<Candidate>, rank: Rank, count: nat)
    requires |selected| < count <= |selected| + |remaining|
    ensures var i := Choice(remaining, CoverOf(selected), rank);
            GreedyFrom(remaining, selected, rank, count)
            == GreedyFrom(Without(remaining, i), selected + [remaining[i]], rank, count)
  {
  }

  lemma NewFormatStep(remaining: seq<Candidate>, selected: seq<Candidate>, rank: Rank, count: nat) returns (i: nat)
    requires |selected| < count <= |selected| + |remaining| && FewAxes(remaining)
    requires |Formats(selected)| == |selected| && !(Formats(remaining) <= Formats(selected))
    ensures i < |remaining| && FewAxes(Without(remaining, i))
    ensures var rest, next := Without(remaining, i), selected + [remaining[i]];
            && |Formats(next)| == |next|
            && Formats(next) + Formats(rest) == Formats(selected) + Formats(remaining)
            && GreedyFrom(remaining, selected, rank, count) == GreedyFrom(rest, next, rank, count)
  {
    ChoiceIsNewFormat(remaining, selected, rank);
    i := Choice(remaining, CoverOf(selected), rank);
    FormatsStep(remaining, selected, i);
    GreedyStep(remaining, selected, rank, count);
  }

  /** The selection covers as many input formats as it can. */
  lemma SelectionCoversFormats(m: map<string, Candidate>, seenIds: set<string>, seenSha: set<string>, count: int, rank: Rank)
    requires SelectSpec(m, seenIds, seenSha, count, rank).Ok?
    requires FewAxes(Available(m, seenIds, seenSha))
    ensures |Formats(SelectSpec(m, seenIds, seenSha, count, rank).value)|
            == Min(count, |Formats(Available(m, seenIds, seenSha))|)
  {
    var available := Available(m, seenIds, seenSha);
    assert Formats([]) == {};
    GreedyCovers(available, [], rank, count);
    assert Formats([]) + Formats(available) == Formats(available);
  }
}
