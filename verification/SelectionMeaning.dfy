/** Which boards the selector draws, and in which order, read off the candidates themselves. */
module SelectionMeaning {
  import opened Wrappers
  import opened Sequences
  import opened Order
  import opened Selection

  // ---------------------------------------------------------------------------------------------
  // What a candidate is worth
  // ---------------------------------------------------------------------------------------------

  /** No board chosen so far has the candidate's format. */
  predicate NewFormat(c: Candidate, chosen: seq<Candidate>) {
    forall d :: d in chosen ==> d.inputFormat != c.inputFormat
  }

  predicate NewSource(c: Candidate, chosen: seq<Candidate>) {
    forall d :: d in chosen ==> d.sourceId != c.sourceId
  }

  /** The candidate's axes that no board chosen so far has. */
  function NewAxes(c: Candidate, chosen: seq<Candidate>): set<string> {
    set a | a in c.axes && forall d :: d in chosen ==> a !in d.axes
  }

  /** Ten thousand for a new format, a thousand for a new source, a hundred for each new axis. */
  function Worth(c: Candidate, chosen: seq<Candidate>): nat {
    (if NewFormat(c, chosen) then 10000 else 0) + (if NewSource(c, chosen) then 1000 else 0) + 100 * |NewAxes(c, chosen)|
  }

  /** Worth more, or as much and ranked lower. */
  predicate Better(c: Candidate, d: Candidate, chosen: seq<Candidate>, rank: Rank) {
    Worth(c, chosen) > Worth(d, chosen) || (Worth(c, chosen) == Worth(d, chosen) && rank(c.boardId) < rank(d.boardId))
  }

  lemma WorthIs(c: Candidate, chosen: seq<Candidate>)
    ensures Score(c, CoverOf(chosen)) == Worth(c, chosen)
  {
    assert AxisSet(c) - Axes(chosen) == NewAxes(c, chosen);
  }

  lemma BetterIff(c: Candidate, d: Candidate, chosen: seq<Candidate>, rank: Rank)
    ensures Ahead(KeyOf(c, CoverOf(chosen), rank), KeyOf(d, CoverOf(chosen), rank)) <==> Better(c, d, chosen, rank)
  {
    WorthIs(c, chosen);
    WorthIs(d, chosen);
  }

  /** As new otherwise, a board of a new source goes before one of a covered source. */
  lemma NewSourceWins(c: Candidate, d: Candidate, chosen: seq<Candidate>, rank: Rank)
    requires NewSource(c, chosen) && !NewSource(d, chosen) && (NewFormat(d, chosen) ==> NewFormat(c, chosen))
    requires |NewAxes(d, chosen)| < |NewAxes(c, chosen)| + 10
    ensures Better(c, d, chosen, rank)
  {
  }

  /** As new otherwise, a board with more new axes goes before one with fewer. */
  lemma MoreAxesWin(c: Candidate, d: Candidate, chosen: seq<Candidate>, rank: Rank)
    requires (NewSource(d, chosen) ==> NewSource(c, chosen)) && (NewFormat(d, chosen) ==> NewFormat(c, chosen))
    requires |NewAxes(c, chosen)| > |NewAxes(d, chosen)|
    ensures Better(c, d, chosen, rank)
  {
  }

  /** Between boards as new in every way the lower rank goes first. */
  lemma LowerRankWins(c: Candidate, d: Candidate, chosen: seq<Candidate>, rank: Rank)
    requires (NewSource(c, chosen) <==> NewSource(d, chosen)) && (NewFormat(c, chosen) <==> NewFormat(d, chosen))
    requires |NewAxes(c, chosen)| == |NewAxes(d, chosen)|
    ensures Better(c, d, chosen, rank) <==> rank(c.boardId) < rank(d.boardId)
  {
  }

  // ---------------------------------------------------------------------------------------------
  // The order of the selection
  // ---------------------------------------------------------------------------------------------

  /** None of the boards not chosen yet is better than this one. */
  predicate BestAt(chosen: seq<Candidate>, d: Candidate, available: seq<Candidate>, rank: Rank) {
    forall c :: c in available && c !in chosen ==> !Better(c, d, chosen, rank)
  }

  /** At every place from `from` on, none of the boards left was better than the one drawn. */
  ghost predicate BestFrom(r: seq<Candidate>, available: seq<Candidate>, rank: Rank, from: nat) {
    forall k :: from <= k < |r| ==> BestAt(r[..k], r[k], available, rank)
  }

  lemma ChoiceIsBest(remaining: seq<Candidate>, chosen: seq<Candidate>, rank: Rank, c: Candidate)
    requires c in remaining
    ensures !Better(c, remaining[Choice(remaining, CoverOf(chosen), rank)], chosen, rank)
  {
    var j: nat :| j < |remaining| && remaining[j] == c;
    NothingAhead(Keys(remaining, CoverOf(chosen), rank), |remaining|, j);
    BetterIff(c, remaining[Choice(remaining, CoverOf(chosen), rank)], chosen, rank);
  }

  lemma LeftIsRemaining(available: seq<Candidate>, remaining: seq<Candidate>, selected: seq<Candidate>, c: Candidate)
    requires multiset(selected) + multiset(remaining) == multiset(available) && c in available && c !in selected
    ensures c in remaining
  {
    assert c in multiset(available);
    assert c in multiset(remaining);
  }

  lemma ChosenIsBest(available: seq<Candidate>, remaining: seq<Candidate>, selected: seq<Candidate>, rank: Rank)
    requires remaining != [] && multiset(selected) + multiset(remaining) == multiset(available)
    ensures BestAt(selected, remaining[Choice(remaining, CoverOf(selected), rank)], available, rank)
  {
    var i := Choice(remaining, CoverOf(selected), rank);
    forall c | c in available && c !in selected
      ensures !Better(c, remaining[i], selected, rank)
    {
      LeftIsRemaining(available, remaining, selected, c);
      ChoiceIsBest(remaining, selected, rank, c);
    }
  }

  lemma BestOneEarlier(r: seq<Candidate>, available: seq<Candidate>, rank: Rank, selected: seq<Candidate>, d: Candidate)
    requires selected + [d] <= r && BestFrom(r, available, rank, |selected| + 1) && BestAt(selected, d, available, rank)
    ensures selected <= r && BestFrom(r, available, rank, |selected|)
  {
    assert r[..|selected| + 1] == selected + [d];
    assert r[..|selected|] == selected && r[|selected|] == d;
  }

  lemma MovedOver(remaining: seq<Candidate>, selected: seq<Candidate>, all: multiset<Candidate>, i: nat)
    requires i < |remaining| && multiset(selected) + multiset(remaining) == all
    ensures multiset(selected + [remaining[i]]) + multiset(Without(remaining, i)) == all
  {
    WithoutMultiset(remaining, i);
    assert multiset(selected + [remaining[i]]) == multiset(selected) + multiset{remaining[i]};
  }

  lemma {:induction false} GreedyIsBest(available: seq<Candidate>, remaining: seq<Candidate>, selected: seq<Candidate>, rank: Rank,
                                        count: nat)
    requires |selected| <= count <= |selected| + |remaining|
    requires multiset(selected) + multiset(remaining) == multiset(available)
    ensures selected <= GreedyFrom(remaining, selected, rank, count)
    ensures BestFrom(GreedyFrom(remaining, selected, rank, count), available, rank, |selected|)
    decreases count - |selected|
  {
    if |selected| < count {
      var i := Choice(remaining, CoverOf(selected), rank);
      GreedyStep(remaining, selected, rank, count);
      MovedOver(remaining, selected, multiset(available), i);
      ChosenIsBest(available, remaining, selected, rank);
      GreedyIsBest(available, Without(remaining, i), selected + [remaining[i]], rank, count);
      BestOneEarlier(GreedyFrom(remaining, selected, rank, count), available, rank, selected, remaining[i]);
    }
  }

  /** What one more id adds to the boards drawn from. */
  lemma DistinctStep(m: map<string, Candidate>, ids: seq<string>, seenIds: set<string>, seenSha: set<string>, k: nat)
    requires 0 < k <= |ids| && forall id :: id in ids ==> id in m
    ensures var rest, last := DistinctUpTo(m, ids, seenIds, seenSha, k - 1), m[ids[k - 1]];
            DistinctUpTo(m, ids, seenIds, seenSha, k) ==
            if Unseen(last, seenIds, seenSha) && !HoldsContent(rest, last.sha256) then rest + [last] else rest
  {
  }

  /** A board drawn from has the least id among the unseen ones of its content. */
  ghost predicate LeastUpTo(m: map<string, Candidate>, ids: seq<string>, seenIds: set<string>, seenSha: set<string>, k: nat,
                            c: Candidate)
    requires k <= |ids| && forall id :: id in ids ==> id in m
  {
    forall j :: 0 <= j < k && Unseen(m[ids[j]], seenIds, seenSha) && m[ids[j]].sha256 == c.sha256 ==> Leq(c.boardId, ids[j])
  }

  /** Of the unseen boards of one content, the one with the least id is drawn from. */
  lemma {:induction false} LeastIdOfContent(m: map<string, Candidate>, ids: seq<string>, seenIds: set<string>, seenSha: set<string>,
                                            k: nat, c: Candidate)
    requires k <= |ids| && (forall id :: id in ids ==> id in m && m[id].boardId == id) && Sorted(ids)
    requires forall i, j :: 0 <= i < j < |ids| ==> ids[i] != ids[j]
    requires c in DistinctUpTo(m, ids, seenIds, seenSha, k)
    ensures LeastUpTo(m, ids, seenIds, seenSha, k, c)
  {
    DistinctStep(m, ids, seenIds, seenSha, k);
    var rest := DistinctUpTo(m, ids, seenIds, seenSha, k - 1);
    DistinctUpToIs(m, ids, seenIds, seenSha, k - 1);
    LeqRefl(c.boardId);
    if c in rest {
      LeastIdOfContent(m, ids, seenIds, seenSha, k - 1, c);
      assert c.boardId in ids[..k - 1];
      var i :| 0 <= i < k - 1 && ids[i] == c.boardId;
      assert Leq(c.boardId, ids[k - 1]);
    }
  }

  /** The boards drawn from: unseen, one for each content, the one with its least id. */
  ghost predicate DrawnFrom(cs: seq<Candidate>, seenIds: set<string>, seenSha: set<string>, available: seq<Candidate>) {
    && (forall c :: c in available <==>
          && c in cs && c.boardId !in seenIds && c.sha256 !in seenSha
          && forall d :: d in cs && d.boardId !in seenIds && d.sha256 !in seenSha && d.sha256 == c.sha256 ==> Leq(c.boardId, d.boardId))
    && (forall i, j :: 0 <= i < j < |available| ==> available[i].sha256 != available[j].sha256)
  }

  lemma AvailableIsLeast(cs: seq<Candidate>, m: map<string, Candidate>, seenIds: set<string>, seenSha: set<string>, c: Candidate,
                         d: Candidate)
    requires IsIndex(cs, m) && c in Available(m, seenIds, seenSha)
    requires d in cs && Unseen(d, seenIds, seenSha) && d.sha256 == c.sha256
    ensures Leq(c.boardId, d.boardId)
  {
    var ids := SortSet(m.Keys);
    SortSetIs(m.Keys);
    AvailableUnfolds(m, ids, seenIds, seenSha);
    assert d.boardId in ids;
    var j: nat :| j < |ids| && ids[j] == d.boardId;
    LeastIdOfContent(m, ids, seenIds, seenSha, |ids|, c);
    assert m[ids[j]] == d;
  }

  lemma AvailableIff(cs: seq<Candidate>, m: map<string, Candidate>, seenIds: set<string>, seenSha: set<string>)
    requires IsIndex(cs, m)
    ensures DrawnFrom(cs, seenIds, seenSha, Available(m, seenIds, seenSha))
  {
    var available := Available(m, seenIds, seenSha);
    AvailableIs(cs, m, seenIds, seenSha);
    forall c, d | c in available && d in cs && Unseen(d, seenIds, seenSha) && d.sha256 == c.sha256
      ensures Leq(c.boardId, d.boardId)
    {
      AvailableIsLeast(cs, m, seenIds, seenSha, c, d);
    }
    forall c | c in cs && Unseen(c, seenIds, seenSha)
               && forall d :: d in cs && Unseen(d, seenIds, seenSha) && d.sha256 == c.sha256 ==> Leq(c.boardId, d.boardId)
      ensures c in available
    {
      var d :| d in available && d.sha256 == c.sha256;
      LeqTotal(c.boardId, d.boardId);
      assert m[c.boardId] == c && m[d.boardId] == d;
    }
  }

  /**
    The selection, in order: each board drawn is of those drawn from, and when it was drawn none of the
    others left was better.
   */
  lemma SelectionIsGreedy(cs: seq<Candidate>, m: map<string, Candidate>, seenIds: set<string>, seenSha: set<string>, count: int, rank: Rank)
    returns (available: seq<Candidate>)
    requires IsIndex(cs, m)
    ensures DrawnFrom(cs, seenIds, seenSha, available)
    ensures count < 1 ==> SelectSpec(m, seenIds, seenSha, count, rank) == Err(CountNotPositive)
    ensures count >= 1 && |available| < count ==> SelectSpec(m, seenIds, seenSha, count, rank) == Err(TooFew(|available|, |m|))
    ensures 1 <= count <= |available| ==> SelectSpec(m, seenIds, seenSha, count, rank).Ok?
    ensures SelectSpec(m, seenIds, seenSha, count, rank).Ok? ==>
      var r := SelectSpec(m, seenIds, seenSha, count, rank).value;
      && |r| == count && (forall c :: c in r ==> c in available)
      && (forall i, j :: 0 <= i < j < |r| ==> r[i] != r[j]) && BestFrom(r, available, rank, 0)
  {
    available := Available(m, seenIds, seenSha);
    AvailableIff(cs, m, seenIds, seenSha);
    if 1 <= count <= |available| {
      SelectionIsUnseen(cs, m, seenIds, seenSha, count, rank);
      GreedyIsBest(available, available, [], rank, count);
      var rest := GreedyPartitions(available, [], rank, count);
      AvailableIs(cs, m, seenIds, seenSha);
      SubMultisetDistinct(GreedyFrom(available, [], rank, count), rest, available);
    }
  }
}
