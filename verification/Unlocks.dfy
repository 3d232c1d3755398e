/** The lists a grade carries: distinct parts, and unlock sentences thinned by their shape. */
module Unlocks {
  import Json
  import opened Sequences

  const MAX_UNLOCKS: nat := 8

  // ---------------------------------------------------------------------------------------------
  // Thinning by shape
  // ---------------------------------------------------------------------------------------------

  /** Sentences grouped by shape, groups in order of first appearance. */
  datatype Groups = Groups(shapes: seq<string>, members: seq<seq<string>>)

  function IndexOf(s: seq<string>, x: string): (i: nat)
    ensures i <= |s| && (i < |s| ==> s[i] == x) && (i == |s| <==> x !in s)
  {
    if s == [] then 0 else if s[0] == x then 0 else 1 + IndexOf(s[1..], x)
  }

  function AddTo(g: Groups, shape: string, text: string): Groups
    requires |g.shapes| == |g.members|
  {
    var k := IndexOf(g.shapes, shape);
    if k < |g.shapes| then Groups(g.shapes, g.members[k := g.members[k] + [text]])
    else Groups(g.shapes + [shape], g.members + [[text]])
  }

  // ---------------------------------------------------------------------------------------------
  // Where the grouped sentences stand in the list
  // ---------------------------------------------------------------------------------------------

  ghost predicate Stands(at: seq<seq<nat>>, i: nat) {
    exists k, d :: 0 <= k < |at| && 0 <= d < |at[k]| && at[k][d] == i
  }

  /** Group `k` has one shape, and its members stand at `at[k]`. */
  ghost predicate GroupPlaced(g: Groups, at: seq<seq<nat>>, texts: seq<string>, n: nat, shape: string -> string, k: nat)
    requires n <= |texts| && k < |g.shapes| && |g.shapes| == |g.members| == |at|
  {
    && 0 < |at[k]| == |g.members[k]|
    && (forall d :: 0 <= d < |at[k]| ==>
          at[k][d] < n && g.members[k][d] == texts[at[k][d]] && shape(texts[at[k][d]]) == g.shapes[k])
    && (forall d, e :: 0 <= d < e < |at[k]| ==> at[k][d] < at[k][e])
  }

  predicate StartsBefore(s: seq<nat>, t: seq<nat>) {
    s != [] && t != [] && s[0] < t[0]
  }

  /** The first `n` sentences, grouped by shape: groups and members in order of appearance. */
  ghost predicate Placed(g: Groups, at: seq<seq<nat>>, texts: seq<string>, n: nat, shape: string -> string) {
    && n <= |texts| && |g.shapes| == |g.members| == |at|
    && (forall k :: 0 <= k < |at| ==> GroupPlaced(g, at, texts, n, shape, k))
    && (forall k, l :: 0 <= k < l < |at| ==> g.shapes[k] != g.shapes[l] && StartsBefore(at[k], at[l]))
    && (forall i: nat :: i < n ==> Stands(at, i))
  }

  ghost function AddAt(at: seq<seq<nat>>, k: nat, n: nat): seq<seq<nat>> {
    if k < |at| then at[k := at[k] + [n]] else at + [[n]]
  }

  lemma StandsMore(at: seq<seq<nat>>, k: nat, n: nat)
    requires k <= |at|
    ensures forall i :: Stands(at, i) ==> Stands(AddAt(at, k, n), i)
    ensures Stands(AddAt(at, k, n), n)
  {
    var more := AddAt(at, k, n);
    forall i | Stands(at, i)
      ensures Stands(more, i)
    {
      var l, d :| 0 <= l < |at| && 0 <= d < |at[l]| && at[l][d] == i;
      assert more[l][d] == i;
    }
    assert more[k][|more[k]| - 1] == n;
  }

  lemma PlacedMore(g: Groups, at: seq<seq<nat>>, texts: seq<string>, n: nat, shape: string -> string)
    requires n < |texts| && Placed(g, at, texts, n, shape)
    ensures Placed(AddTo(g, shape(texts[n]), texts[n]), AddAt(at, IndexOf(g.shapes, shape(texts[n])), n), texts, n + 1, shape)
  {
    var k := IndexOf(g.shapes, shape(texts[n]));
    StandsMore(at, k, n);
    GroupsPlaced(g, at, texts, n, shape, k, n + 1);
    GroupsApart(g, at, texts, n, shape, k);
  }

  lemma GroupsPlaced(g: Groups, at: seq<seq<nat>>, texts: seq<string>, n: nat, shape: string -> string, k: nat, more: nat)
    requires n < |texts| && Placed(g, at, texts, n, shape) && k == IndexOf(g.shapes, shape(texts[n])) && more == n + 1
    ensures var g', at' := AddTo(g, shape(texts[n]), texts[n]), AddAt(at, k, n);
            |g'.shapes| == |g'.members| == |at'| && forall l :: 0 <= l < |at'| ==> GroupPlaced(g', at', texts, more, shape, l)
  {
    var g', at' := AddTo(g, shape(texts[n]), texts[n]), AddAt(at, k, n);
    forall l | 0 <= l < |at'|
      ensures GroupPlaced(g', at', texts, more, shape, l)
    {
      assert l < |at| ==> GroupPlaced(g, at, texts, n, shape, l);
    }
  }

  lemma GroupsApart(g: Groups, at: seq<seq<nat>>, texts: seq<string>, n: nat, shape: string -> string, k: nat)
    requires n < |texts| && Placed(g, at, texts, n, shape) && k == IndexOf(g.shapes, shape(texts[n]))
    ensures var g', at' := AddTo(g, shape(texts[n]), texts[n]), AddAt(at, k, n);
            |g'.shapes| == |at'|
            && forall l, m :: 0 <= l < m < |at'| ==> g'.shapes[l] != g'.shapes[m] && StartsBefore(at'[l], at'[m])
  {
    var g', at' := AddTo(g, shape(texts[n]), texts[n]), AddAt(at, k, n);
    forall l, m | 0 <= l < m < |at'|
      ensures g'.shapes[l] != g'.shapes[m] && StartsBefore(at'[l], at'[m])
    {
      assert GroupPlaced(g, at, texts, n, shape, l);
      assert m < |at| ==> StartsBefore(at[l], at[m]);
      assert g.shapes[l] in g.shapes;
    }
  }

  method GroupByShape(texts: seq<string>, shape: string -> string) returns (g: Groups, ghost at: seq<seq<nat>>)
    ensures Placed(g, at, texts, |texts|, shape)
  {
    g, at := Groups([], []), [];
    for i := 0 to |texts|
      invariant Placed(g, at, texts, i, shape)
    {
      PlacedMore(g, at, texts, i, shape);
      at := AddAt(at, IndexOf(g.shapes, shape(texts[i])), i);
      g := AddTo(g, shape(texts[i]), texts[i]);
    }
  }

  // ---------------------------------------------------------------------------------------------
  // The order in which sentences are kept
  // ---------------------------------------------------------------------------------------------

  /** The sentences of the same shape before the `i`-th. */
  ghost function Earlier(texts: seq<string>, shape: string -> string, i: nat): set<nat>
    requires i < |texts|
  {
    set j: nat | j < i && shape(texts[j]) == shape(texts[i])
  }

  /** The shape of the `i`-th appears before that of the `j`-th does. */
  ghost predicate ShapeEarlier(texts: seq<string>, shape: string -> string, i: nat, j: nat)
    requires i < |texts| && j < |texts|
  {
    exists a :: 0 <= a <= i && shape(texts[a]) == shape(texts[i]) && forall b :: 0 <= b <= a ==> shape(texts[b]) != shape(texts[j])
  }

  /** The `i`-th sentence is kept before the `j`-th: it has fewer of its shape before it, or as many and an earlier shape. */
  ghost predicate Before(texts: seq<string>, shape: string -> string, i: nat, j: nat)
    requires i < |texts| && j < |texts|
  {
    var d, e := |Earlier(texts, shape, i)|, |Earlier(texts, shape, j)|;
    d < e || (d == e && ShapeEarlier(texts, shape, i, j))
  }

  /** A member's place in its group is how many of its shape stand before it. */
  lemma DepthIs(g: Groups, at: seq<seq<nat>>, texts: seq<string>, shape: string -> string, k: nat, d: nat)
    requires Placed(g, at, texts, |texts|, shape) && k < |at| && d < |at[k]|
    ensures at[k][d] < |texts| && |Earlier(texts, shape, at[k][d])| == d
  {
    assert GroupPlaced(g, at, texts, |texts|, shape, k);
    var i := at[k][d];
    forall j: nat
      ensures j in Earlier(texts, shape, i) <==> j in at[k][..d]
    {
      if j in Earlier(texts, shape, i) {
        assert Stands(at, j);
        var l, e :| 0 <= l < |at| && 0 <= e < |at[l]| && at[l][e] == j;
        assert GroupPlaced(g, at, texts, |texts|, shape, l);
        assert l == k && e < d;
        assert at[k][..d][e] == j;
      }
    }
    assert Earlier(texts, shape, i) == set x | x in at[k][..d];
    DistinctLength(at[k][..d], Earlier(texts, shape, i));
  }

  /** Groups are in the order in which their shapes appear. */
  lemma GroupsInOrder(g: Groups, at: seq<seq<nat>>, texts: seq<string>, shape: string -> string, k: nat, d: nat, l: nat, e: nat)
    requires Placed(g, at, texts, |texts|, shape) && k < l < |at| && d < |at[k]| && e < |at[l]|
    ensures at[k][d] < |texts| && at[l][e] < |texts| && ShapeEarlier(texts, shape, at[k][d], at[l][e])
  {
    assert GroupPlaced(g, at, texts, |texts|, shape, k) && GroupPlaced(g, at, texts, |texts|, shape, l);
    var a := at[k][0];
    assert StartsBefore(at[k], at[l]);
    forall b | 0 <= b <= a
      ensures shape(texts[b]) != shape(texts[at[l][e]])
    {
      assert Stands(at, b);
      var m, x :| 0 <= m < |at| && 0 <= x < |at[m]| && at[m][x] == b;
      assert GroupPlaced(g, at, texts, |texts|, shape, m);
    }
    assert a <= at[k][d] && shape(texts[a]) == shape(texts[at[k][d]]);
  }

  // ---------------------------------------------------------------------------------------------
  // Round after round
  // ---------------------------------------------------------------------------------------------

  /** The `d`-th members of the groups before `j`. */
  ghost function Level(at: seq<seq<nat>>, d: nat, j: nat): seq<nat>
    requires j <= |at|
  {
    if j == 0 then [] else Level(at, d, j - 1) + if d < |at[j - 1]| then [at[j - 1][d]] else []
  }

  ghost function Levels(at: seq<seq<nat>>, depth: nat): seq<nat> {
    if depth == 0 then [] else Levels(at, depth - 1) + Level(at, depth - 1, |at|)
  }

  ghost function Eight(s: seq<nat>): seq<nat> {
    if |s| <= MAX_UNLOCKS then s else s[..MAX_UNLOCKS]
  }

  /** What is chosen once all groups gave `depth` members, and those before `j` one more. */
  ghost function Chosen(at: seq<seq<nat>>, depth: nat, j: nat): seq<nat>
    requires j <= |at|
  {
    Eight(Levels(at, depth) + Level(at, depth, j))
  }

  /** The kept sentences are those that stand there. */
  ghost predicate Spells(kept: seq<string>, texts: seq<string>, picks: seq<nat>) {
    |kept| == |picks| && forall i :: 0 <= i < |picks| ==> picks[i] < |texts| && kept[i] == texts[picks[i]]
  }

  lemma ChosenStep(at: seq<seq<nat>>, depth: nat, j: nat)
    requires j < |at|
    ensures Chosen(at, depth, j + 1) ==
            Chosen(at, depth, j) + if depth < |at[j]| && |Chosen(at, depth, j)| < MAX_UNLOCKS then [at[j][depth]] else []
  {
    var s := Levels(at, depth) + Level(at, depth, j);
    if depth < |at[j]| {
      assert Levels(at, depth) + Level(at, depth, j + 1) == s + [at[j][depth]];
      assert |s| >= MAX_UNLOCKS ==> (s + [at[j][depth]])[..MAX_UNLOCKS] == s[..MAX_UNLOCKS];
    } else {
      assert Level(at, depth, j + 1) == Level(at, depth, j) + [];
    }
  }

  lemma RoundEnds(at: seq<seq<nat>>, depth: nat)
    ensures Chosen(at, depth, |at|) == Chosen(at, depth + 1, 0)
  {
    assert Levels(at, depth + 1) + [] == Levels(at, depth) + Level(at, depth, |at|);
  }

  lemma {:induction false} LevelIs(at: seq<seq<nat>>, d: nat, j: nat)
    requires j <= |at|
    ensures forall x :: x in Level(at, d, j) <==> exists k :: 0 <= k < j && d < |at[k]| && at[k][d] == x
  {
    if j > 0 {
      LevelIs(at, d, j - 1);
    }
  }

  lemma {:induction false} LevelEmpty(at: seq<seq<nat>>, d: nat, j: nat)
    requires j <= |at| && Level(at, d, j) == []
    ensures forall k :: 0 <= k < j ==> |at[k]| <= d
  {
    if j > 0 {
      LevelEmpty(at, d, j - 1);
    }
  }

  ghost predicate StandsAbove(at: seq<seq<nat>>, depth: nat, x: nat) {
    exists k, d :: 0 <= k < |at| && 0 <= d < |at[k]| && d < depth && at[k][d] == x
  }

  lemma {:induction false} LevelsAre(at: seq<seq<nat>>, depth: nat)
    ensures forall x :: x in Levels(at, depth) <==> StandsAbove(at, depth, x)
  {
    if depth > 0 {
      LevelsAre(at, depth - 1);
      LevelIs(at, depth - 1, |at|);
      forall x
        ensures x in Levels(at, depth) <==> StandsAbove(at, depth, x)
      {
        if x in Level(at, depth - 1, |at|) {
          var k :| 0 <= k < |at| && depth - 1 < |at[k]| && at[k][depth - 1] == x;
        }
        if StandsAbove(at, depth, x) {
          var k, d :| 0 <= k < |at| && 0 <= d < |at[k]| && d < depth && at[k][d] == x;
          assert d < depth - 1 ==> StandsAbove(at, depth - 1, x);
        }
      }
    }
  }

  /** The places stand in the order in which sentences are kept. */
  ghost predicate InOrder(texts: seq<string>, shape: string -> string, s: seq<nat>) {
    && (forall p :: 0 <= p < |s| ==> s[p] < |texts|)
    && forall p, q :: 0 <= p < q < |s| ==> Before(texts, shape, s[p], s[q])
  }

  lemma {:induction false} LevelInOrder(g: Groups, at: seq<seq<nat>>, texts: seq<string>, shape: string -> string, d: nat, j: nat)
    requires Placed(g, at, texts, |texts|, shape) && j <= |at|
    ensures InOrder(texts, shape, Level(at, d, j))
  {
    if j > 0 {
      var s := Level(at, d, j - 1);
      LevelInOrder(g, at, texts, shape, d, j - 1);
      if d < |at[j - 1]| {
        var x := at[j - 1][d];
        DepthIs(g, at, texts, shape, j - 1, d);
        forall p | 0 <= p < |s|
          ensures Before(texts, shape, s[p], x)
        {
          LevelIs(at, d, j - 1);
          assert s[p] in s;
          var k :| 0 <= k < j - 1 && d < |at[k]| && at[k][d] == s[p];
          DepthIs(g, at, texts, shape, k, d);
          GroupsInOrder(g, at, texts, shape, k, d, j - 1, d);
        }
        assert Level(at, d, j) == s + [x];
      } else {
        assert Level(at, d, j) == s;
      }
    }
  }

  /** A place is above a depth exactly when fewer of its shape stand before it. */
  lemma AboveIff(g: Groups, at: seq<seq<nat>>, texts: seq<string>, shape: string -> string, depth: nat, i: nat)
    requires Placed(g, at, texts, |texts|, shape)
    ensures StandsAbove(at, depth, i) <==> i < |texts| && |Earlier(texts, shape, i)| < depth
  {
    if StandsAbove(at, depth, i) {
      var k, d :| 0 <= k < |at| && 0 <= d < |at[k]| && d < depth && at[k][d] == i;
      DepthIs(g, at, texts, shape, k, d);
    }
    if i < |texts| && |Earlier(texts, shape, i)| < depth {
      assert Stands(at, i);
      var k, d :| 0 <= k < |at| && 0 <= d < |at[k]| && at[k][d] == i;
      DepthIs(g, at, texts, shape, k, d);
    }
  }

  lemma {:induction false} LevelsInOrder(g: Groups, at: seq<seq<nat>>, texts: seq<string>, shape: string -> string, depth: nat)
    requires Placed(g, at, texts, |texts|, shape)
    ensures InOrder(texts, shape, Levels(at, depth))
  {
    if depth > 0 {
      var s, t := Levels(at, depth - 1), Level(at, depth - 1, |at|);
      LevelsInOrder(g, at, texts, shape, depth - 1);
      LevelInOrder(g, at, texts, shape, depth - 1, |at|);
      forall p, q | 0 <= p < |s| && 0 <= q < |t|
        ensures Before(texts, shape, s[p], t[q])
      {
        LevelsAre(at, depth - 1);
        assert s[p] in s && t[q] in t;
        AboveIff(g, at, texts, shape, depth - 1, s[p]);
        LevelIs(at, depth - 1, |at|);
        var k :| 0 <= k < |at| && depth - 1 < |at[k]| && at[k][depth - 1] == t[q];
        DepthIs(g, at, texts, shape, k, depth - 1);
      }
    }
  }

  /** One group of the round gives its sentence, if it has one and there is room. */
  function TakeOne(kept: seq<string>, m: seq<string>, depth: nat): seq<string> {
    if depth < |m| && |kept| < MAX_UNLOCKS then kept + [m[depth]] else kept
  }

  lemma TakeOneSpells(members: seq<seq<string>>, at: seq<seq<nat>>, texts: seq<string>, depth: nat, j: nat, kept: seq<string>,
                      picks: seq<nat>) returns (next: seq<nat>)
    requires Written(members, at, texts) && j < |at| && picks == Chosen(at, depth, j) && Spells(kept, texts, picks)
    ensures next == Chosen(at, depth, j + 1) && Spells(TakeOne(kept, members[j], depth), texts, next)
  {
    ChosenStep(at, depth, j);
    next := Chosen(at, depth, j + 1);
    assert Spells(members[j], texts, at[j]);
  }

  /** The members are the sentences that stand there. */
  ghost predicate Written(members: seq<seq<string>>, at: seq<seq<nat>>, texts: seq<string>) {
    |members| == |at| && forall k :: 0 <= k < |at| ==> Spells(members[k], texts, at[k])
  }

  lemma PlacedIsWritten(g: Groups, at: seq<seq<nat>>, texts: seq<string>, shape: string -> string)
    requires Placed(g, at, texts, |texts|, shape)
    ensures Written(g.members, at, texts)
  {
    forall k | 0 <= k < |at|
      ensures Spells(g.members[k], texts, at[k])
    {
      assert GroupPlaced(g, at, texts, |texts|, shape, k);
    }
  }

  /** One round over the groups: each gives its `depth`-th sentence while there is room. */
  method TakeRound(members: seq<seq<string>>, depth: nat, before: seq<string>, ghost texts: seq<string>, ghost at: seq<seq<nat>>)
    returns (kept: seq<string>, added: bool)
    requires Written(members, at, texts) && Spells(before, texts, Chosen(at, depth, 0))
    ensures Spells(kept, texts, Chosen(at, depth + 1, 0)) && (added <==> |kept| > |before|) && |before| <= |kept|
  {
    kept, added := before, false;
    ghost var picks := Chosen(at, depth, 0);
    for j := 0 to |members|
      invariant picks == Chosen(at, depth, j) && Spells(kept, texts, picks) && (added <==> |kept| > |before|) && |before| <= |kept|
    {
      ghost var more := TakeOne(kept, members[j], depth);
      picks := TakeOneSpells(members, at, texts, depth, j, kept, picks);
      if depth < |members[j]| && |kept| < MAX_UNLOCKS {
        kept, added := kept + [members[j][depth]], true;
      }
      assert kept == more;
    }
    RoundEnds(at, depth);
  }

  lemma {:induction false} AllCounted(s: seq<nat>, n: nat)
    requires forall i: nat :: i < n ==> i in s
    ensures n <= |s|
  {
    if n > 0 {
      var last: nat := n - 1;
      assert last in s;
      var p :| 0 <= p < |s| && s[p] == last;
      var rest := s[..p] + s[p + 1..];
      forall i: nat | i < n - 1
        ensures i in rest
      {
        assert i in s;
        var q :| 0 <= q < |s| && s[q] == i;
        assert q < p ==> rest[q] == i;
        assert q > p ==> rest[q - 1] == i;
      }
      AllCounted(rest, n - 1);
    }
  }

  /** A round that takes nothing, with room left, has nothing left to take. */
  lemma NothingLeft(g: Groups, at: seq<seq<nat>>, texts: seq<string>, shape: string -> string, depth: nat)
    requires Placed(g, at, texts, |texts|, shape)
    requires |Chosen(at, depth + 1, 0)| <= |Chosen(at, depth, 0)| < MAX_UNLOCKS
    ensures |texts| <= |Chosen(at, depth, 0)|
  {
    assert Levels(at, depth) + [] == Levels(at, depth) && Levels(at, depth + 1) + [] == Levels(at, depth + 1);
    assert Level(at, depth, |at|) == [];
    LevelEmpty(at, depth, |at|);
    LevelsAre(at, depth);
    forall i: nat | i < |texts|
      ensures i in Levels(at, depth)
    {
      assert Stands(at, i);
      var k, d :| 0 <= k < |at| && 0 <= d < |at[k]| && at[k][d] == i;
      assert |at[k]| <= depth;
    }
    AllCounted(Levels(at, depth), |texts|);
  }

  /** Round after round until eight are kept. */
  method TakeByShape(groups: Groups, shape: string -> string, ghost unlocks: seq<string>, ghost at: seq<seq<nat>>)
    returns (kept: seq<string>, ghost rounds: nat)
    requires Placed(groups, at, unlocks, |unlocks|, shape) && |unlocks| > MAX_UNLOCKS
    ensures |kept| == MAX_UNLOCKS && Spells(kept, unlocks, Chosen(at, rounds, 0))
  {
    PlacedIsWritten(groups, at, unlocks, shape);
    kept := [];
    var depth := 0;
    while |kept| < MAX_UNLOCKS
      invariant |kept| <= MAX_UNLOCKS && Spells(kept, unlocks, Chosen(at, depth, 0))
      decreases MAX_UNLOCKS - |kept|
    {
      var more, added := TakeRound(groups.members, depth, kept, unlocks, at);
      if !added {
        NothingLeft(groups, at, unlocks, shape, depth);
        assert false;
        break;
      }
      kept, depth := more, depth + 1;
    }
    rounds := depth;
  }

  /**
    What a thinned list is: the first eight sentences, when those with fewer of their shape before them go
    first, and among those with as many, those of the shape that appears earlier.
   */
  ghost predicate Thinned(kept: seq<string>, unlocks: seq<string>, shape: string -> string) {
    exists picks :: |picks| == MAX_UNLOCKS && Spells(kept, unlocks, picks) && FirstEight(unlocks, shape, picks)
  }

  ghost predicate FirstEight(texts: seq<string>, shape: string -> string, picks: seq<nat>)
    requires |picks| == MAX_UNLOCKS
  {
    && InOrder(texts, shape, picks)
    && forall i: nat :: i < |texts| && i !in picks ==> Before(texts, shape, picks[MAX_UNLOCKS - 1], i)
  }

  lemma ChosenAreFirst(g: Groups, at: seq<seq<nat>>, texts: seq<string>, shape: string -> string, depth: nat)
    requires Placed(g, at, texts, |texts|, shape) && |Chosen(at, depth, 0)| == MAX_UNLOCKS
    ensures FirstEight(texts, shape, Chosen(at, depth, 0))
  {
    var all, picks := Levels(at, depth), Chosen(at, depth, 0);
    assert all + [] == all;
    assert picks == all[..MAX_UNLOCKS];
    LevelsInOrder(g, at, texts, shape, depth);
    LevelsAre(at, depth);
    var last := picks[MAX_UNLOCKS - 1];
    assert last in all;
    AboveIff(g, at, texts, shape, depth, last);
    forall i: nat | i < |texts| && i !in picks
      ensures Before(texts, shape, last, i)
    {
      AboveIff(g, at, texts, shape, depth, i);
      if i in all {
        assert all == picks + all[MAX_UNLOCKS..];
        var q :| 0 <= q < |all[MAX_UNLOCKS..]| && all[MAX_UNLOCKS..][q] == i;
        assert Before(texts, shape, all[MAX_UNLOCKS - 1], all[MAX_UNLOCKS + q]);
      }
    }
  }

  /** The sentences kept of a list that is too long. */
  method Thin(unlocks: seq<string>, shape: string -> string) returns (kept: seq<string>)
    requires |unlocks| > MAX_UNLOCKS
    ensures |kept| == MAX_UNLOCKS && Thinned(kept, unlocks, shape)
  {
    var groups;
    ghost var at, rounds;
    groups, at := GroupByShape(unlocks, shape);
    kept, rounds := TakeByShape(groups, shape, unlocks, at);
    ChosenAreFirst(groups, at, unlocks, shape, rounds);
  }

  /** At most eight sentences, one of each shape first, and a note of how many were left out. */
  method CapUnlocks(unlocks: seq<string>, shape: string -> string, note: nat -> string) returns (r: seq<string>)
    ensures |unlocks| <= MAX_UNLOCKS ==> r == unlocks
    ensures |unlocks| > MAX_UNLOCKS ==>
      |r| == MAX_UNLOCKS + 1 && r[MAX_UNLOCKS] == note(|unlocks| - MAX_UNLOCKS) && Thinned(r[..MAX_UNLOCKS], unlocks, shape)
  {
    if |unlocks| <= MAX_UNLOCKS {
      return unlocks;
    }
    var kept := Thin(unlocks, shape);
    var overflow := |unlocks| - |kept|;
    assert (kept + [note(overflow)])[..MAX_UNLOCKS] == kept;
    r := kept + [note(overflow)];
  }

  // ---------------------------------------------------------------------------------------------
  // What a thinned list keeps
  // ---------------------------------------------------------------------------------------------

  /** Some kept sentence has that shape. */
  ghost predicate Represented(kept: seq<string>, shape: string -> string, s: string) {
    exists t :: t in kept && shape(t) == s
  }

  lemma {:induction false} LeastOfShape(texts: seq<string>, shape: string -> string, i: nat) returns (a: nat)
    requires i < |texts|
    ensures a <= i && shape(texts[a]) == shape(texts[i]) && Earlier(texts, shape, a) == {}
  {
    if Earlier(texts, shape, i) == {} {
      a := i;
    } else {
      var j :| j in Earlier(texts, shape, i);
      a := LeastOfShape(texts, shape, j);
    }
  }

  /** A thinned list holds a sentence of every shape there is, or else eight of eight different shapes. */
  lemma ShapesComeFirst(kept: seq<string>, unlocks: seq<string>, shape: string -> string)
    requires Thinned(kept, unlocks, shape)
    ensures (forall t :: t in unlocks ==> Represented(kept, shape, shape(t)))
            || forall i, j :: 0 <= i < j < |kept| ==> shape(kept[i]) != shape(kept[j])
  {
    var picks :| |picks| == MAX_UNLOCKS && Spells(kept, unlocks, picks) && FirstEight(unlocks, shape, picks);
    if t :| t in unlocks && !Represented(kept, shape, shape(t)) {
      var i :| 0 <= i < |unlocks| && unlocks[i] == t;
      var a := LeastOfShape(unlocks, shape, i);
      forall p | 0 <= p < |picks|
        ensures picks[p] != a
      {
        assert kept[p] in kept;
      }
      forall p | 0 <= p < |picks|
        ensures Earlier(unlocks, shape, picks[p]) == {}
      {
        assert a !in picks;
        assert Before(unlocks, shape, picks[MAX_UNLOCKS - 1], a);
        assert p < MAX_UNLOCKS - 1 ==> Before(unlocks, shape, picks[p], picks[MAX_UNLOCKS - 1]);
        assert |Earlier(unlocks, shape, picks[p])| == 0;
      }
      forall p, q | 0 <= p < q < |kept|
        ensures shape(kept[p]) != shape(kept[q])
      {
        OneLeast(unlocks, shape, picks[p], picks[q]);
      }
    }
  }

  /** Two sentences with none of their shape before them differ in shape. */
  lemma OneLeast(texts: seq<string>, shape: string -> string, i: nat, j: nat)
    requires i < |texts| && j < |texts| && Earlier(texts, shape, i) == {} == Earlier(texts, shape, j) && Before(texts, shape, i, j)
    ensures shape(texts[i]) != shape(texts[j])
  {
    var a :| 0 <= a <= i && shape(texts[a]) == shape(texts[i]) && forall b :: 0 <= b <= a ==> shape(texts[b]) != shape(texts[j]);
    assert shape(texts[a]) != shape(texts[j]);
  }

  // ---------------------------------------------------------------------------------------------
  // Distinct parts
  // ---------------------------------------------------------------------------------------------

  function Strip(s: string): (r: string)
    ensures r != "" ==> !Json.IsSpace(r[0]) && !Json.IsSpace(r[|r| - 1])
    ensures forall c :: c in r ==> c in s
    decreases |s|
  {
    if s == "" then ""
    else if Json.IsSpace(s[0]) then Strip(s[1..])
    else if Json.IsSpace(s[|s| - 1]) then Strip(s[..|s| - 1])
    else s
  }

  /** Everything before the first `@`. */
  function BeforeAt(s: string): (r: string)
    ensures '@' !in r
    ensures '@' !in s ==> r == s
  {
    if s == "" || s[0] == '@' then "" else [s[0]] + BeforeAt(s[1..])
  }

  /** A reported reference without the suffix the engine adds to tell repeats apart. */
  function BaseDesignator(reference: string): string {
    var base := Strip(BeforeAt(reference));
    if base == "" then reference else base
  }

  /** The distinct base designators of the references that are not blank. */
  function DistinctBases(references: seq<string>): set<string> {
    set r | r in references && Strip(r) != "" :: BaseDesignator(Strip(r))
  }

  function DistinctParts(references: seq<string>): nat {
    |DistinctBases(references)|
  }

  lemma {:induction false} StripStripped(s: string)
    requires s == "" || (!Json.IsSpace(s[0]) && !Json.IsSpace(s[|s| - 1]))
    ensures Strip(s) == s
  {
  }

  /** A base designator is its own base. */
  lemma BaseIsItsOwnBase(reference: string)
    ensures BaseDesignator(BaseDesignator(reference)) == BaseDesignator(reference)
  {
    var base := Strip(BeforeAt(reference));
    if base != "" {
      assert '@' !in base;
      assert BeforeAt(base) == base;
      StripStripped(base);
    }
  }

  lemma {:induction false} BeforeAtSuffix(s: string, suffix: string)
    requires '@' !in s
    ensures BeforeAt(s + "@" + suffix) == s
  {
    if s != "" {
      assert (s + "@" + suffix)[1..] == s[1..] + "@" + suffix;
      BeforeAtSuffix(s[1..], suffix);
    }
  }

  /** Listing a part again under an engine suffix counts it once. */
  lemma SuffixesDoNotPad(references: seq<string>, part: string, suffix: string)
    requires part in references && part != "" && '@' !in part && Strip(part) == part
    requires suffix != "" && !Json.IsSpace(suffix[|suffix| - 1])
    ensures DistinctParts(references + [part + "@" + suffix]) == DistinctParts(references)
  {
    var again := part + "@" + suffix;
    assert again[0] == part[0] && again[|again| - 1] == suffix[|suffix| - 1];
    assert !Json.IsSpace(part[0]);
    StripStripped(again);
    BeforeAtSuffix(part, suffix);
    assert BaseDesignator(again) == part;
    assert BeforeAt(part) == part;
    assert BaseDesignator(Strip(part)) == part;
    assert DistinctBases(references + [again]) == DistinctBases(references);
  }
}
