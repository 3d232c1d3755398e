/** The lines a test-only module covers, found from attribute lines and brace counts in blanked text. */
module TestLines {
  import opened Wrappers

  /**
    One line: whether its original text carries a test attribute, whether its blanked text names a module,
    and how many braces the blanked text opens and closes.
   */
  datatype Line = Line(attribute: bool, names: bool, opens: nat, closes: nat)

  /** How far below its attribute a module may be named. */
  const REACH: nat := 4

  // ---------------------------------------------------------------------------------------------
  // One module's block
  // ---------------------------------------------------------------------------------------------

  function Net(ls: seq<Line>, j: nat, k: nat): int
    requires j <= k <= |ls|
  {
    if j == k then 0 else Net(ls, j, k - 1) + ls[k - 1].opens - ls[k - 1].closes
  }

  predicate Opened(ls: seq<Line>, j: nat, k: nat)
    requires j <= k <= |ls|
  {
    exists i :: j <= i < k && ls[i].opens > 0
  }

  /** By the end of line `k` a brace was opened and all are closed again. */
  predicate ClosedAt(ls: seq<Line>, j: nat, k: nat)
    requires j <= k < |ls|
  {
    Opened(ls, j, k + 1) && Net(ls, j, k + 1) <= 0
  }

  /** The line the block from `j` ends on: the first it is closed at, or the last of the file. */
  ghost predicate EndsAt(ls: seq<Line>, j: nat, e: nat) {
    && j <= e < |ls|
    && (forall k :: j <= k < e ==> !ClosedAt(ls, j, k))
    && (ClosedAt(ls, j, e) || e == |ls| - 1)
  }

  /** The first line within reach of the attribute that names a module. */
  ghost predicate NamesAt(ls: seq<Line>, i: nat, j: nat) {
    && i <= j < |ls| && j <= i + REACH && ls[j].names
    && forall k :: i <= k < j ==> !ls[k].names
  }

  method FindModule(ls: seq<Line>, i: nat) returns (j: Option<nat>)
    requires i < |ls|
    ensures j.Some? ==> NamesAt(ls, i, j.value)
    ensures j.None? ==> forall k :: !NamesAt(ls, i, k)
  {
    var at := i;
    while at < |ls| && !ls[at].names
      invariant i <= at <= |ls| && at - i < REACH
      invariant forall k :: i <= k < at ==> !ls[k].names
    {
      at := at + 1;
      if at - i >= REACH {
        break;
      }
    }
    j := if at < |ls| && ls[at].names then Some(at) else None;
  }

  /** The numbers of the lines `j`, .., `k - 1`, counted from 1. */
  function Numbers(j: nat, k: nat): (r: set<nat>)
    ensures forall n :: n in r <==> j < n <= k
  {
    if j >= k then {} else Numbers(j, k - 1) + {k}
  }

  /** Marks lines from `j` until the block closes; line numbers start at 1. */
  method MarkBlock(ls: seq<Line>, j: nat, before: set<nat>) returns (inside: set<nat>, next: nat)
    requires j < |ls|
    ensures next > 0 && EndsAt(ls, j, next - 1)
    ensures inside == before + Numbers(j, next)
  {
    var depth, anyOpen, k := 0, false, j;
    inside := before;
    while k < |ls|
      invariant j <= k <= |ls| && depth == Net(ls, j, k) && anyOpen == Opened(ls, j, k)
      invariant inside == before + Numbers(j, k)
      invariant forall i :: j <= i < k ==> !ClosedAt(ls, j, i)
    {
      depth := depth + ls[k].opens - ls[k].closes;
      OpenedStep(ls, j, k);
      if ls[k].opens > 0 {
        anyOpen := true;
      }
      inside := inside + {k + 1};
      if anyOpen && depth <= 0 {
        return inside, k + 1;
      }
      k := k + 1;
    }
    next := k;
  }

  lemma OpenedStep(ls: seq<Line>, j: nat, k: nat)
    requires j <= k < |ls|
    ensures Opened(ls, j, k + 1) <==> Opened(ls, j, k) || ls[k].opens > 0
  {
  }

  // ---------------------------------------------------------------------------------------------
  // All of them
  // ---------------------------------------------------------------------------------------------

  /** The blocks found from line `i` on: after a block the search goes on below it. */
  ghost predicate Found(ls: seq<Line>, i: nat, blocks: seq<(nat, nat)>)
    decreases |ls| - i
  {
    if i >= |ls| then blocks == []
    else if ls[i].attribute && exists j :: NamesAt(ls, i, j) then
      && blocks != [] && NamesAt(ls, i, blocks[0].0) && EndsAt(ls, blocks[0].0, blocks[0].1)
      && Found(ls, blocks[0].1 + 1, blocks[1..])
    else Found(ls, i + 1, blocks)
  }

  /** The line numbers the blocks cover. */
  ghost function Covered(blocks: seq<(nat, nat)>): set<nat> {
    if blocks == [] then {}
    else Covered(blocks[..|blocks| - 1]) + Numbers(blocks[|blocks| - 1].0, blocks[|blocks| - 1].1 + 1)
  }

  /** Adding what is found later to what was found before. */
  ghost predicate FoundSoFar(ls: seq<Line>, i: nat, blocks: seq<(nat, nat)>) {
    forall rest :: Found(ls, i, rest) ==> Found(ls, 0, blocks + rest)
  }

  lemma BlockFound(ls: seq<Line>, i: nat, blocks: seq<(nat, nat)>, j: nat, e: nat)
    requires FoundSoFar(ls, i, blocks) && i < |ls| && ls[i].attribute && NamesAt(ls, i, j) && EndsAt(ls, j, e)
    ensures FoundSoFar(ls, e + 1, blocks + [(j, e)])
  {
    forall rest | Found(ls, e + 1, rest)
      ensures Found(ls, 0, blocks + [(j, e)] + rest)
    {
      var more := [(j, e)] + rest;
      assert more[1..] == rest;
      assert Found(ls, i, more);
      assert blocks + [(j, e)] + rest == blocks + more;
    }
  }

  lemma NothingFound(ls: seq<Line>, i: nat, blocks: seq<(nat, nat)>)
    requires FoundSoFar(ls, i, blocks) && i < |ls| && (!ls[i].attribute || forall j :: !NamesAt(ls, i, j))
    ensures FoundSoFar(ls, i + 1, blocks)
  {
    forall rest | Found(ls, i + 1, rest)
      ensures Found(ls, 0, blocks + rest)
    {
      assert Found(ls, i, rest);
    }
  }

  /** The 1-based numbers of the lines inside test modules, and the modules they make up. */
  method TestModuleLines(ls: seq<Line>) returns (inside: set<nat>, ghost blocks: seq<(nat, nat)>)
    ensures Found(ls, 0, blocks) && inside == Covered(blocks)
  {
    inside, blocks := {}, [];
    var i := 0;
    assert forall rest: seq<(nat, nat)> :: [] + rest == rest;
    while i < |ls|
      invariant FoundSoFar(ls, i, blocks) && inside == Covered(blocks)
      decreases |ls| - i
    {
      if !ls[i].attribute {
        NothingFound(ls, i, blocks);
        i := i + 1;
        continue;
      }
      var found := FindModule(ls, i);
      if found.None? {
        NothingFound(ls, i, blocks);
        i := i + 1;
        continue;
      }
      var j, next := found.value, 0;
      ghost var was := blocks;
      inside, next := MarkBlock(ls, j, inside);
      BlockFound(ls, i, blocks, j, next - 1);
      blocks := blocks + [(j, next - 1)];
      assert blocks[..|blocks| - 1] == was;
      i := next;
    }
    assert Found(ls, i, []);
    assert blocks + [] == blocks;
  }

  /** The blocks lie one below another, and each starts within reach below an attribute line of its own. */
  lemma {:induction false} BlocksAreApart(ls: seq<Line>, i: nat, blocks: seq<(nat, nat)>, k: nat)
    requires Found(ls, i, blocks) && k < |blocks|
    ensures i <= blocks[k].0 <= blocks[k].1 < |ls| && EndsAt(ls, blocks[k].0, blocks[k].1)
    ensures exists a :: i <= a < |ls| && ls[a].attribute && NamesAt(ls, a, blocks[k].0)
    ensures k > 0 ==> blocks[k - 1].1 < blocks[k].0
    decreases |ls| - i
  {
    if ls[i].attribute && exists j :: NamesAt(ls, i, j) {
      var rest := blocks[1..];
      if k > 0 {
        BlocksAreApart(ls, blocks[0].1 + 1, rest, k - 1);
        assert rest[k - 1] == blocks[k];
        if k > 1 {
          assert rest[k - 2] == blocks[k - 1];
        }
      }
    } else {
      BlocksAreApart(ls, i + 1, blocks, k);
    }
  }

  /** Two attribute lines with no module named between them share the module below both. */
  lemma SameModule(ls: seq<Line>, i: nat, a: nat, m: nat, j: nat)
    requires NamesAt(ls, i, m) && NamesAt(ls, a, j) && i <= a <= m
    ensures j == m
  {
  }

  /** No test module is missed: an attribute line lies in a block, or a block starts where its module is named. */
  lemma {:induction false} NoModuleIsMissed(ls: seq<Line>, i: nat, blocks: seq<(nat, nat)>, a: nat, j: nat)
    requires Found(ls, i, blocks) && i <= a < |ls| && ls[a].attribute && NamesAt(ls, a, j)
    ensures exists b :: b in blocks && (b.0 == j || b.0 <= a <= b.1)
    decreases |ls| - i
  {
    if ls[i].attribute && exists n :: NamesAt(ls, i, n) {
      var b := blocks[0];
      assert b in blocks;
      if a > b.1 {
        NoModuleIsMissed(ls, b.1 + 1, blocks[1..], a, j);
        var c :| c in blocks[1..] && (c.0 == j || c.0 <= a <= c.1);
        assert c in blocks;
      } else if a < b.0 {
        SameModule(ls, i, a, b.0, j);
      }
    } else {
      NoModuleIsMissed(ls, i + 1, blocks, a, j);
    }
  }
}
