/** The order in which a workspace's packages are published: dependencies first, round by round. */
module PublishOrder {
  import opened Wrappers
  import opened Sequences
  import opened Order

  datatype Package = Package(name: string, publish: bool, deps: set<string>)

  /** The publishable packages by name; a later one replaces an earlier one of its name. */
  type Pending = map<string, Package>

  function PendingOf(ps: seq<Package>): (m: Pending)
    ensures forall n :: n in m ==> m[n].name == n && m[n] in ps && m[n].publish
    ensures forall p :: p in ps && p.publish ==> p.name in m
  {
    if ps == [] then map[]
    else
      var last := ps[|ps| - 1];
      var rest := PendingOf(ps[..|ps| - 1]);
      assert ps == ps[..|ps| - 1] + [last];
      if last.publish then rest[last.name := last] else rest
  }

  predicate IsReady(m: Pending, n: string) {
    n in m && m[n].deps !! m.Keys
  }

  ghost function ReadySet(m: Pending): set<string> {
    set n | n in m && IsReady(m, n)
  }

  function Dropping(m: Pending, names: set<string>): Pending {
    map n | n in m && n !in names :: m[n]
  }

  function Values(m: Pending, names: seq<string>): (r: seq<Package>)
    requires forall n :: n in names ==> n in m
    ensures |r| == |names| && forall i :: 0 <= i < |names| ==> r[i] == m[names[i]]
  {
    seq(|names|, i requires 0 <= i < |names| => m[names[i]])
  }

  /** Round after round, everything that waits for nothing left, in name order; nothing when a round is empty. */
  ghost function OrderOf(m: Pending): Option<seq<Package>>
    decreases |m|
  {
    var ready := ReadySet(m);
    if m == map[] then Some([])
    else if ready == {} then None
    else
      SortSetIs(ready);
      FewerLeft(m, ready);
      match OrderOf(Dropping(m, ready))
      case None => None
      case Some(rest) => Some(Values(m, SortSet(ready)) + rest)
  }

  lemma FewerLeft(m: Pending, names: set<string>)
    requires names != {} && names <= m.Keys
    ensures |Dropping(m, names)| < |m|
  {
    var w := Dropping(m, names);
    assert w.Keys == m.Keys - names;
    assert |w| == |w.Keys| && |m| == |m.Keys|;
    assert m.Keys == (m.Keys - names) + names;
  }

  // ---------------------------------------------------------------------------------------------
  // The loop
  // ---------------------------------------------------------------------------------------------

  /** The ready names in the order the dictionary lists its keys. */
  function ReadyNames(m: Pending, keys: seq<string>): seq<string> {
    if keys == [] then [] else (if IsReady(m, keys[0]) then [keys[0]] else []) + ReadyNames(m, keys[1..])
  }

  predicate NoRepeats(s: seq<string>) {
    forall i, j :: 0 <= i < j < |s| ==> s[i] != s[j]
  }

  lemma {:induction false} ReadyNamesAre(m: Pending, keys: seq<string>)
    requires NoRepeats(keys)
    ensures forall n :: n in ReadyNames(m, keys) <==> n in keys && IsReady(m, n)
    ensures NoRepeats(ReadyNames(m, keys))
  {
    if keys != [] {
      ReadyNamesAre(m, keys[1..]);
      var rest := ReadyNames(m, keys[1..]);
      var all := ReadyNames(m, keys);
      assert IsReady(m, keys[0]) ==> all == [keys[0]] + rest;
      assert !IsReady(m, keys[0]) ==> all == rest;
      assert forall n :: n in keys <==> n == keys[0] || n in keys[1..];
    }
  }

  lemma {:induction false} SetOfDistinct(s: seq<string>, members: set<string>)
    requires NoRepeats(s) && forall x :: x in members <==> x in s
    ensures multiset(s) == multiset(members)
  {
    if s == [] {
      assert members == {};
    } else {
      var last := s[|s| - 1];
      assert s == s[..|s| - 1] + [last];
      assert last !in s[..|s| - 1];
      SetOfDistinct(s[..|s| - 1], members - {last});
      assert members == (members - {last}) + {last};
    }
  }

  /** Sorting the ready names gives the one sorted listing of the ready set. */
  lemma SortedReady(m: Pending, keys: seq<string>)
    requires NoRepeats(keys) && forall n :: n in keys <==> n in m
    ensures Sort(ReadyNames(m, keys)) == SortSet(ReadySet(m))
  {
    ReadyNamesAre(m, keys);
    SetOfDistinct(ReadyNames(m, keys), ReadySet(m));
    SortIsSorted(ReadyNames(m, keys));
    SortSetIs(ReadySet(m));
    SortedUnique(Sort(ReadyNames(m, keys)), SortSet(ReadySet(m)));
  }

  function Remaining(keys: seq<string>, name: string): seq<string> {
    if keys == [] then [] else if keys[0] == name then keys[1..] else [keys[0]] + Remaining(keys[1..], name)
  }

  lemma {:induction false} RemainingAre(keys: seq<string>, name: string)
    requires NoRepeats(keys)
    ensures NoRepeats(Remaining(keys, name))
    ensures forall n :: n in Remaining(keys, name) <==> n in keys && n != name
  {
    if keys != [] {
      assert forall n :: n in keys <==> n == keys[0] || n in keys[1..];
      if keys[0] != name {
        RemainingAre(keys[1..], name);
        assert keys[0] !in keys[1..];
      }
    }
  }

  /** A dictionary's keys, in the order they were first set. */
  method KeysInOrder(ps: seq<Package>) returns (keys: seq<string>)
    ensures NoRepeats(keys) && forall n :: n in keys <==> n in PendingOf(ps)
  {
    keys := [];
    for i := 0 to |ps|
      invariant NoRepeats(keys) && forall n :: n in keys <==> n in PendingOf(ps[..i])
    {
      assert ps[..i + 1][..i] == ps[..i];
      if ps[i].publish && ps[i].name !in keys {
        keys := keys + [ps[i].name];
      }
    }
    assert ps[..|ps|] == ps;
  }

  /** One round: every ready package leaves the dictionary for the end of the list. */
  method TakeReady(start: Pending, startKeys: seq<string>, ready: seq<string>)
    returns (pending: Pending, keys: seq<string>, taken: seq<Package>)
    requires NoRepeats(startKeys) && NoRepeats(ready) && forall n :: n in ready ==> n in start
    requires forall n :: n in startKeys <==> n in start
    ensures pending == Dropping(start, set n | n in ready) && taken == Values(start, ready)
    ensures NoRepeats(keys) && forall n :: n in keys <==> n in pending
  {
    pending, keys, taken := start, startKeys, [];
    for i := 0 to |ready|
      invariant pending == Dropping(start, set n | n in ready[..i]) && taken == Values(start, ready[..i])
      invariant NoRepeats(keys) && forall n :: n in keys <==> n in pending
    {
      var name := ready[i];
      assert ready[..i + 1] == ready[..i] + [name];
      assert name in ready && name !in ready[..i];
      RemainingAre(keys, name);
      taken := taken + [pending[name]];
      pending, keys := Dropping(pending, {name}), Remaining(keys, name);
    }
    assert ready[..|ready|] == ready;
  }

  /** What is done, and then the order of what is left, is the whole order; there is one exactly if there is the other. */
  ghost predicate Completes(done: seq<Package>, rest: Option<seq<Package>>, all: Option<seq<Package>>) {
    && (rest.Some? <==> all.Some?)
    && (rest.Some? ==> done + rest.value == all.value)
  }

  lemma CompletesStep(done: seq<Package>, taken: seq<Package>, whole: Option<seq<Package>>, rest: Option<seq<Package>>,
                      all: Option<seq<Package>>)
    requires whole == if rest.None? then None else Some(taken + rest.value)
    requires Completes(done, whole, all)
    ensures Completes(done + taken, rest, all)
  {
    if rest.Some? {
      assert done + (taken + rest.value) == done + taken + rest.value;
    }
  }

  lemma OrderStep(m: Pending)
    requires ReadySet(m) != {}
    ensures forall n :: n in SortSet(ReadySet(m)) ==> n in m
    ensures var rest := OrderOf(Dropping(m, ReadySet(m)));
            OrderOf(m) == if rest.None? then None else Some(Values(m, SortSet(ReadySet(m))) + rest.value)
  {
    SortSetIs(ReadySet(m));
  }

  lemma RoundCompletes(m: Pending, done: seq<Package>, all: Option<seq<Package>>)
    requires ReadySet(m) != {} && Completes(done, OrderOf(m), all)
    ensures forall n :: n in SortSet(ReadySet(m)) ==> n in m
    ensures Completes(done + Values(m, SortSet(ReadySet(m))), OrderOf(Dropping(m, ReadySet(m))), all)
  {
    OrderStep(m);
    CompletesStep(done, Values(m, SortSet(ReadySet(m))), OrderOf(m), OrderOf(Dropping(m, ReadySet(m))), all);
  }

  lemma ReadyIsReady(m: Pending, ready: seq<string>)
    requires ready == SortSet(ReadySet(m))
    ensures ready == [] <==> ReadySet(m) == {}
    ensures NoRepeats(ready) && ReadySet(m) == (set n | n in ready) && forall n :: n in ready ==> n in m
    ensures ready != [] ==> |Dropping(m, ReadySet(m))| < |m|
  {
    SortSetIs(ReadySet(m));
    if ready != [] {
      assert ready[0] in ReadySet(m);
      FewerLeft(m, ReadySet(m));
    }
  }

  lemma OrderEnds(m: Pending)
    ensures m == map[] ==> OrderOf(m) == Some([])
    ensures m != map[] && ReadySet(m) == {} ==> OrderOf(m).None?
  {
  }

  lemma NothingLeft(m: Pending, done: seq<Package>, all: Option<seq<Package>>)
    requires m == map[] && Completes(done, OrderOf(m), all)
    ensures all == Some(done)
  {
    assert done + [] == done;
  }

  /** Names that all wait for one of themselves. */
  ghost predicate WaitForEachOther(m: Pending, names: seq<string>) {
    names != [] && forall n :: n in names ==> n in m && exists d :: d in m[n].deps && d in names
  }

  lemma StuckNames(whole: Pending, m: Pending, keys: seq<string>)
    requires KeysAre(keys, m) && m != map[] && ReadySet(m) == {}
    requires forall n :: n in m ==> n in whole && m[n] == whole[n]
    ensures WaitForEachOther(whole, Sort(keys))
  {
    SortIsSorted(keys);
    AllWait(whole, m, Sort(keys));
  }

  lemma AllWait(whole: Pending, m: Pending, names: seq<string>)
    requires m != map[] && ReadySet(m) == {} && forall n :: n in names <==> n in m
    requires forall n :: n in m ==> n in whole && m[n] == whole[n]
    ensures WaitForEachOther(whole, names)
  {
    var x :| x in m;
    assert x in names;
    forall n | n in names
      ensures n in whole && exists d :: d in whole[n].deps && d in names
    {
      var d := WaitsInside(m, n);
      assert d in whole[n].deps && d in names;
    }
  }

  lemma WaitsInside(m: Pending, n: string) returns (d: string)
    requires n in m && ReadySet(m) == {}
    ensures d in m[n].deps && d in m
  {
    assert n !in ReadySet(m);
    d :| d in m[n].deps && d in m.Keys;
  }

  ghost predicate KeysAre(keys: seq<string>, m: Pending) {
    NoRepeats(keys) && forall n :: n in keys <==> n in m
  }

  /** One round of the loop: what was ready leaves, in name order; nothing is taken when all wait. */
  method Round(start: Pending, startKeys: seq<string>, ghost done: seq<Package>, ghost all: Option<seq<Package>>)
    returns (pending: Pending, keys: seq<string>, taken: seq<Package>)
    requires KeysAre(startKeys, start) && start != map[] && Completes(done, OrderOf(start), all)
    ensures taken == [] ==> all.None? && ReadySet(start) == {}
    ensures forall n :: n in pending ==> n in start && pending[n] == start[n]
    ensures taken != [] ==> KeysAre(keys, pending) && |pending| < |start| && Completes(done + taken, OrderOf(pending), all)
  {
    SortedReady(start, startKeys);
    var ready := Sort(ReadyNames(start, startKeys));
    ReadyIsReady(start, ready);
    pending, keys, taken := TakeReady(start, startKeys, ready);
    if taken == [] {
      OrderEnds(start);
    } else {
      RoundCompletes(start, done, all);
    }
  }

  /** The packages in publish order, or the names a cycle keeps waiting. */
  method PublishOrder(members: seq<Package>, external: seq<Package>) returns (r: Result<seq<Package>, seq<string>>)
    ensures r.Ok? <==> OrderOf(PendingOf(external + members)).Some?
    ensures r.Ok? ==> Some(r.value) == OrderOf(PendingOf(external + members))
    ensures r.Err? ==> WaitForEachOther(PendingOf(external + members), r.error)
  {
    var pending := PendingOf(external + members);
    ghost var whole, all := pending, OrderOf(pending);
    var keys := KeysInOrder(external + members);
    var done: seq<Package> := [];
    while pending != map[]
      invariant KeysAre(keys, pending) && Completes(done, OrderOf(pending), all)
      invariant forall n :: n in pending ==> n in whole && pending[n] == whole[n]
      decreases |pending|
    {
      var left, leftKeys, taken := Round(pending, keys, done, all);
      if taken == [] {
        StuckNames(whole, pending, keys);
        return Err(Sort(keys));
      }
      pending, keys, done := left, leftKeys, done + taken;
    }
    NothingLeft(pending, done, all);
    r := Ok(done);
  }

  // ---------------------------------------------------------------------------------------------
  // What the order is
  // ---------------------------------------------------------------------------------------------

  /** Every package once, and each after everything it waits for. */
  ghost predicate Ordered(m: Pending, r: seq<Package>) {
    && (forall i, j :: 0 <= i < j < |r| ==> r[i].name != r[j].name)
    && (forall n :: n in m <==> exists i :: 0 <= i < |r| && r[i].name == n)
    && (forall i :: 0 <= i < |r| ==> r[i].name in m && r[i] == m[r[i].name])
    && (forall i, d :: 0 <= i < |r| && d in r[i].deps && d in m ==> exists j :: 0 <= j < i && r[j].name == d)
  }

  ghost predicate Named(m: Pending) {
    forall n :: n in m ==> m[n].name == n
  }

  /** The first round's packages, and an order of the rest. */
  ghost predicate Rounds(m: Pending, first: seq<string>, rest: seq<Package>) {
    && Named(m) && NoRepeats(first) && (forall n :: n in first <==> n in ReadySet(m))
    && Ordered(Dropping(m, ReadySet(m)), rest)
  }

  /** Where each entry of the two rounds comes from. */
  lemma RoundEntry(m: Pending, first: seq<string>, rest: seq<Package>, i: nat)
    requires Rounds(m, first, rest) && i < |first| + |rest|
    ensures var r := Values(m, first) + rest;
            && r[i].name in m && r[i] == m[r[i].name]
            && (if i < |first| then r[i].name == first[i] && first[i] in ReadySet(m)
                else r[i] == rest[i - |first|] && r[i].name !in ReadySet(m))
  {
    if i < |first| {
      assert first[i] in first;
    } else {
      assert rest[i - |first|].name in Dropping(m, ReadySet(m));
    }
  }

  lemma RoundPlace(m: Pending, first: seq<string>, rest: seq<Package>, n: string) returns (i: nat)
    requires Rounds(m, first, rest) && n in m
    ensures i < |first| + |rest| && (Values(m, first) + rest)[i].name == n
    ensures n in ReadySet(m) <==> i < |first|
  {
    if n in ReadySet(m) {
      i :| 0 <= i < |first| && first[i] == n;
      RoundEntry(m, first, rest, i);
    } else {
      assert n in Dropping(m, ReadySet(m));
      var k :| 0 <= k < |rest| && rest[k].name == n;
      i := |first| + k;
    }
  }

  lemma RoundWaits(m: Pending, first: seq<string>, rest: seq<Package>, i: nat, d: string) returns (j: nat)
    requires Rounds(m, first, rest) && i < |first| + |rest|
    requires d in (Values(m, first) + rest)[i].deps && d in m
    ensures j < i && (Values(m, first) + rest)[j].name == d
  {
    RoundEntry(m, first, rest, i);
    j := RoundPlace(m, first, rest, d);
    if i < |first| {
      assert false;
    } else if j >= |first| {
      assert d in Dropping(m, ReadySet(m));
      var k :| 0 <= k < i - |first| && rest[k].name == d;
      j := |first| + k;
    }
  }

  lemma RoundDistinct(m: Pending, first: seq<string>, rest: seq<Package>, i: nat, j: nat)
    requires Rounds(m, first, rest) && i < j < |first| + |rest|
    ensures (Values(m, first) + rest)[i].name != (Values(m, first) + rest)[j].name
  {
    RoundEntry(m, first, rest, i);
    RoundEntry(m, first, rest, j);
  }

  /** The first round's packages wait for nothing; the rest wait for them or among themselves. */
  lemma RoundThenRest(m: Pending, first: seq<string>, rest: seq<Package>)
    requires Rounds(m, first, rest)
    ensures Ordered(m, Values(m, first) + rest)
  {
    var r := Values(m, first) + rest;
    forall i | 0 <= i < |r|
      ensures r[i].name in m && r[i] == m[r[i].name]
    {
      RoundEntry(m, first, rest, i);
    }
    forall i, j | 0 <= i < j < |r|
      ensures r[i].name != r[j].name
    {
      RoundDistinct(m, first, rest, i, j);
    }
    forall n | n in m
      ensures exists i :: 0 <= i < |r| && r[i].name == n
    {
      var i := RoundPlace(m, first, rest, n);
    }
    forall i, d | 0 <= i < |r| && d in r[i].deps && d in m
      ensures exists j :: 0 <= j < i && r[j].name == d
    {
      var j := RoundWaits(m, first, rest, i, d);
    }
  }

  lemma {:induction false} OrderIsOrdered(m: Pending)
    requires Named(m) && OrderOf(m).Some?
    ensures Ordered(m, OrderOf(m).value)
    decreases |m|
  {
    if m != map[] {
      var ready := ReadySet(m);
      SortSetIs(ready);
      FewerLeft(m, ready);
      OrderIsOrdered(Dropping(m, ready));
      RoundThenRest(m, SortSet(ready), OrderOf(Dropping(m, ready)).value);
    }
  }

  // ---------------------------------------------------------------------------------------------
  // Cycles
  // ---------------------------------------------------------------------------------------------

  /** Each name of the walk waits for the next. */
  ghost predicate Walk(m: Pending, w: seq<string>) {
    && (forall n :: n in w ==> n in m)
    && forall i :: 0 <= i < |w| - 1 ==> w[i + 1] in m[w[i]].deps
  }

  /** A closed walk: the last name waits for the first. */
  ghost predicate Cycle(m: Pending, w: seq<string>) {
    w != [] && Walk(m, w) && w[0] in m[w[|w| - 1]].deps
  }

  /** A position in the order holding that name. */
  ghost function PositionOf(r: seq<Package>, n: string): nat
    requires exists i :: 0 <= i < |r| && r[i].name == n
  {
    var i :| 0 <= i < |r| && r[i].name == n; i
  }

  lemma WaitsEarlier(m: Pending, r: seq<Package>, n: string, d: string)
    requires Ordered(m, r) && n in m && d in m && d in m[n].deps
    ensures PositionOf(r, d) < PositionOf(r, n)
  {
    var i := PositionOf(r, n);
    var j :| 0 <= j < i && r[j].name == d;
  }

  lemma {:induction false} WalkGoesDown(m: Pending, r: seq<Package>, w: seq<string>, i: nat)
    requires Ordered(m, r) && Walk(m, w) && i < |w|
    ensures w[i] in m && w[0] in m && PositionOf(r, w[i]) + i <= PositionOf(r, w[0])
  {
    assert w[i] in w && w[0] in w;
    if i > 0 {
      WalkGoesDown(m, r, w, i - 1);
      WaitsEarlier(m, r, w[i - 1], w[i]);
    }
  }

  lemma OrderedHasNoCycle(m: Pending, r: seq<Package>, w: seq<string>)
    requires Ordered(m, r)
    ensures !Cycle(m, w)
  {
    if w != [] && Walk(m, w) {
      LastDoesNotWait(m, r, w);
    }
  }

  lemma LastDoesNotWait(m: Pending, r: seq<Package>, w: seq<string>)
    requires Ordered(m, r) && w != [] && Walk(m, w)
    ensures w[|w| - 1] in m && w[0] !in m[w[|w| - 1]].deps
  {
    var k := |w| - 1;
    WalkGoesDown(m, r, w, k);
    var first, last := w[0], w[k];
    var deps := m[last].deps;
    if first in deps {
      WaitsEarlier(m, r, last, first);
    }
  }

  /** Where everything waits for something in the set, a walk can go on as long as one likes. */
  lemma {:induction false} LongWalk(m: Pending, k: nat) returns (w: seq<string>)
    requires m != map[] && ReadySet(m) == {}
    ensures |w| == k + 1 && Walk(m, w)
  {
    if k == 0 {
      var n :| n in m;
      w := [n];
    } else {
      var shorter := LongWalk(m, k - 1);
      var last := shorter[|shorter| - 1];
      assert last in shorter && last !in ReadySet(m);
      var d :| d in m[last].deps && d in m.Keys;
      w := shorter + [d];
    }
  }

  lemma WalkThatReturns(m: Pending, w: seq<string>, i: nat, j: nat)
    requires Walk(m, w) && i < j < |w| && w[i] == w[j]
    ensures Cycle(m, w[i..j])
  {
    var c := w[i..j];
    forall k | 0 <= k < |c| - 1
      ensures c[k + 1] in m[c[k]].deps
    {
      assert c[k] == w[i + k] && c[k + 1] == w[i + k + 1];
      assert w[i + k] in w;
    }
    assert c[|c| - 1] == w[j - 1] && w[j - 1] in w;
  }

  lemma StuckHasCycle(m: Pending) returns (c: seq<string>)
    requires m != map[] && ReadySet(m) == {}
    ensures Cycle(m, c)
  {
    var w := LongWalk(m, |m|);
    var members := set n | n in w;
    assert members <= m.Keys && |m.Keys| == |m|;
    SubsetSize(members, m.Keys);
    if NoRepeats(w) {
      DistinctLength(w, members);
      assert false;
    }
    var i, j :| 0 <= i < j < |w| && w[i] == w[j];
    WalkThatReturns(m, w, i, j);
    c := w[i..j];
  }

  lemma CycleInLarger(m: Pending, names: set<string>, c: seq<string>)
    requires Cycle(Dropping(m, names), c)
    ensures Cycle(m, c)
  {
    var left := Dropping(m, names);
    forall n | n in c
      ensures n in m && left[n] == m[n]
    {
    }
    assert forall i :: 0 <= i < |c| ==> c[i] in c;
  }

  lemma {:induction false} NoOrderHasCycle(m: Pending) returns (c: seq<string>)
    requires OrderOf(m).None?
    ensures Cycle(m, c)
    decreases |m|
  {
    var ready := ReadySet(m);
    if ready == {} {
      c := StuckHasCycle(m);
    } else {
      FewerLeft(m, ready);
      SortSetIs(ready);
      c := NoOrderHasCycle(Dropping(m, ready));
      CycleInLarger(m, ready, c);
    }
  }

  /**
    The order succeeds exactly when no dependency cycle runs inside the publishable set; it then lists each
    package once, after everything in the set that it depends on.
   */
  lemma PublishesIffAcyclic(ps: seq<Package>)
    ensures var m := PendingOf(ps);
            && (OrderOf(m).Some? <==> forall c :: !Cycle(m, c))
            && (OrderOf(m).Some? ==> Ordered(m, OrderOf(m).value))
  {
    var m := PendingOf(ps);
    if OrderOf(m).Some? {
      OrderIsOrdered(m);
      forall c
        ensures !Cycle(m, c)
      {
        OrderedHasNoCycle(m, OrderOf(m).value, c);
      }
    } else {
      var c := NoOrderHasCycle(m);
    }
  }

  // ---------------------------------------------------------------------------------------------
  // Independence of the input's order
  // ---------------------------------------------------------------------------------------------

  ghost predicate UniquelyNamed(ps: seq<Package>) {
    forall p, q :: p in ps && q in ps && p.name == q.name ==> p == q
  }

  lemma {:induction false} PendingIs(ps: seq<Package>, p: Package)
    requires UniquelyNamed(ps) && p in ps && p.publish
    ensures p.name in PendingOf(ps) && PendingOf(ps)[p.name] == p
  {
    assert PendingOf(ps)[p.name] in ps;
  }

  /** Uniquely named inputs give the same list in any order, however often each is listed. */
  lemma OrderIgnoresInputOrder(ps: seq<Package>, qs: seq<Package>)
    requires UniquelyNamed(ps) && forall p :: p in ps <==> p in qs
    ensures OrderOf(PendingOf(ps)) == OrderOf(PendingOf(qs))
  {
    forall n | n in PendingOf(ps)
      ensures n in PendingOf(qs) && PendingOf(qs)[n] == PendingOf(ps)[n]
    {
      PendingIs(qs, PendingOf(ps)[n]);
    }
    forall n | n in PendingOf(qs)
      ensures n in PendingOf(ps)
    {
      PendingIs(ps, PendingOf(qs)[n]);
    }
    assert PendingOf(ps) == PendingOf(qs);
  }
}
