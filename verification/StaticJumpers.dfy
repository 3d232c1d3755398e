/** Jumpers on the static board and on the bound one: when they agree, and which node each pad's net stands for. */
module StaticJumpers {
  import Sequences
  import opened Wrappers
  import opened Connectivity
  import opened Bound
  import opened AsBuilt
  import opened AsBuiltProofs
  import opened StaticBoard
  import opened StaticProofs

  /** The pad is on a listed net whose name stands for node `m`; severed and unnamed nets stand for none. */
  ghost predicate PadOn(s: Extracted, netNodes: map<string, Node>, p: Pad, m: Node) {
    IsPad(s, p) && NetAt(s, p).Some? && StandsFor(s.nets, netNodes, NetAt(s, p).value, m)
  }

  /** No net id is listed under names of two nodes. */
  ghost predicate OneNodeEach(s: Extracted, netNodes: map<string, Node>) {
    forall id, m, n :: StandsFor(s.nets, netNodes, id, m) && StandsFor(s.nets, netNodes, id, n) ==> m == n
  }

  /** An id listed only once stands for at most one node, whatever the names. */
  lemma IdsListedOnce(s: Extracted, netNodes: map<string, Node>)
    requires forall n, m :: n in s.nets && m in s.nets && n.id == m.id ==> n == m
    ensures OneNodeEach(s, netNodes)
  {
  }

  // ---------------------------------------------------------------------------------------------
  // One jumper
  // ---------------------------------------------------------------------------------------------

  /** The static board lists both nets. */
  predicate BothListed(s: Extracted, j: Jumper) {
    NetId(s.nets, j.from).Some? && NetId(s.nets, j.to).Some?
  }

  /** The bound board names both nets. */
  predicate BothKnown(b: Board, j: Jumper) {
    j.from in b.netNodes && j.to in b.netNodes
  }

  /** Two nets of the static board that are one node of the bound one, as two grounds are. */
  predicate OneNodeTwoNets(s: Extracted, b: Board, j: Jumper) {
    && BothListed(s, j) && BothKnown(b, j)
    && NetId(s.nets, j.from) != NetId(s.nets, j.to) && b.netNodes[j.from] == b.netNodes[j.to]
  }

  /** Both succeed, or both are refused for the same reason. */
  predicate SameOutcome(rs: Result<Extracted, Error>, rb: Result<Board, Error>) {
    if rs.Ok? then rb.Ok? else rb.Err? && rb.error == rs.error
  }

  lemma ListedStandsFor(s: Extracted, netNodes: map<string, Node>, name: string)
    requires NetId(s.nets, name).Some? && name in netNodes
    ensures StandsFor(s.nets, netNodes, NetId(s.nets, name).value, netNodes[name])
  {
  }

  /**
    The two boards treat a jumper alike exactly when the one lists both nets if the other names them,
    and the two nets are not two listings of one node.
   */
  lemma JumperOutcomesAgreeIff(s: Extracted, b: Board, j: Jumper)
    requires OneNodeEach(s, b.netNodes)
    ensures SameOutcome(StaticJumperSpec(s, j), JumperSpec(b, j)) <==>
            (BothListed(s, j) <==> BothKnown(b, j)) && !OneNodeTwoNets(s, b, j)
  {
    if BothListed(s, j) && BothKnown(b, j) {
      ListedStandsFor(s, b.netNodes, j.from);
      ListedStandsFor(s, b.netNodes, j.to);
    }
  }

  /** What joining two nets does to the nodes nets stand for. */
  lemma JoinedStandsFor(s: Extracted, b: Board, j: Jumper, id: int, m: Node)
    requires OneNodeEach(s, b.netNodes) && StaticJumperSpec(s, j).Ok? && JumperSpec(b, j).Ok?
    ensures var s', b' := StaticJumperSpec(s, j).value, JumperSpec(b, j).value;
            var to, from := b.netNodes[j.to], b.netNodes[j.from];
            && (StandsFor(s'.nets, b'.netNodes, id, m) <==>
                id != NetId(s.nets, j.to).value && exists n :: StandsFor(s.nets, b.netNodes, id, n) && m == Rename(to, from, n))
  {
    var s', b' := StaticJumperSpec(s, j).value, JumperSpec(b, j).value;
    var to, from := b.netNodes[j.to], b.netNodes[j.from];
    if StandsFor(s'.nets, b'.netNodes, id, m) {
      var x :| x in s'.nets && x.id == id && x.name in b'.netNodes && b'.netNodes[x.name] == m;
      assert StandsFor(s.nets, b.netNodes, id, b.netNodes[x.name]);
    }
    if id != NetId(s.nets, j.to).value {
      forall n | StandsFor(s.nets, b.netNodes, id, n)
        ensures StandsFor(s'.nets, b'.netNodes, id, Rename(to, from, n))
      {
        var x :| x in s.nets && x.id == id && x.name in b.netNodes && b.netNodes[x.name] == n;
        assert x in s'.nets && b'.netNodes[x.name] == Rename(to, from, n);
      }
    }
  }

  lemma JoinedPad(s: Extracted, j: Jumper, p: Pad)
    requires StaticJumperSpec(s, j).Ok?
    ensures var s', to, from := StaticJumperSpec(s, j).value, NetId(s.nets, j.to), NetId(s.nets, j.from);
            && (IsPad(s', p) <==> IsPad(s, p))
            && (IsPad(s, p) ==> NetAt(s', p) == if NetAt(s, p) == to then from else NetAt(s, p))
  {
  }

  /** A jumper both boards accept renames the node of every pad's net as it renames the node of every terminal. */
  lemma JumperKeepsNodes(s: Extracted, b: Board, j: Jumper)
    requires OneNodeEach(s, b.netNodes) && StaticJumperSpec(s, j).Ok? && JumperSpec(b, j).Ok?
    ensures var s', b' := StaticJumperSpec(s, j).value, JumperSpec(b, j).value;
            var to, from := b.netNodes[j.to], b.netNodes[j.from];
            && OneNodeEach(s', b'.netNodes)
            && forall p, m :: PadOn(s', b'.netNodes, p, m) <==> exists n :: PadOn(s, b.netNodes, p, n) && m == Rename(to, from, n)
  {
    var s', b' := StaticJumperSpec(s, j).value, JumperSpec(b, j).value;
    forall id, m, n | StandsFor(s'.nets, b'.netNodes, id, m) && StandsFor(s'.nets, b'.netNodes, id, n)
      ensures m == n
    {
      JoinedStandsFor(s, b, j, id, m);
      JoinedStandsFor(s, b, j, id, n);
    }
    forall p, m
      ensures PadOn(s', b'.netNodes, p, m) <==>
              exists n :: PadOn(s, b.netNodes, p, n) && m == Rename(b.netNodes[j.to], b.netNodes[j.from], n)
    {
      JumperKeepsNode(s, b, j, p, m);
    }
  }

  /** The nets a jumper names stand for nothing but the nodes it joins. */
  lemma OnlyNode(s: Extracted, b: Board, name: string, n: Node)
    requires OneNodeEach(s, b.netNodes) && NetId(s.nets, name).Some? && name in b.netNodes
    ensures StandsFor(s.nets, b.netNodes, NetId(s.nets, name).value, n) <==> n == b.netNodes[name]
  {
    ListedStandsFor(s, b.netNodes, name);
  }

  /** A pad of the merged-away net is on the other one's node. */
  lemma MergedPadNode(s: Extracted, b: Board, j: Jumper, p: Pad, m: Node)
    requires OneNodeEach(s, b.netNodes) && StaticJumperSpec(s, j).Ok? && JumperSpec(b, j).Ok?
    requires IsPad(s, p) && NetAt(s, p) == NetId(s.nets, j.to)
    ensures PadOn(StaticJumperSpec(s, j).value, JumperSpec(b, j).value.netNodes, p, m) <==> m == b.netNodes[j.from]
    ensures PadOn(s, b.netNodes, p, m) <==> m == b.netNodes[j.to]
  {
    JoinedPad(s, j, p);
    OnlyNode(s, b, j.to, m);
    JoinedStandsFor(s, b, j, NetId(s.nets, j.from).value, m);
    OnlyNode(s, b, j.from, b.netNodes[j.from]);
    if n :| StandsFor(s.nets, b.netNodes, NetId(s.nets, j.from).value, n)
            && m == Rename(b.netNodes[j.to], b.netNodes[j.from], n) {
      OnlyNode(s, b, j.from, n);
    }
  }

  lemma JumperKeepsNode(s: Extracted, b: Board, j: Jumper, p: Pad, m: Node)
    requires OneNodeEach(s, b.netNodes) && StaticJumperSpec(s, j).Ok? && JumperSpec(b, j).Ok?
    ensures var s', b' := StaticJumperSpec(s, j).value, JumperSpec(b, j).value;
            PadOn(s', b'.netNodes, p, m) <==>
            exists n :: PadOn(s, b.netNodes, p, n) && m == Rename(b.netNodes[j.to], b.netNodes[j.from], n)
  {
    JoinedPad(s, j, p);
    if IsPad(s, p) && NetAt(s, p).Some? {
      if NetAt(s, p) == NetId(s.nets, j.to) {
        MergedPadNode(s, b, j, p, m);
        MergedPadNode(s, b, j, p, b.netNodes[j.to]);
        assert Rename(b.netNodes[j.to], b.netNodes[j.from], b.netNodes[j.to]) == b.netNodes[j.from];
        forall n | PadOn(s, b.netNodes, p, n)
          ensures n == b.netNodes[j.to]
        {
          MergedPadNode(s, b, j, p, n);
        }
      } else {
        JoinedStandsFor(s, b, j, NetAt(s, p).value, m);
      }
    }
  }

  // ---------------------------------------------------------------------------------------------
  // A list of jumpers
  // ---------------------------------------------------------------------------------------------

  /** The node of each pad's net is what merging the pairs of `es` makes of its node on `s0`. */
  ghost predicate Tracks(s0: Extracted, n0: map<string, Node>, es: seq<Edge>, s: Extracted, n: map<string, Node>) {
    forall p, m :: PadOn(s, n, p, m) <==> exists k :: PadOn(s0, n0, p, k) && m == Rep(es, k)
  }

  lemma TracksStep(s0: Extracted, n0: map<string, Node>, es: seq<Edge>, e: Edge, s: Extracted, n: map<string, Node>,
                   s': Extracted, n': map<string, Node>)
    requires Tracks(s0, n0, es, s, n)
    requires forall p, m :: PadOn(s', n', p, m) <==> exists k :: PadOn(s, n, p, k) && m == Rename(Rep(es, e.1), Rep(es, e.0), k)
    ensures Tracks(s0, n0, es + [e], s', n')
  {
    assert (es + [e])[..|es|] == es;
    forall p, m
      ensures PadOn(s', n', p, m) <==> exists k :: PadOn(s0, n0, p, k) && m == Rep(es + [e], k)
    {
      if PadOn(s', n', p, m) {
        var k :| PadOn(s, n, p, k) && m == Rename(Rep(es, e.1), Rep(es, e.0), k);
        var k0 :| PadOn(s0, n0, p, k0) && k == Rep(es, k0);
        assert m == Rep(es + [e], k0);
      }
      if k0 :| PadOn(s0, n0, p, k0) && m == Rep(es + [e], k0) {
        assert PadOn(s, n, p, Rep(es, k0));
      }
    }
  }

  ghost predicate InStep(s0: Extracted, b0: Board, es: seq<Edge>, s: Extracted, b: Board) {
    OneNodeEach(s, b.netNodes) && Tracks(s0, b0.netNodes, es, s, b.netNodes) && Merged(b0, es, b)
  }

  /** Both boards accept the jumper, leaving these. */
  ghost predicate Step(s: Extracted, b: Board, j: Jumper, s': Extracted, b': Board) {
    StaticJumperSpec(s, j) == Ok(s') && JumperSpec(b, j) == Ok(b')
  }

  /** The boards a list passes through on its way. */
  ghost predicate Path(js: seq<Jumper>, ss: seq<Extracted>, bs: seq<Board>) {
    && |ss| == |bs| == |js| + 1
    && forall i :: 0 <= i < |js| ==> Step(ss[i], bs[i], js[i], ss[i + 1], bs[i + 1])
  }

  lemma FirstAccepted(s: Extracted, b: Board, js: seq<Jumper>) returns (s': Extracted, b': Board)
    requires js != [] && StaticJumpersFrom(s, js).Ok? && JumpersFrom(b, js).Ok?
    ensures Step(s, b, js[0], s', b')
    ensures StaticJumpersFrom(s, js) == StaticJumpersFrom(s', js[1..]) && JumpersFrom(b, js) == JumpersFrom(b', js[1..])
  {
    s', b' := StaticJumperSpec(s, js[0]).value, JumperSpec(b, js[0]).value;
  }

  /** What is left of the list comes to the same from here. */
  ghost predicate SameEnd(s: Extracted, b: Board, js: seq<Jumper>, t: Extracted, c: Board, ks: seq<Jumper>) {
    StaticJumpersFrom(s, js) == StaticJumpersFrom(t, ks) && JumpersFrom(b, js) == JumpersFrom(c, ks)
  }

  lemma SameEndStep(s: Extracted, b: Board, js: seq<Jumper>, t: Extracted, c: Board, ks: seq<Jumper>)
    returns (t': Extracted, c': Board)
    requires StaticJumpersFrom(s, js).Ok? && JumpersFrom(b, js).Ok? && SameEnd(s, b, js, t, c, ks) && ks != []
    ensures Step(t, c, ks[0], t', c') && SameEnd(s, b, js, t', c', ks[1..])
  {
    t', c' := FirstAccepted(t, c, ks);
  }

  lemma SameEndDone(s: Extracted, b: Board, js: seq<Jumper>, t: Extracted, c: Board, ks: seq<Jumper>)
    requires SameEnd(s, b, js, t, c, ks) && ks == []
    ensures StaticJumpersFrom(s, js) == Ok(t) && JumpersFrom(b, js) == Ok(c)
  {
  }

  lemma PathExtends(js: seq<Jumper>, ss: seq<Extracted>, bs: seq<Board>, i: nat, t: Extracted, c: Board)
    requires i < |js| && Path(js[..i], ss, bs) && Step(ss[i], bs[i], js[i], t, c)
    ensures Path(js[..i + 1], ss + [t], bs + [c])
  {
    forall k | 0 <= k < i + 1
      ensures Step((ss + [t])[k], (bs + [c])[k], js[..i + 1][k], (ss + [t])[k + 1], (bs + [c])[k + 1])
    {
      if k < i {
        assert Step(ss[k], bs[k], js[..i][k], ss[k + 1], bs[k + 1]);
      }
    }
  }

  lemma PathOf(s: Extracted, b: Board, js: seq<Jumper>) returns (ss: seq<Extracted>, bs: seq<Board>)
    requires StaticJumpersFrom(s, js).Ok? && JumpersFrom(b, js).Ok?
    ensures Path(js, ss, bs) && ss[0] == s && bs[0] == b
    ensures StaticJumpersFrom(s, js) == Ok(ss[|js|]) && JumpersFrom(b, js) == Ok(bs[|js|])
  {
    ss, bs := [s], [b];
    assert js[0..] == js;
    for i := 0 to |js|
      invariant |ss| == i + 1 && Path(js[..i], ss, bs) && ss[0] == s && bs[0] == b
      invariant SameEnd(s, b, js, ss[i], bs[i], js[i..])
    {
      var t, c := SameEndStep(s, b, js, ss[i], bs[i], js[i..]);
      PathExtends(js, ss, bs, i, t, c);
      assert js[i..][1..] == js[i + 1..];
      ss, bs := ss + [t], bs + [c];
    }
    SameEndDone(s, b, js, ss[|js|], bs[|js|], js[|js|..]);
    assert js[..|js|] == js;
  }

  lemma JumperTracks(s0: Extracted, b0: Board, es: seq<Edge>, s: Extracted, b: Board, j: Jumper, s': Extracted, b': Board)
    requires InStep(s0, b0, es, s, b) && j.from in b0.netNodes && j.to in b0.netNodes && Step(s, b, j, s', b')
    ensures InStep(s0, b0, es + [(b0.netNodes[j.from], b0.netNodes[j.to])], s', b')
  {
    var e := (b0.netNodes[j.from], b0.netNodes[j.to]);
    JumperKeepsNodes(s, b, j);
    TracksStep(s0, b0.netNodes, es, e, s, b.netNodes, s', b'.netNodes);
    MergedStep(b0, es, b, e);
  }

  /** One step of a path, and what it adds to the pairs merged so far. */
  lemma StepAt(b0: Board, js: seq<Jumper>, ss: seq<Extracted>, bs: seq<Board>, i: nat)
    requires Path(js, ss, bs) && KnownNets(b0, js) && i < |js|
    ensures Step(ss[i], bs[i], js[i], ss[i + 1], bs[i + 1]) && js[i].from in b0.netNodes && js[i].to in b0.netNodes
    ensures Edges(b0, js)[..i + 1] == Edges(b0, js)[..i] + [(b0.netNodes[js[i].from], b0.netNodes[js[i].to])]
  {
    assert js[i] in js;
    assert Edges(b0, js)[..i + 1] == Edges(b0, js)[..i] + [Edges(b0, js)[i]];
  }

  lemma {:induction false} JumpersTrack(s0: Extracted, b0: Board, js: seq<Jumper>, ss: seq<Extracted>, bs: seq<Board>, k: nat)
    requires Path(js, ss, bs) && KnownNets(b0, js) && k <= |js| && InStep(s0, b0, [], ss[0], bs[0])
    ensures InStep(s0, b0, Edges(b0, js)[..k], ss[k], bs[k])
    decreases k
  {
    if k > 0 {
      var i := k - 1;
      JumpersTrack(s0, b0, js, ss, bs, i);
      StepAt(b0, js, ss, bs, i);
      JumperTracks(s0, b0, Edges(b0, js)[..i], ss[i], bs[i], js[i], ss[k], bs[k]);
    }
  }

  lemma PathTracks(s: Extracted, b: Board, js: seq<Jumper>, ss: seq<Extracted>, bs: seq<Board>)
    requires Path(js, ss, bs) && KnownNets(b, js) && ss[0] == s && bs[0] == b && OneNodeEach(s, b.netNodes)
    ensures Tracks(s, b.netNodes, Edges(b, js), ss[|js|], bs[|js|].netNodes)
  {
    MergedRefl(b);
    JumpersTrack(s, b, js, ss, bs, |js|);
    assert Edges(b, js)[..|js|] == Edges(b, js);
  }

  /** Over a list both boards accept, the node of every pad's net is what merging the pairs makes of it. */
  lemma JumpersKeepNodes(s: Extracted, b: Board, js: seq<Jumper>)
    requires OneNodeEach(s, b.netNodes) && StaticJumpersFrom(s, js).Ok? && JumpersFrom(b, js).Ok?
    ensures KnownNets(b, js)
    ensures Tracks(s, b.netNodes, Edges(b, js), StaticJumpersFrom(s, js).value, JumpersFrom(b, js).value.netNodes)
  {
    JumpersSucceedIffForest(b, js);
    var ss, bs := PathOf(s, b, js);
    PathTracks(s, b, js, ss, bs);
  }

  // ---------------------------------------------------------------------------------------------
  // When a list succeeds
  // ---------------------------------------------------------------------------------------------

  predicate Names(js: seq<Jumper>, name: string) {
    exists j :: j in js && (name == j.from || name == j.to)
  }

  /** No name of the list is listed under two ids. */
  predicate NamesOnce(s: Extracted, js: seq<Jumper>) {
    forall n, m :: n in s.nets && m in s.nets && n.name == m.name && Names(js, n.name) ==> n.id == m.id
  }

  /** The ids each entry names. */
  function IdPairs(s: Extracted, js: seq<Jumper>): (r: seq<(Option<int>, Option<int>)>)
    ensures |r| == |js|
    ensures forall i :: 0 <= i < |js| ==> r[i] == (NetId(s.nets, js[i].from), NetId(s.nets, js[i].to))
  {
    seq(|js|, i requires 0 <= i < |js| => (NetId(s.nets, js[i].from), NetId(s.nets, js[i].to)))
  }

  /** Each pair is of two different ids. */
  predicate AllApart(ps: seq<(Option<int>, Option<int>)>) {
    forall i :: 0 <= i < |ps| ==> ps[i].0.Some? && ps[i].1.Some? && ps[i].0 != ps[i].1
  }

  /** A pair names an id an earlier one merged away. */
  predicate NamesMergedAway(ps: seq<(Option<int>, Option<int>)>) {
    exists i, k :: 0 <= i < k < |ps| && (ps[i].1 == ps[k].0 || ps[i].1 == ps[k].1)
  }

  /** Every entry joins two listed nets of different ids, none of which an earlier entry merged away. */
  predicate StaticFree(ps: seq<(Option<int>, Option<int>)>) {
    AllApart(ps) && !NamesMergedAway(ps)
  }

  function Gone(id: Option<int>, to: Option<int>): Option<int> {
    if id == to then None else id
  }

  /** The rest of the pairs once the first one's second id is gone. */
  function AfterFirst(ps: seq<(Option<int>, Option<int>)>): (r: seq<(Option<int>, Option<int>)>)
    requires ps != []
    ensures |r| == |ps| - 1
    ensures forall i :: 1 <= i < |ps| ==> r[i - 1] == (Gone(ps[i].0, ps[0].1), Gone(ps[i].1, ps[0].1))
  {
    seq(|ps| - 1, i requires 0 <= i < |ps| - 1 => (Gone(ps[i + 1].0, ps[0].1), Gone(ps[i + 1].1, ps[0].1)))
  }

  /** Whether the pairs are free is decided by the first and, on what that leaves, by the rest. */
  lemma StaticFreeSplit(ps: seq<(Option<int>, Option<int>)>)
    requires ps != [] && ps[0].0.Some? && ps[0].1.Some? && ps[0].0 != ps[0].1
    ensures StaticFree(ps) <==> StaticFree(AfterFirst(ps))
  {
    var rest := AfterFirst(ps);
    if StaticFree(ps) {
      forall i | 1 <= i < |ps|
        ensures rest[i - 1] == ps[i]
      {
      }
      forall i, k | 0 <= i < k < |rest|
        ensures rest[i].1 != rest[k].0 && rest[i].1 != rest[k].1
      {
        assert rest[i] == ps[i + 1] && rest[k] == ps[k + 1];
      }
    }
    if StaticFree(rest) {
      forall i | 1 <= i < |ps|
        ensures rest[i - 1] == ps[i] && ps[0].1 != ps[i].0 && ps[0].1 != ps[i].1
      {
        assert rest[i - 1].0.Some? && rest[i - 1].1.Some?;
      }
      forall i, k | 0 <= i < k < |ps|
        ensures ps[i].1 != ps[k].0 && ps[i].1 != ps[k].1
      {
        if i > 0 {
          assert rest[i - 1] == ps[i] && rest[k - 1] == ps[k];
        }
      }
    }
  }

  lemma {:induction false} NetIdIs(nets: seq<Net>, name: string, id: int)
    requires forall n, m :: n in nets && m in nets && n.name == m.name == name ==> n.id == m.id
    ensures NetId(nets, name) == Some(id) <==> exists n :: n in nets && n.name == name && n.id == id
  {
    if n :| n in nets && n.name == name && n.id == id {
      assert NetId(nets, name).Some?;
    }
  }

  /** After a jumper a name of the rest of the list has its id still, unless that was merged away. */
  lemma NetIdAfter(s: Extracted, j: Jumper, js: seq<Jumper>, name: string)
    requires StaticJumperSpec(s, j).Ok? && NamesOnce(s, js) && Names(js, name)
    ensures NetId(StaticJumperSpec(s, j).value.nets, name)
            == if NetId(s.nets, name) == NetId(s.nets, j.to) then None else NetId(s.nets, name)
  {
    var s' := StaticJumperSpec(s, j).value;
    if NetId(s.nets, name).Some? {
      var id := NetId(s.nets, name).value;
      NetIdIs(s.nets, name, id);
      NetIdIs(s'.nets, name, id);
    }
  }

  lemma NamesSplit(js: seq<Jumper>, name: string)
    requires js != []
    ensures Names(js, name) <==> name == js[0].from || name == js[0].to || Names(js[1..], name)
  {
    assert js == [js[0]] + js[1..];
  }

  lemma IdPairsAfter(s: Extracted, js: seq<Jumper>)
    requires js != [] && NamesOnce(s, js) && StaticJumperSpec(s, js[0]).Ok?
    ensures IdPairs(StaticJumperSpec(s, js[0]).value, js[1..]) == AfterFirst(IdPairs(s, js))
  {
    var s', rest, ps := StaticJumperSpec(s, js[0]).value, js[1..], IdPairs(s, js);
    forall i | 0 <= i < |rest|
      ensures IdPairs(s', rest)[i] == AfterFirst(ps)[i]
    {
      assert rest[i] == js[i + 1] && js[i + 1] in js;
      NetIdAfter(s, js[0], js, rest[i].from);
      NetIdAfter(s, js[0], js, rest[i].to);
      assert AfterFirst(ps)[i] == (Gone(ps[i + 1].0, ps[0].1), Gone(ps[i + 1].1, ps[0].1));
    }
  }

  /**
    On the static board a list of jumpers succeeds exactly when every entry joins two listed nets of
    different ids, none of which an earlier entry merged away.
   */
  lemma {:induction false} StaticJumpersSucceedIff(s: Extracted, js: seq<Jumper>)
    requires NamesOnce(s, js)
    ensures StaticJumpersFrom(s, js).Ok? <==> StaticFree(IdPairs(s, js))
    decreases |js|
  {
    if js != [] {
      var ps := IdPairs(s, js);
      assert StaticJumperSpec(s, js[0]).Ok? <==> ps[0].0.Some? && ps[0].1.Some? && ps[0].0 != ps[0].1;
      if StaticJumperSpec(s, js[0]).Ok? {
        IdPairsAfter(s, js);
        StaticFreeSplit(ps);
        NamesOnceAfter(s, js);
        StaticJumpersSucceedIff(StaticJumperSpec(s, js[0]).value, js[1..]);
      }
    }
  }

  lemma NamesOnceAfter(s: Extracted, js: seq<Jumper>)
    requires js != [] && NamesOnce(s, js) && StaticJumperSpec(s, js[0]).Ok?
    ensures NamesOnce(StaticJumperSpec(s, js[0]).value, js[1..])
  {
    var s' := StaticJumperSpec(s, js[0]).value;
    forall n, m | n in s'.nets && m in s'.nets && n.name == m.name && Names(js[1..], n.name)
      ensures n.id == m.id
    {
      NamesSplit(js, n.name);
    }
  }

  /** The list names both nets, and they are one node. */
  predicate OneNode(b: Board, js: seq<Jumper>, n: Net, m: Net) {
    && Names(js, n.name) && Names(js, m.name)
    && n.name in b.netNodes && m.name in b.netNodes && b.netNodes[n.name] == b.netNodes[m.name]
  }

  /** Different ids the list names stand for different nodes. */
  predicate NodesApart(s: Extracted, b: Board, js: seq<Jumper>) {
    forall n, m :: n in s.nets && m in s.nets && OneNode(b, js, n, m) ==> n.id == m.id
  }

  lemma NodesApartAfter(s: Extracted, b: Board, js: seq<Jumper>, s': Extracted, b': Board)
    requires js != [] && NodesApart(s, b, js) && StaticJumperSpec(s, js[0]) == Ok(s') && JumperSpec(b, js[0]) == Ok(b')
    ensures NodesApart(s', b', js[1..])
  {
    var j := js[0];
    NamesSplit(js, j.to);
    var t :| t in s.nets && t.name == j.to && t.id == NetId(s.nets, j.to).value;
    forall n | n in s'.nets && Names(js[1..], n.name) && n.name in b.netNodes
      ensures Names(js, n.name) && b'.netNodes[n.name] == b.netNodes[n.name]
    {
      NamesSplit(js, n.name);
      assert OneNode(b, js, n, t) ==> n.id == t.id;
    }
    forall n, m | n in s'.nets && m in s'.nets && OneNode(b', js[1..], n, m)
      ensures n.id == m.id
    {
      assert OneNode(b, js, n, m);
    }
  }

  /** With the nodes apart, what the static board accepts the bound one accepts. */
  lemma {:induction false} StaticAcceptsLess(s: Extracted, b: Board, js: seq<Jumper>)
    requires KnownNets(b, js) && NodesApart(s, b, js) && StaticJumpersFrom(s, js).Ok?
    ensures JumpersFrom(b, js).Ok?
    decreases |js|
  {
    if js != [] {
      var j := js[0];
      assert j in js && BothKnown(b, j);
      assert forall k :: k in js[1..] ==> k in js;
      var n :| n in s.nets && n.name == j.from && n.id == NetId(s.nets, j.from).value;
      var m :| m in s.nets && m.name == j.to && m.id == NetId(s.nets, j.to).value;
      assert Names(js, n.name) && Names(js, m.name);
      assert !OneNode(b, js, n, m);
      var s', b' := StaticJumperSpec(s, j).value, JumperSpec(b, j).value;
      NodesApartAfter(s, b, js, s', b');
      StaticAcceptsLess(s', b', js[1..]);
    }
  }

  /**
    When a list of jumpers succeeds on one board and not on the other, read off the boards before it;
    and over nets both know, of nodes apart: exactly when the pairs form a forest but an entry names a
    net an earlier one merged away.
   */
  lemma JumperListsAgreeIff(s: Extracted, b: Board, js: seq<Jumper>)
    requires NamesOnce(s, js)
    ensures (StaticJumpersFrom(s, js).Ok? <==> JumpersFrom(b, js).Ok?) <==>
            (StaticFree(IdPairs(s, js)) <==> KnownNets(b, js) && Forest(Edges(b, js)))
    ensures OneListingEach(s, b, js) ==>
              ((StaticJumpersFrom(s, js).Ok? <==> JumpersFrom(b, js).Ok?) <==>
               !(Forest(Edges(b, js)) && NamesMergedAway(IdPairs(s, js))))
  {
    StaticJumpersSucceedIff(s, js);
    JumpersSucceedIffForest(b, js);
    if OneListingEach(s, b, js) {
      if StaticJumpersFrom(s, js).Ok? {
        StaticAcceptsLess(s, b, js);
      }
      if Forest(Edges(b, js)) {
        ForestIsApart(s, b, js);
      }
    }
  }

  /** Both boards have every net of the list, as one listing and one node each. */
  ghost predicate OneListingEach(s: Extracted, b: Board, js: seq<Jumper>) {
    && KnownNets(b, js) && (forall j :: j in js ==> BothListed(s, j))
    && NodesApart(s, b, js) && OneNodeEach(s, b.netNodes)
  }

  /** Pairs that form a forest join no net to itself. */
  lemma ForestIsApart(s: Extracted, b: Board, js: seq<Jumper>)
    requires OneListingEach(s, b, js) && Forest(Edges(b, js))
    ensures AllApart(IdPairs(s, js))
  {
    var es, ps := Edges(b, js), IdPairs(s, js);
    forall i | 0 <= i < |js|
      ensures ps[i].0.Some? && ps[i].1.Some? && ps[i].0 != ps[i].1
    {
      var j := js[i];
      assert j in js;
      ConnectedRefl(Sequences.Without(es, i), es[i].0);
      ListedStandsFor(s, b.netNodes, j.from);
      ListedStandsFor(s, b.netNodes, j.to);
    }
  }

  // ---------------------------------------------------------------------------------------------
  // Where they part ways
  // ---------------------------------------------------------------------------------------------

  function NamedBoard(netNodes: map<string, Node>): Board {
    Board([], netNodes, [], [], [], [], [], [], [], [])
  }

  /** A severed net is a net of the static board alone. */
  lemma SeveredNetExample()
    ensures var s := Extracted([Net(1, "N"), Net(2, "asbuilt-cut-(Q1-Pad1)")], []);
            var j := Jumper("N", "asbuilt-cut-(Q1-Pad1)");
            StaticJumperSpec(s, j).Ok? && JumperSpec(NamedBoard(map["N" := 9]), j) == Err(UnknownNet)
  {
    var nets := [Net(1, "N"), Net(2, "asbuilt-cut-(Q1-Pad1)")];
    assert nets[1..][0] == nets[1];
    assert "N" != "asbuilt-cut-(Q1-Pad1)";
    assert NetId(nets, "asbuilt-cut-(Q1-Pad1)") == NetId(nets[1..], "asbuilt-cut-(Q1-Pad1)") == Some(2);
  }

  /** Two grounds are one node, so joining them is refused on the bound board only. */
  lemma TwoGroundsExample()
    ensures var s := Extracted([Net(1, "GND"), Net(2, "AGND")], []);
            var b, j := NamedBoard(map["GND" := 0, "AGND" := 0]), Jumper("GND", "AGND");
            OneNodeTwoNets(s, b, j) && StaticJumperSpec(s, j).Ok? && JumperSpec(b, j) == Err(JumperSelf)
  {
    var nets := [Net(1, "GND"), Net(2, "AGND")];
    assert nets[1..][0] == nets[1];
    assert NetId(nets, "AGND") == NetId(nets[1..], "AGND") == Some(2);
  }

  const THREE: Extracted := Extracted([Net(1, "A"), Net(2, "B"), Net(3, "C")], [])
  const CHAIN: seq<Jumper> := [Jumper("A", "B"), Jumper("B", "C")]

  lemma ChainMerges()
    ensures JumpersFrom(NamedBoard(map["A" := 1, "B" := 2, "C" := 3]), CHAIN).Ok?
  {
    var b := NamedBoard(map["A" := 1, "B" := 2, "C" := 3]);
    var b1 := JumperSpec(b, CHAIN[0]).value;
    assert b1.netNodes["B"] == 1 && b1.netNodes["C"] == 3;
    assert CHAIN[1..] == [CHAIN[1]] && CHAIN[1..][1..] == [];
    assert JumpersFrom(b1, CHAIN[1..]) == JumpersFrom(JumperSpec(b1, CHAIN[1]).value, CHAIN[1..][1..]);
  }

  lemma NamesListedOnce()
    ensures NamesOnce(THREE, CHAIN)
  {
  }

  /** A forest that names a merged-away net is accepted on the bound board only. */
  lemma MergedAwayExample()
    ensures NamesMergedAway(IdPairs(THREE, CHAIN)) && StaticJumpersFrom(THREE, CHAIN).Err?
    ensures JumpersFrom(NamedBoard(map["A" := 1, "B" := 2, "C" := 3]), CHAIN).Ok?
  {
    ChainMerges();
    var ps := IdPairs(THREE, CHAIN);
    assert ps[0].1 == ps[1].0;
    NamesListedOnce();
    StaticJumpersSucceedIff(THREE, CHAIN);
  }

  // ---------------------------------------------------------------------------------------------
  // The whole overlay
  // ---------------------------------------------------------------------------------------------

  /** Severing takes the severed pads off every node, and leaves the net of every other pad what it stood for. */
  lemma SeveringKeepsNodes(o: Extracted, s: set<Pad>, base: int, id: int, b: Extracted, netNodes: map<string, Node>)
    requires Severed(o, s, base, id, b) && NamesApart(netNodes) && OneNodeEach(o, netNodes)
    ensures OneNodeEach(b, netNodes)
    ensures forall p, m :: PadOn(b, netNodes, p, m) <==> p !in s && PadOn(o, netNodes, p, m)
  {
    forall x, m, n | StandsFor(b.nets, netNodes, x, m) && StandsFor(b.nets, netNodes, x, n)
      ensures m == n
    {
      StandsForSame(o, s, base, id, b, netNodes, x, m);
      StandsForSame(o, s, base, id, b, netNodes, x, n);
    }
    forall p, m
      ensures PadOn(b, netNodes, p, m) <==> p !in s && PadOn(o, netNodes, p, m)
    {
      SeveringKeepsNode(o, s, base, id, b, netNodes, p, m);
    }
  }

  lemma SeveringKeepsNode(o: Extracted, s: set<Pad>, base: int, id: int, b: Extracted, netNodes: map<string, Node>, p: Pad, m: Node)
    requires Severed(o, s, base, id, b) && NamesApart(netNodes)
    ensures PadOn(b, netNodes, p, m) <==> p !in s && PadOn(o, netNodes, p, m)
  {
    SamePads(o, b, p);
    if IsPad(o, p) && NetAt(b, p).Some? {
      StandsForSame(o, s, base, id, b, netNodes, NetAt(b, p).value, m);
    }
  }

  lemma SamePads(o: Extracted, b: Extracted, p: Pad)
    requires SameComponents(o, b)
    ensures IsPad(b, p) <==> IsPad(o, p)
  {
    if p.0 < |o.components| {
      assert SamePart(o.components[p.0], b.components[p.0]);
    }
  }

  /** What a whole overlay makes of the nodes of pads and terminals, on boards that both accept it. */
  ghost predicate NodesAgree(o: Extracted, d: Board, s: set<Pad>, f: set<Terminal>, es: seq<Edge>, after: Extracted, c: Board) {
    && SameParts(d, c)
    && (forall p, m :: PadOn(after, c.netNodes, p, m) <==>
          p !in s && exists k :: PadOn(o, d.netNodes, p, k) && m == Rep(es, k))
    && (forall p: Pad, t: Terminal :: IsTerminal(d, t) && p !in s && t !in f && PadOn(o, d.netNodes, p, NodeAt(d, t)) ==>
          PadOn(after, c.netNodes, p, NodeAt(c, t)))
  }

  /**
    A cut, lifted and jumpered design, on both boards: a severed pad is on no node; every other pad's
    net stands for what merging the jumper pairs makes of its node; so a pad that was on a terminal's
    node, neither severed nor floated, still is.
   */
  lemma OverlayAgrees(o: Extracted, d: Board, ov: Overlay, pads: RolePads) returns (s: set<Pad>)
    requires NamesApart(d.netNodes) && RolesStay(pads, o) && OneNetPerNumber(o) && OneNodeEach(o, d.netNodes)
    requires FloatedSpec(d, ov).Ok? && ApplySpec(d, ov).Ok?
    ensures KnownNets(d, ov.jumpers)
    ensures forall p :: p in s <==> exists t :: t in FloatSet(d, ov) && TerminalPad(o, d, pads, t, p)
    ensures var severed := SeverFrom(o, d.netNodes, pads, FloatedSpec(d, ov).value, FirstFreeId(o.nets), []).0;
            StaticJumpersFrom(severed, ov.jumpers).Ok? ==>
              NodesAgree(o, d, s, FloatSet(d, ov), Edges(d, ov.jumpers), StaticJumpersFrom(severed, ov.jumpers).value,
                         ApplySpec(d, ov).value)
  {
    s := FloatedPadsAreSevered(o, d, ov, pads);
    var r := SeverFrom(o, d.netNodes, pads, FloatedSpec(d, ov).value, FirstFreeId(o.nets), []);
    AppliedNodes(d, ov);
    AppliedConnectivity(d, ov);
    var o1, b3, next, b4 := BeforeFits(d, ov);
    FitsAppend(b4, ov.fits);
    if StaticJumpersFrom(r.0, ov.jumpers).Ok? {
      SeveringKeepsNodes(o, s, FirstFreeId(o.nets), r.1, r.0, d.netNodes);
      JumpersKeepNodes(r.0, b3, ov.jumpers);
      assert Edges(b3, ov.jumpers) == Edges(d, ov.jumpers);
      TrackedNodesAgree(o, d, s, FloatSet(d, ov), Edges(d, ov.jumpers), r.0, StaticJumpersFrom(r.0, ov.jumpers).value,
                        ApplySpec(d, ov).value);
    }
  }

  lemma TrackedNodesAgree(o: Extracted, d: Board, s: set<Pad>, f: set<Terminal>, es: seq<Edge>, severed: Extracted,
                          after: Extracted, c: Board)
    requires forall p, m :: PadOn(severed, d.netNodes, p, m) <==> p !in s && PadOn(o, d.netNodes, p, m)
    requires Tracks(severed, d.netNodes, es, after, c.netNodes) && SameParts(d, c)
    requires forall t: Terminal :: IsTerminal(d, t) && t !in f ==> NodeAt(c, t) == Rep(es, NodeAt(d, t))
    ensures NodesAgree(o, d, s, f, es, after, c)
  {
    forall p, m
      ensures PadOn(after, c.netNodes, p, m) <==> p !in s && exists k :: PadOn(o, d.netNodes, p, k) && m == Rep(es, k)
    {
      assert PadOn(after, c.netNodes, p, m) <==> exists k :: PadOn(severed, d.netNodes, p, k) && m == Rep(es, k);
    }
  }
}
