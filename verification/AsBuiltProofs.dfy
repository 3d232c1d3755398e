/**
  What an applied overlay did to the board: which terminals and net names share a node, and whether
  any cached node id was left behind.
 */
module AsBuiltProofs {
  import opened Wrappers
  import opened Sequences
  import opened Connectivity
  import opened Circuit
  import opened Bound
  import opened Text
  import opened AsBuilt

  /** A terminal: a device by index, and its place among the device's terminals. */
  type Terminal = (nat, nat)

  predicate IsTerminal(b: Board, t: Terminal) {
    t.0 < |b.devices| && t.1 < |Terminals(b.devices[t.0])|
  }

  function NodeAt(b: Board, t: Terminal): Node
    requires IsTerminal(b, t)
  {
    Terminals(b.devices[t.0])[t.1]
  }

  /** `b` has the devices of `o` in place, whatever nodes they are on, perhaps with more after them. */
  ghost predicate SameParts(o: Board, b: Board) {
    && |o.devices| <= |b.devices|
    && (forall i :: 0 <= i < |o.devices| ==>
          && |Terminals(b.devices[i])| == |Terminals(o.devices[i])|
          && b.devices[i].name == o.devices[i].name
          && (b.devices[i].Bjt? <==> o.devices[i].Bjt?)
          && |RailPins(b.devices[i])| == |RailPins(o.devices[i])|)
    && b.netNodes.Keys == o.netNodes.Keys
  }

  // ---------------------------------------------------------------------------------------------
  // replace moves nothing
  // ---------------------------------------------------------------------------------------------

  /** A board whose devices differ only in their values. */
  ghost predicate SameWiring(o: Board, b: Board) {
    && |b.devices| == |o.devices|
    && (forall i :: 0 <= i < |o.devices| ==> SameWires(o.devices[i], b.devices[i]))
    && b == o.(devices := b.devices)
  }

  ghost predicate SameWires(d: Device, d': Device) {
    && Terminals(d') == Terminals(d) && RailPins(d') == RailPins(d)
    && d'.name == d.name && (d'.Bjt? ==> d.Bjt?)
    && (d.Resistor? ==> d'.Resistor?)
    && (d.Bjt? || d.Vsource? || d.Isource? || d.Behavioral? ==> d' == d)
  }

  lemma {:induction false} SetHitsKeepsWires(ds: seq<Device>, hits: seq<nat>, v: SetValues)
    requires SetHits(ds, hits, v).Ok?
    ensures |SetHits(ds, hits, v).value| == |ds|
    ensures forall i :: 0 <= i < |ds| ==> SameWires(ds[i], SetHits(ds, hits, v).value[i])
    decreases |hits|
  {
    if hits != [] {
      if hits[0] >= |ds| {
        SetHitsKeepsWires(ds, hits[1..], v);
      } else {
        var d := SetDevice(ds[hits[0]], v).value;
        SetDeviceKeepsWires(ds[hits[0]], v);
        SetHitsKeepsWires(ds[hits[0] := d], hits[1..], v);
      }
    }
  }

  lemma SetDeviceKeepsWires(d: Device, v: SetValues)
    requires SetDevice(d, v).Ok?
    ensures SameWires(d, SetDevice(d, v).value)
  {
  }

  /** A value swap moves no terminal, renames no device and touches no net. */
  lemma {:induction false} ReplacesKeepWiring(o: Board, rs: seq<Replace>)
    requires ReplacesFrom(o, rs).Ok?
    ensures SameWiring(o, ReplacesFrom(o, rs).value)
    decreases |rs|
  {
    if rs != [] {
      var hits := Indices(o.devices, |o.devices|, (d: Device) => ReplaceHits(rs[0], d));
      SetHitsKeepsWires(o.devices, hits, rs[0].fitted);
      ReplacesKeepWiring(ReplaceSpec(o, rs[0]).value, rs[1..]);
    }
  }

  // ---------------------------------------------------------------------------------------------
  // cut and lift: every taken terminal alone on its own fresh node
  // ---------------------------------------------------------------------------------------------

  ghost predicate NodesBelowBase(b: Board) {
    && (forall t: Terminal :: IsTerminal(b, t) ==> NodeAt(b, t) < FLOAT_NODE_BASE)
    && (forall x :: x in b.netNodes ==> b.netNodes[x] < FLOAT_NODE_BASE)
  }

  /** `b` is `o` with exactly the terminals of `f` floated onto ids from the base up to `next`. */
  ghost predicate Floated(o: Board, f: set<Terminal>, next: Node, b: Board) {
    && SameParts(o, b) && |b.devices| == |o.devices|
    && b == o.(devices := b.devices)
    && FLOAT_NODE_BASE <= next
    && (forall t :: t in f ==> IsTerminal(o, t))
    && (forall t: Terminal :: IsTerminal(o, t) ==>
          if t in f then FLOAT_NODE_BASE <= NodeAt(b, t) < next else NodeAt(b, t) == NodeAt(o, t))
    && (forall t, u :: t in f && u in f && NodeAt(b, t) == NodeAt(b, u) ==> t == u)
    && (forall i :: 0 <= i < |o.devices| ==> RailPins(b.devices[i]) == RailPins(o.devices[i]))
  }

  /** The terminals one entry takes off a board. */
  ghost function Taken(b: Board, s: Selector, role: Role): set<Terminal> {
    set i: nat | i < |b.devices| && Hits(s, role, b.devices[i]) :: (i, Slot(role))
  }

  lemma {:induction false} NextIdMonotone(ds: seq<Device>, i: nat, j: nat, s: Selector, role: Role, next: Node)
    requires i < j <= |ds|
    ensures NextId(ds, i, s, role, next) + (if Hits(s, role, ds[i]) then 1 else 0) <= NextId(ds, j, s, role, next)
    decreases j
  {
    if i < j - 1 {
      NextIdMonotone(ds, i, j - 1, s, role, next);
    }
  }

  ghost function HitDevices(ds: seq<Device>, k: nat, s: Selector, role: Role): set<nat>
    requires k <= |ds|
  {
    set i: nat | i < k && Hits(s, role, ds[i])
  }

  /** The ids handed out count the terminals taken. */
  lemma {:induction false} NextIdCounts(ds: seq<Device>, k: nat, s: Selector, role: Role, next: Node)
    requires k <= |ds|
    ensures NextId(ds, k, s, role, next) - next == |HitDevices(ds, k, s, role)|
  {
    if k > 0 {
      NextIdCounts(ds, k - 1, s, role, next);
      var before, now := HitDevices(ds, k - 1, s, role), HitDevices(ds, k, s, role);
      if Hits(s, role, ds[k - 1]) {
        assert now == before + {k - 1};
      } else {
        assert now == before;
      }
    }
  }

  lemma FloatedNode(ds: seq<Device>, s: Selector, role: Role, next: Node, i: nat)
    requires i < |ds|
    ensures var d, d' := ds[i], FloatDevices(ds, s, role, next)[i];
            var id, next' := NextId(ds, i, s, role, next), NextId(ds, |ds|, s, role, next);
            && next <= id <= next' && (Hits(s, role, d) ==> id < next')
            && Terminals(d') == (if Hits(s, role, d) then Terminals(d)[Slot(role) := id] else Terminals(d))
            && RailPins(d') == RailPins(d) && d'.name == d.name && (d'.Bjt? <==> d.Bjt?)
  {
    NextIdMonotone(ds, i, |ds|, s, role, next);
    if Hits(s, role, ds[i]) {
      SetRoleMovesOneTerminal(ds[i], role, NextId(ds, i, s, role, next));
    }
  }

  /** What one entry's step does to one terminal. */
  lemma FloatStepAt(o: Board, f: set<Terminal>, next: Node, b: Board, s: Selector, role: Role, t: Terminal)
    requires Floated(o, f, next, b) && IsTerminal(o, t)
    ensures var b' := b.(devices := FloatDevices(b.devices, s, role, next));
            var id := NextId(b.devices, t.0, s, role, next);
            && IsTerminal(b', t) && IsTerminal(b, t)
            && NodeAt(b', t) == (if t in Taken(b, s, role) then id else NodeAt(b, t))
            && next <= id && (t in Taken(b, s, role) ==> id < NextId(b.devices, |b.devices|, s, role, next))
  {
    FloatedNode(b.devices, s, role, next, t.0);
  }

  lemma FloatStepPart(o: Board, f: set<Terminal>, next: Node, b: Board, s: Selector, role: Role, i: nat)
    requires Floated(o, f, next, b) && i < |o.devices|
    ensures var d, d' := o.devices[i], FloatDevices(b.devices, s, role, next)[i];
            && |Terminals(d')| == |Terminals(d)| && RailPins(d') == RailPins(d)
            && d'.name == d.name && (d'.Bjt? <==> d.Bjt?)
  {
    FloatedNode(b.devices, s, role, next, i);
  }

  lemma FloatStepParts(o: Board, f: set<Terminal>, next: Node, b: Board, s: Selector, role: Role)
    requires Floated(o, f, next, b)
    ensures var b' := b.(devices := FloatDevices(b.devices, s, role, next));
            && SameParts(o, b')
            && forall i :: 0 <= i < |o.devices| ==> RailPins(b'.devices[i]) == RailPins(o.devices[i])
  {
    var b' := b.(devices := FloatDevices(b.devices, s, role, next));
    forall i | 0 <= i < |o.devices|
      ensures |Terminals(b'.devices[i])| == |Terminals(o.devices[i])|
      ensures RailPins(b'.devices[i]) == RailPins(o.devices[i])
      ensures b'.devices[i].name == o.devices[i].name && (b'.devices[i].Bjt? <==> o.devices[i].Bjt?)
    {
      FloatStepPart(o, f, next, b, s, role, i);
    }
  }

  lemma TakenAreTerminals(b: Board, s: Selector, role: Role)
    ensures forall t :: t in Taken(b, s, role) ==> IsTerminal(b, t)
  {
  }

  /** One entry's step: the terminals it takes join the floated ones. */
  lemma FloatStep(o: Board, f: set<Terminal>, next: Node, b: Board, s: Selector, role: Role)
    requires Floated(o, f, next, b)
    ensures var b' := b.(devices := FloatDevices(b.devices, s, role, next));
            Floated(o, f + Taken(b, s, role), NextId(b.devices, |b.devices|, s, role, next), b')
  {
    var b' := b.(devices := FloatDevices(b.devices, s, role, next));
    var taken := Taken(b, s, role);
    FloatStepParts(o, f, next, b, s, role);
    TakenAreTerminals(b, s, role);
    forall t: Terminal | IsTerminal(o, t) {
      FloatStepAt(o, f, next, b, s, role, t);
    }
    forall t, u | t in f + taken && u in f + taken && NodeAt(b', t) == NodeAt(b', u)
      ensures t == u
    {
      FloatedApart(b.devices, s, role, next, t, u, taken);
    }
  }

  /** Two terminals taken by one entry got different ids. */
  lemma FloatedApart(ds: seq<Device>, s: Selector, role: Role, next: Node, t: Terminal, u: Terminal, taken: set<Terminal>)
    requires taken == set i: nat | i < |ds| && Hits(s, role, ds[i]) :: (i, Slot(role))
    ensures t in taken && u in taken && NextId(ds, t.0, s, role, next) == NextId(ds, u.0, s, role, next) ==> t == u
  {
    if t in taken && u in taken && t.0 < u.0 {
      NextIdMonotone(ds, t.0, u.0, s, role, next);
    } else if t in taken && u in taken && u.0 < t.0 {
      NextIdMonotone(ds, u.0, t.0, s, role, next);
    }
  }

  /** Every terminal some cut or lift names, read off the board as it was designed. */
  ghost predicate CutNames(o: Board, cs: seq<Cut>, t: Terminal)
    requires IsTerminal(o, t)
  {
    o.devices[t.0].Bjt? && exists c :: c in cs && t.1 == Slot(c.role) && NodeAt(o, t) in MatchedNodes(o.netNodes, c.netGlob)
  }

  ghost predicate LiftNames(o: Board, ls: seq<Lift>, t: Terminal)
    requires IsTerminal(o, t)
  {
    o.devices[t.0].Bjt? && exists l :: l in ls && t.1 == Slot(l.role) && Contains(o.devices[t.0].name, l.reference)
  }

  ghost function CutSet(o: Board, cs: seq<Cut>): set<Terminal> {
    set i: nat, k: nat | i < |o.devices| && k < |Terminals(o.devices[i])| && CutNames(o, cs, (i, k)) :: (i, k)
  }

  ghost function LiftSet(o: Board, ls: seq<Lift>): set<Terminal> {
    set i: nat, k: nat | i < |o.devices| && k < |Terminals(o.devices[i])| && LiftNames(o, ls, (i, k)) :: (i, k)
  }

  ghost function FloatSet(o: Board, ov: Overlay): set<Terminal> {
    CutSet(o, ov.cuts) + LiftSet(o, ov.lifts)
  }

  /** A cut takes what it names on the design: a floated terminal is on no named net any more. */
  lemma CutTakes(o: Board, f: set<Terminal>, next: Node, b: Board, c: Cut)
    requires Floated(o, f, next, b) && NodesBelowBase(o)
    ensures f + Taken(b, OnNodes(MatchedNodes(b.netNodes, c.netGlob)), c.role) == f + CutSet(o, [c])
  {
    var nodes := MatchedNodes(b.netNodes, c.netGlob);
    var s := OnNodes(nodes);
    forall t: Terminal | t !in f
      ensures t in Taken(b, s, c.role) <==> t in CutSet(o, [c])
    {
      if IsTerminal(o, t) && o.devices[t.0].Bjt? {
        SetRoleMovesOneTerminal(b.devices[t.0], c.role, 0);
        assert Terminals(b.devices[t.0])[Slot(c.role)] == RoleNode(b.devices[t.0], c.role);
        if t in Taken(b, s, c.role) {
          assert c in [c];
        }
      }
    }
  }

  lemma LiftTakes(o: Board, f: set<Terminal>, next: Node, b: Board, l: Lift)
    requires Floated(o, f, next, b)
    ensures Taken(b, Named(l.reference), l.role) == LiftSet(o, [l])
  {
    forall t: Terminal
      ensures t in Taken(b, Named(l.reference), l.role) <==> t in LiftSet(o, [l])
    {
      assert l in [l];
    }
  }

  lemma CutFloats(o: Board, f: set<Terminal>, next: Node, b: Board, c: Cut)
    requires Floated(o, f, next, b) && NodesBelowBase(o) && CutSpec(b, c, next).Ok?
    ensures var v := CutSpec(b, c, next).value; Floated(o, f + CutSet(o, [c]), v.1, v.0)
  {
    FloatStep(o, f, next, b, OnNodes(MatchedNodes(b.netNodes, c.netGlob)), c.role);
    CutTakes(o, f, next, b, c);
  }

  lemma FloatedJoins(o: Board, f: set<Terminal>, g: set<Terminal>, rest: set<Terminal>, all: set<Terminal>, next: Node, b: Board)
    requires Floated(o, f + g + rest, next, b) && all == g + rest
    ensures Floated(o, f + all, next, b)
  {
    assert f + g + rest == f + all;
  }

  lemma {:induction false} CutsFloat(o: Board, f: set<Terminal>, next: Node, b: Board, cs: seq<Cut>)
    requires Floated(o, f, next, b) && (cs == [] || NodesBelowBase(o))
    requires CutsFrom(b, cs, next).Ok?
    ensures var v := CutsFrom(b, cs, next).value; Floated(o, f + CutSet(o, cs), v.1, v.0)
    decreases |cs|
  {
    if cs == [] {
      assert f + CutSet(o, cs) == f;
    } else {
      var c := cs[0];
      CutFloats(o, f, next, b, c);
      var v := CutSpec(b, c, next).value;
      CutsFloat(o, f + CutSet(o, [c]), v.1, v.0, cs[1..]);
      CutSetSplits(o, cs);
      var w := CutsFrom(b, cs, next).value;
      FloatedJoins(o, f, CutSet(o, [c]), CutSet(o, cs[1..]), CutSet(o, cs), w.1, w.0);
    }
  }

  lemma CutSetSplits(o: Board, cs: seq<Cut>)
    requires cs != []
    ensures CutSet(o, cs) == CutSet(o, [cs[0]]) + CutSet(o, cs[1..])
  {
    assert cs == [cs[0]] + cs[1..];
    forall t: Terminal | IsTerminal(o, t)
      ensures CutNames(o, cs, t) <==> CutNames(o, [cs[0]], t) || CutNames(o, cs[1..], t)
    {
      forall c ensures c in cs <==> c in [cs[0]] || c in cs[1..] {
      }
    }
  }

  lemma LiftFloats(o: Board, f: set<Terminal>, next: Node, b: Board, l: Lift)
    requires Floated(o, f, next, b) && LiftSpec(b, l, next).Ok?
    ensures var v := LiftSpec(b, l, next).value; Floated(o, f + LiftSet(o, [l]), v.1, v.0)
  {
    FloatStep(o, f, next, b, Named(l.reference), l.role);
    LiftTakes(o, f, next, b, l);
  }

  lemma {:induction false} LiftsFloat(o: Board, f: set<Terminal>, next: Node, b: Board, ls: seq<Lift>)
    requires Floated(o, f, next, b)
    requires LiftsFrom(b, ls, next).Ok?
    ensures var v := LiftsFrom(b, ls, next).value; Floated(o, f + LiftSet(o, ls), v.1, v.0)
    decreases |ls|
  {
    if ls == [] {
      assert f + LiftSet(o, ls) == f;
    } else {
      var l := ls[0];
      LiftFloats(o, f, next, b, l);
      var v := LiftSpec(b, l, next).value;
      LiftsFloat(o, f + LiftSet(o, [l]), v.1, v.0, ls[1..]);
      LiftSetSplits(o, ls);
      var w := LiftsFrom(b, ls, next).value;
      FloatedJoins(o, f, LiftSet(o, [l]), LiftSet(o, ls[1..]), LiftSet(o, ls), w.1, w.0);
    }
  }

  lemma LiftSetSplits(o: Board, ls: seq<Lift>)
    requires ls != []
    ensures LiftSet(o, ls) == LiftSet(o, [ls[0]]) + LiftSet(o, ls[1..])
  {
    assert ls == [ls[0]] + ls[1..];
    forall t: Terminal | IsTerminal(o, t)
      ensures LiftNames(o, ls, t) <==> LiftNames(o, [ls[0]], t) || LiftNames(o, ls[1..], t)
    {
      forall l ensures l in ls <==> l in [ls[0]] || l in ls[1..] {
      }
    }
  }

  // ---------------------------------------------------------------------------------------------
  // jumper: union by renaming
  // ---------------------------------------------------------------------------------------------

  ghost predicate KnownNets(o: Board, js: seq<Jumper>) {
    forall j :: j in js ==> j.from in o.netNodes && j.to in o.netNodes
  }

  /** The pairs of nodes the jumpers join, read off the board before any of them. */
  function Edges(o: Board, js: seq<Jumper>): (es: seq<Edge>)
    requires forall j :: j in js ==> j.from in o.netNodes && j.to in o.netNodes
    ensures |es| == |js|
    ensures forall i :: 0 <= i < |js| ==> es[i] == (o.netNodes[js[i].from], o.netNodes[js[i].to])
  {
    seq(|js|, i requires 0 <= i < |js| => (o.netNodes[js[i].from], o.netNodes[js[i].to]))
  }

  /** The node an op-amp's rail pin has become: once on ground it is a fixed rail and stays there. */
  function RailRep(es: seq<Edge>, n: Node): Node
    decreases |es|
  {
    if |es| == 0 then n
    else
      var rest, e := es[..|es| - 1], es[|es| - 1];
      RenameRail(Rep(rest, e.1), Rep(rest, e.0), RailRep(rest, n))
  }

  /** `b` is `o` with every node renamed as merging the pairs of `es` renames it. */
  ghost predicate Merged(o: Board, es: seq<Edge>, b: Board) {
    && SameParts(o, b) && |b.devices| == |o.devices|
    && (forall t: Terminal :: IsTerminal(o, t) ==> NodeAt(b, t) == Rep(es, NodeAt(o, t)))
    && (forall x :: x in o.netNodes ==> b.netNodes[x] == Rep(es, o.netNodes[x]))
    && (forall i, r :: 0 <= i < |o.devices| && 0 <= r < |RailPins(o.devices[i])| ==>
          RailPins(b.devices[i])[r] == RailRep(es, RailPins(o.devices[i])[r]))
  }

  lemma MergedStep(o: Board, es: seq<Edge>, b: Board, e: Edge)
    requires Merged(o, es, b)
    ensures Merged(o, es + [e], RenameBoard(b, Rep(es, e.1), Rep(es, e.0)))
  {
    var to, from := Rep(es, e.1), Rep(es, e.0);
    var es', b' := es + [e], RenameBoard(b, to, from);
    assert es'[..|es'| - 1] == es;
    forall i | 0 <= i < |o.devices|
      ensures Terminals(b'.devices[i]) == RenameAll(to, from, Terminals(b.devices[i]))
      ensures |RailPins(b'.devices[i])| == |RailPins(o.devices[i])|
      ensures forall r :: 0 <= r < |RailPins(o.devices[i])| ==>
                RailPins(b'.devices[i])[r] == RenameRail(to, from, RailPins(b.devices[i])[r])
      ensures b'.devices[i].name == o.devices[i].name && (b'.devices[i].Bjt? <==> o.devices[i].Bjt?)
    {
      MapNodesRenamesTerminals(to, from, b.devices[i]);
      MapNodesElsewhere(to, from, b.devices[i]);
    }
    forall t: Terminal | IsTerminal(o, t)
      ensures NodeAt(b', t) == Rep(es', NodeAt(o, t))
    {
      assert NodeAt(b', t) == Rename(to, from, NodeAt(b, t));
    }
  }

  /** None of the pairs from `k` on joins what the pairs before it already joined. */
  ghost predicate NoneRedundant(es: seq<Edge>, k: nat) {
    forall i :: k <= i < |es| ==> !Connected(es[..i], es[i].0, es[i].1)
  }

  lemma {:induction false} JumpersMerge(o: Board, es: seq<Edge>, b: Board, js: seq<Jumper>)
    requires Merged(o, es, b) && KnownNets(o, js)
    ensures JumpersFrom(b, js).Ok? <==> NoneRedundant(es + Edges(o, js), |es|)
    ensures JumpersFrom(b, js).Ok? ==> Merged(o, es + Edges(o, js), JumpersFrom(b, js).value)
    ensures JumpersFrom(b, js).Err? ==> JumpersFrom(b, js).error == JumperSelf
    decreases |js|
  {
    if js == [] {
      assert es + Edges(o, js) == es;
    } else {
      var j, rest, all := js[0], js[1..], es + Edges(o, js);
      assert j in js;
      assert forall k :: k in rest ==> k in js;
      var e := Edges(o, js)[0];
      assert all == es + [e] + Edges(o, rest);
      assert all[..|es|] == es && all[|es|] == e;
      RepIffConnected(es, e.0, e.1);
      if !Connected(es, e.0, e.1) {
        MergedStep(o, es, b, e);
        JumpersMerge(o, es + [e], JumperSpec(b, j).value, rest);
      }
    }
  }

  lemma MergedRefl(o: Board)
    ensures Merged(o, [], o)
  {
  }

  /**
    The jumpers succeed exactly when they all name known nets and their pairs form a forest over the
    starting nodes; then every node was renamed as the merged pairs say.
   */
  lemma {:induction false} JumpersSucceedIffForest(o: Board, js: seq<Jumper>)
    ensures JumpersFrom(o, js).Ok? <==> KnownNets(o, js) && Forest(Edges(o, js))
    ensures JumpersFrom(o, js).Ok? ==> Merged(o, Edges(o, js), JumpersFrom(o, js).value)
  {
    if KnownNets(o, js) {
      KnownJumpers(o, js);
    } else {
      UnknownNetFails(o, o, js);
    }
  }

  lemma NothingBefore(es: seq<Edge>)
    ensures [] + es == es
    ensures NoneRedundant(es, 0) <==> Forest(es)
  {
    ForestIffNeverRedundant(es);
  }

  lemma KnownJumpers(o: Board, js: seq<Jumper>)
    requires KnownNets(o, js)
    ensures JumpersFrom(o, js).Ok? <==> Forest(Edges(o, js))
    ensures JumpersFrom(o, js).Ok? ==> Merged(o, Edges(o, js), JumpersFrom(o, js).value)
  {
    MergedRefl(o);
    JumpersMerge(o, [], o, js);
    NothingBefore(Edges(o, js));
  }

  lemma {:induction false} UnknownNetFails(o: Board, b: Board, js: seq<Jumper>)
    requires b.netNodes.Keys == o.netNodes.Keys && !KnownNets(o, js)
    ensures JumpersFrom(b, js).Err?
    decreases |js|
  {
    if JumperSpec(b, js[0]).Ok? {
      assert js == [js[0]] + js[1..];
      UnknownNetFails(o, JumperSpec(b, js[0]).value, js[1..]);
    }
  }

  /** The same terminals and net names of `o` share a node on `b` and on `c`. */
  ghost predicate SameSharing(o: Board, b: Board, c: Board) {
    && SameParts(o, b) && SameParts(o, c)
    && (forall t: Terminal, u: Terminal :: IsTerminal(o, t) && IsTerminal(o, u) ==>
          (NodeAt(b, t) == NodeAt(b, u) <==> NodeAt(c, t) == NodeAt(c, u)))
    && (forall t: Terminal, x :: IsTerminal(o, t) && x in o.netNodes ==>
          (NodeAt(b, t) == b.netNodes[x] <==> NodeAt(c, t) == c.netNodes[x]))
    && (forall x, y :: x in o.netNodes && y in o.netNodes ==>
          (b.netNodes[x] == b.netNodes[y] <==> c.netNodes[x] == c.netNodes[y]))
  }

  /** Neither the outcome of the jumpers nor what ends up joined depends on the order of the entries. */
  lemma JumperOrderIrrelevant(o: Board, js: seq<Jumper>, ks: seq<Jumper>)
    requires multiset(js) == multiset(ks)
    ensures JumpersFrom(o, js).Ok? <==> JumpersFrom(o, ks).Ok?
    ensures JumpersFrom(o, js).Ok? ==>
      SameSharing(o, JumpersFrom(o, js).value, JumpersFrom(o, ks).value)
  {
    JumpersSucceedIffForest(o, js);
    JumpersSucceedIffForest(o, ks);
    SameMembers(js, ks);
    if KnownNets(o, js) {
      EdgesPermuted(o, js, ks);
      var es, fs := Edges(o, js), Edges(o, ks);
      PermutationInvariant(es, fs);
      forall a: Node, b: Node
        ensures Rep(es, a) == Rep(es, b) <==> Rep(fs, a) == Rep(fs, b)
      {
        RepIffConnected(es, a, b);
        RepIffConnected(fs, a, b);
      }
    }
  }

  lemma {:induction false} EdgesPermuted(o: Board, js: seq<Jumper>, ks: seq<Jumper>)
    requires KnownNets(o, js) && KnownNets(o, ks) && multiset(js) == multiset(ks)
    ensures multiset(Edges(o, js)) == multiset(Edges(o, ks))
    decreases |js|
  {
    if js == [] {
      assert |ks| == |multiset(ks)| == 0;
    } else {
      assert js[0] in multiset(ks);
      var i :| 0 <= i < |ks| && ks[i] == js[0];
      WithoutMultiset(ks, i);
      WithoutMultiset(js, 0);
      EdgesPermuted(o, Without(js, 0), Without(ks, i));
      EdgesWithout(o, js, 0);
      EdgesWithout(o, ks, i);
    }
  }

  lemma EdgesWithout(o: Board, js: seq<Jumper>, i: nat)
    requires KnownNets(o, js) && i < |js|
    ensures KnownNets(o, Without(js, i))
    ensures multiset(Edges(o, js)) == multiset(Edges(o, Without(js, i))) + multiset{Edges(o, js)[i]}
  {
    WithoutMultiset(Edges(o, js), i);
    assert Edges(o, Without(js, i)) == Without(Edges(o, js), i);
  }

  // ---------------------------------------------------------------------------------------------
  // fit and the whole overlay
  // ---------------------------------------------------------------------------------------------

  /** The part a fit solders on, between the nodes its nets stand for on `b`. */
  ghost predicate IsFitted(b: Board, f: Fit, d: Device) {
    && f.from in b.netNodes && f.to in b.netNodes && b.netNodes[f.from] != b.netNodes[f.to]
    && d.name == f.reference
    && Terminals(d) == [b.netNodes[f.from], b.netNodes[f.to]]
    && (f.ohms.Some? ==> f.farads.None? && d.Resistor? && d.ohms == f.ohms.value)
    && (f.farads.Some? ==> f.ohms.None? && d.Capacitor? && d.farads == f.farads.value)
    && (f.ohms.Some? || f.farads.Some?)
  }

  /** `c` is `b` with one part more for each entry, each under a name no earlier device has. */
  ghost predicate FittedOnto(b: Board, fs: seq<Fit>, c: Board) {
    && c == b.(devices := c.devices)
    && |c.devices| == |b.devices| + |fs| && c.devices[..|b.devices|] == b.devices
    && (forall k :: 0 <= k < |fs| ==> IsFitted(b, fs[k], c.devices[|b.devices| + k]))
    && (forall k, i :: 0 <= k < |fs| && 0 <= i < |b.devices| + k ==> c.devices[i].name != fs[k].reference)
  }

  /** Fits only add parts: one per entry, each under a name no earlier device has. */
  lemma {:induction false} FitsAppend(b: Board, fs: seq<Fit>)
    requires FitsFrom(b, fs).Ok?
    ensures FittedOnto(b, fs, FitsFrom(b, fs).value)
    decreases |fs|
  {
    if fs != [] {
      FitAppends(b, fs[0]);
      var b' := FitSpec(b, fs[0]).value;
      FitsAppend(b', fs[1..]);
      FittedOneMore(b, fs, b', FitsFrom(b, fs).value);
    }
  }

  /** One part, then the rest. */
  lemma FittedOneMore(b: Board, fs: seq<Fit>, b': Board, c: Board)
    requires fs != [] && FittedOnto(b, [fs[0]], b') && FittedOnto(b', fs[1..], c)
    ensures FittedOnto(b, fs, c)
  {
    var n := |b.devices|;
    assert c.devices[..n] == c.devices[..n + 1][..n] == b'.devices[..n] == b.devices;
    assert c.devices[n] == c.devices[..n + 1][n] == b'.devices[n];
    assert [fs[0]][0] == fs[0];
    forall k, i | 0 <= k < |fs| && 0 <= i < n + k
      ensures c.devices[i].name != fs[k].reference
    {
      FreshName(b, fs, b', c, k, i);
    }
    forall k | 0 <= k < |fs|
      ensures IsFitted(b, fs[k], c.devices[n + k])
    {
      if k > 0 {
        assert fs[k] == fs[1..][k - 1];
        FittedAlike(b, b', fs[k], c.devices[n + k]);
      } else {
        assert IsFitted(b, [fs[0]][0], b'.devices[n]);
      }
    }
  }

  lemma FreshName(b: Board, fs: seq<Fit>, b': Board, c: Board, k: nat, i: nat)
    requires fs != [] && FittedOnto(b, [fs[0]], b') && FittedOnto(b', fs[1..], c)
    requires k < |fs| && i < |b.devices| + k
    ensures c.devices[i].name != fs[k].reference
  {
    if k == 0 {
      assert c.devices[i] == c.devices[..|b'.devices|][i] == b'.devices[i];
      assert b'.devices[i].name != [fs[0]][0].reference;
    } else {
      assert fs[k] == fs[1..][k - 1];
    }
  }

  lemma FitAppends(b: Board, f: Fit)
    requires FitSpec(b, f).Ok?
    ensures FittedOnto(b, [f], FitSpec(b, f).value)
  {
    assert forall i :: 0 <= i < |b.devices| ==> b.devices[i] in b.devices;
  }

  lemma FittedAlike(b: Board, c: Board, f: Fit, d: Device)
    requires b.netNodes == c.netNodes && IsFitted(c, f, d)
    ensures IsFitted(b, f, d)
  {
  }

  /**
    On `b`, the terminals and net names of `o` share a node exactly as they did on `o` once every
    terminal of `f` was isolated and the pairs of `es` merged.
   */
  ghost predicate Reworked(o: Board, f: set<Terminal>, es: seq<Edge>, b: Board) {
    && SameParts(o, b)
    && (forall t: Terminal, u: Terminal :: IsTerminal(o, t) && IsTerminal(o, u) ==>
          (NodeAt(b, t) == NodeAt(b, u) <==>
           t == u || (t !in f && u !in f && Connected(es, NodeAt(o, t), NodeAt(o, u)))))
    && (forall t: Terminal, x :: IsTerminal(o, t) && x in o.netNodes ==>
          (NodeAt(b, t) == b.netNodes[x] <==> t !in f && Connected(es, NodeAt(o, t), o.netNodes[x])))
    && (forall x, y :: x in o.netNodes && y in o.netNodes ==>
          (b.netNodes[x] == b.netNodes[y] <==> Connected(es, o.netNodes[x], o.netNodes[y])))
    && (forall t: Terminal :: IsTerminal(o, t) ==> (t in f ==> NodeAt(b, t) >= FLOAT_NODE_BASE))
  }

  /** Two nodes of the floated board meet after the merge exactly when neither is a float, or both are the same. */
  lemma MergedPair(o: Board, f: set<Terminal>, js: seq<Jumper>, m: Node, mFloats: bool, n: Node, nFloats: bool)
    requires KnownNets(o, js) && (NodesBelowBase(o) || (!mFloats && !nFloats))
    requires mFloats ==> m >= FLOAT_NODE_BASE
    requires nFloats ==> n >= FLOAT_NODE_BASE
    ensures var es := Edges(o, js);
            Rep(es, m) == Rep(es, n) <==> if mFloats || nFloats then m == n else Connected(es, m, n)
    ensures mFloats ==> Rep(Edges(o, js), m) == m
  {
    var es := Edges(o, js);
    RepIffConnected(es, m, n);
    if mFloats {
      FloatIsolated(o, f, js, m, n);
    } else if nFloats {
      FloatIsolated(o, f, js, n, m);
      ConnectedSymIff(es, m, n);
    }
  }

  lemma FloatedThenMerged(o: Board, f: set<Terminal>, next: Node, b: Board, js: seq<Jumper>, c: Board)
    requires Floated(o, f, next, b) && (f == {} || NodesBelowBase(o))
    requires KnownNets(o, js) && Merged(b, Edges(o, js), c)
    ensures Reworked(o, f, Edges(o, js), c)
  {
    var es := Edges(o, js);
    forall t: Terminal, u: Terminal | IsTerminal(o, t) && IsTerminal(o, u)
      ensures NodeAt(c, t) == NodeAt(c, u) <==>
              t == u || (t !in f && u !in f && Connected(es, NodeAt(o, t), NodeAt(o, u)))
    {
      MergedPair(o, f, js, NodeAt(b, t), t in f, NodeAt(b, u), u in f);
    }
    forall t: Terminal, x | IsTerminal(o, t) && x in o.netNodes
      ensures NodeAt(c, t) == c.netNodes[x] <==> t !in f && Connected(es, NodeAt(o, t), o.netNodes[x])
    {
      MergedPair(o, f, js, NodeAt(b, t), t in f, o.netNodes[x], false);
    }
    forall x, y | x in o.netNodes && y in o.netNodes
      ensures c.netNodes[x] == c.netNodes[y] <==> Connected(es, o.netNodes[x], o.netNodes[y])
    {
      MergedPair(o, f, js, o.netNodes[x], false, o.netNodes[y], false);
    }
    forall t: Terminal | IsTerminal(o, t) && t in f
      ensures NodeAt(c, t) >= FLOAT_NODE_BASE
    {
      MergedPair(o, f, js, NodeAt(b, t), true, NodeAt(b, t), true);
    }
  }

  lemma ConnectedSymIff(es: seq<Edge>, a: Node, b: Node)
    ensures Connected(es, a, b) <==> Connected(es, b, a)
  {
    if Connected(es, a, b) {
      ConnectedSym(es, a, b);
    } else if Connected(es, b, a) {
      ConnectedSym(es, b, a);
    }
  }

  lemma FloatIsolated(o: Board, f: set<Terminal>, js: seq<Jumper>, n: Node, d: Node)
    requires KnownNets(o, js) && NodesBelowBase(o) && n >= FLOAT_NODE_BASE
    ensures Connected(Edges(o, js), n, d) <==> n == d
    ensures Rep(Edges(o, js), n) == n
  {
    var es := Edges(o, js);
    forall e | e in es
      ensures e.0 != n && e.1 != n
    {
      var i :| 0 <= i < |es| && es[i] == e;
      assert js[i] in js;
    }
    ConnectedIsolated(es, n, d);
    RepIsolated(es, n);
  }

  lemma UnusedSpaceIsBelowBase(b: Board)
    requires forall n :: n in UsedNodes(b) ==> n < FLOAT_NODE_BASE
    ensures NodesBelowBase(b)
  {
    forall t: Terminal | IsTerminal(b, t)
      ensures NodeAt(b, t) < FLOAT_NODE_BASE
    {
      assert NodeAt(b, t) in NodesOf(b.devices[t.0]);
      assert NodeAt(b, t) in UsedNodes(b);
    }
    forall x | x in b.netNodes
      ensures b.netNodes[x] < FLOAT_NODE_BASE
    {
      assert b.netNodes[x] in UsedNodes(b);
    }
  }

  lemma FloatSetSameWiring(o: Board, o1: Board, ov: Overlay)
    requires SameWiring(o, o1)
    ensures FloatSet(o, ov) == FloatSet(o1, ov)
  {
    forall t: Terminal
      ensures IsTerminal(o, t) <==> IsTerminal(o1, t)
      ensures IsTerminal(o, t) ==> NodeAt(o, t) == NodeAt(o1, t)
      ensures IsTerminal(o, t) ==> (CutNames(o, ov.cuts, t) <==> CutNames(o1, ov.cuts, t))
      ensures IsTerminal(o, t) ==> (LiftNames(o, ov.lifts, t) <==> LiftNames(o1, ov.lifts, t))
    {
      if IsTerminal(o, t) || IsTerminal(o1, t) {
        assert SameWires(o.devices[t.0], o1.devices[t.0]);
      }
    }
  }

  /** A successful overlay passes through the boards of its stages. */
  lemma Stages(o: Board, ov: Overlay) returns (o1: Board, v2: (Board, Node), v3: (Board, Node), b4: Board)
    requires ApplySpec(o, ov).Ok?
    ensures ReplacesFrom(o, ov.swaps) == Ok(o1) && NodeSpaceFree(o1, ov)
    ensures CutsFrom(o1, ov.cuts, FLOAT_NODE_BASE) == Ok(v2) && LiftsFrom(v2.0, ov.lifts, v2.1) == Ok(v3)
    ensures JumpersFrom(v3.0, ov.jumpers) == Ok(b4) && FitsFrom(b4, ov.fits) == ApplySpec(o, ov)
  {
    o1 := ReplacesFrom(o, ov.swaps).value;
    v2 := CutsFrom(o1, ov.cuts, FLOAT_NODE_BASE).value;
    v3 := LiftsFrom(v2.0, ov.lifts, v2.1).value;
    b4 := JumpersFrom(v3.0, ov.jumpers).value;
  }

  lemma NothingFloats(o: Board)
    ensures Floated(o, {}, FLOAT_NODE_BASE, o)
  {
  }

  lemma CutThenLifted(o: Board, ov: Overlay, v2: (Board, Node), v3: (Board, Node))
    requires NodeSpaceFree(o, ov)
    requires CutsFrom(o, ov.cuts, FLOAT_NODE_BASE) == Ok(v2) && LiftsFrom(v2.0, ov.lifts, v2.1) == Ok(v3)
    ensures Floated(o, FloatSet(o, ov), v3.1, v3.0)
    ensures FloatSet(o, ov) == {} || NodesBelowBase(o)
  {
    if ov.cuts != [] || ov.lifts != [] {
      UnusedSpaceIsBelowBase(o);
    }
    NothingFloats(o);
    CutsFloat(o, {}, FLOAT_NODE_BASE, o, ov.cuts);
    assert {} + CutSet(o, ov.cuts) == CutSet(o, ov.cuts);
    LiftsFloat(o, CutSet(o, ov.cuts), v2.1, v2.0, ov.lifts);
  }

  /** The board just before its fits. */
  lemma BeforeFits(o: Board, ov: Overlay) returns (o1: Board, b3: Board, next: Node, b4: Board)
    requires ApplySpec(o, ov).Ok?
    ensures SameWiring(o, o1) && Floated(o1, FloatSet(o, ov), next, b3)
    ensures FloatSet(o, ov) == {} || NodesBelowBase(o1)
    ensures KnownNets(o, ov.jumpers) && Forest(Edges(o, ov.jumpers)) && Merged(b3, Edges(o, ov.jumpers), b4)
    ensures JumpersFrom(b3, ov.jumpers) == Ok(b4) && FitsFrom(b4, ov.fits) == ApplySpec(o, ov)
  {
    var v2, v3;
    o1, v2, v3, b4 := Stages(o, ov);
    b3, next := v3.0, v3.1;
    ReplacesKeepWiring(o, ov.swaps);
    FloatSetSameWiring(o, o1, ov);
    CutThenLifted(o1, ov, v2, v3);
    JumpersSucceedIffForest(b3, ov.jumpers);
    assert Edges(b3, ov.jumpers) == Edges(o, ov.jumpers);
  }

  /**
    After a successful overlay two terminals share a node exactly when they did on the design with
    every cut or lifted terminal isolated and the jumpered nets merged.
   */
  lemma AppliedConnectivity(o: Board, ov: Overlay)
    requires ApplySpec(o, ov).Ok?
    ensures KnownNets(o, ov.jumpers) && Forest(Edges(o, ov.jumpers))
    ensures Reworked(o, FloatSet(o, ov), Edges(o, ov.jumpers), ApplySpec(o, ov).value)
  {
    var o1, b3, next, b4 := BeforeFits(o, ov);
    var f := FloatSet(o, ov);
    assert Edges(o1, ov.jumpers) == Edges(o, ov.jumpers);
    FloatedThenMerged(o1, f, next, b3, ov.jumpers, b4);
    FitsAppend(b4, ov.fits);
    ReworkedThroughEnds(o, o1, f, Edges(o, ov.jumpers), b4, ApplySpec(o, ov).value);
  }

  /** An applied board's terminals and nets are where merging the jumper pairs puts their nodes, floats apart. */
  lemma AppliedNodes(o: Board, ov: Overlay)
    requires ApplySpec(o, ov).Ok?
    ensures KnownNets(o, ov.jumpers) && SameParts(o, ApplySpec(o, ov).value)
    ensures var c, es := ApplySpec(o, ov).value, Edges(o, ov.jumpers);
            && (forall t: Terminal :: IsTerminal(o, t) && t !in FloatSet(o, ov) ==> NodeAt(c, t) == Rep(es, NodeAt(o, t)))
            && (forall x :: x in o.netNodes ==> c.netNodes[x] == Rep(es, o.netNodes[x]))
  {
    AppliedConnectivity(o, ov);
    var o1, b3, next, b4 := BeforeFits(o, ov);
    FitsAppend(b4, ov.fits);
    var c := ApplySpec(o, ov).value;
    forall t: Terminal | IsTerminal(o, t) && t !in FloatSet(o, ov)
      ensures NodeAt(c, t) == Rep(Edges(o, ov.jumpers), NodeAt(o, t))
    {
      assert SameWires(o.devices[t.0], o1.devices[t.0]);
      assert IsTerminal(o1, t) && IsTerminal(b3, t);
      assert c.devices[t.0] == c.devices[..|b4.devices|][t.0] == b4.devices[t.0];
    }
  }

  lemma ReworkedThroughEnds(o: Board, o1: Board, f: set<Terminal>, es: seq<Edge>, b: Board, c: Board)
    requires SameWiring(o, o1) && Reworked(o1, f, es, b)
    requires |b.devices| <= |c.devices| && c.devices[..|b.devices|] == b.devices && c.netNodes == b.netNodes
    ensures Reworked(o, f, es, c)
  {
    forall i | 0 <= i < |o.devices|
      ensures c.devices[i] == b.devices[i] && SameWires(o.devices[i], o1.devices[i])
    {
      assert c.devices[i] == c.devices[..|b.devices|][i];
    }
    forall t: Terminal
      ensures IsTerminal(o, t) <==> IsTerminal(o1, t)
      ensures IsTerminal(o, t) ==> NodeAt(o, t) == NodeAt(o1, t)
      ensures IsTerminal(o, t) ==> IsTerminal(c, t) && IsTerminal(b, t) && NodeAt(c, t) == NodeAt(b, t)
    {
    }
  }
}
