/** Holding off every undetermined gate leaves none, and what it leaves alone. */
module ControlProofs {
  import opened Wrappers
  import opened Connectivity
  import opened Circuit
  import opened Bound
  import opened ControlInputs

  // ---------------------------------------------------------------------------------------------
  // The two searches agree
  // ---------------------------------------------------------------------------------------------

  lemma {:induction false} EdgesAre(ds: seq<Device>, switches: bool)
    ensures forall e :: e in EdgesOf(ds, switches) <==> exists d :: d in ds && Joins(d, switches) && EndsOf(d) == e
  {
    if ds != [] {
      var rest, last := ds[..|ds| - 1], ds[|ds| - 1];
      EdgesAre(rest, switches);
      assert ds == rest + [last];
      forall e
        ensures e in EdgesOf(ds, switches) <==> exists d :: d in ds && Joins(d, switches) && EndsOf(d) == e
      {
        if e in EdgesOf(rest, switches) {
          var d :| d in rest && Joins(d, switches) && EndsOf(d) == e;
          assert d in ds;
        }
      }
    }
  }

  /** A switch's ends are held, so a floating cluster never reaches one. */
  lemma SwitchesAreHeld(ds: seq<Device>, e: Edge)
    requires e in EdgesOf(ds, true) && e !in EdgesOf(ds, false)
    ensures e.0 in SetOfNodes(ds) && e.1 in SetOfNodes(ds)
  {
    EdgesAre(ds, true);
    EdgesAre(ds, false);
    var d :| d in ds && Joins(d, true) && EndsOf(d) == e;
    assert d.VSwitch?;
    assert Sets(d) == {e.0, e.1};
  }

  /** A node whose level is determined is never found floating by the gate search. */
  lemma DeterminedNeverFloats(ds: seq<Device>, n: Node)
    requires Floating(EdgesOf(ds, false), SetOfNodes(ds), n)
    ensures Floating(EdgesOf(ds, true), HoldingNodes(ds), n)
  {
    var es, fs := EdgesOf(ds, false), EdgesOf(ds, true);
    forall e | e in fs && (Connected(es, n, e.0) || Connected(es, n, e.1))
      ensures e in es
    {
      if e !in es {
        SwitchesAreHeld(ds, e);
      }
    }
    AwayFromComponent(es, fs, n);
    forall m | m in HoldingNodes(ds)
      ensures m in SetOfNodes(ds)
    {
      var d :| d in ds && m in Holding(d);
      assert m in Sets(d);
    }
  }

  // ---------------------------------------------------------------------------------------------
  // What holding adds
  // ---------------------------------------------------------------------------------------------

  /** Every gate of the list names a transistor of the circuit. */
  predicate AllFets(ds: seq<Device>, gates: seq<UndeterminedGate>) {
    forall gate :: gate in gates ==> gate.device < |ds| && ds[gate.device].Mosfet?
  }

  function HoldsOf(ds: seq<Device>, gates: seq<UndeterminedGate>): (r: seq<Device>)
    requires AllFets(ds, gates)
    ensures |r| == |gates|
    ensures forall k :: 0 <= k < |gates| ==> r[k] == HoldResistor(gates[k].reference, ds[gates[k].device])
  {
    seq(|gates|, k requires 0 <= k < |gates| => assert gates[k] in gates; HoldResistor(gates[k].reference, ds[gates[k].device]))
  }

  lemma HoldsOfCons(ds: seq<Device>, gates: seq<UndeterminedGate>)
    requires AllFets(ds, gates) && gates != []
    ensures AllFets(ds, gates[1..]) && gates[0] in gates
    ensures HoldsOf(ds, gates) == [HoldResistor(gates[0].reference, ds[gates[0].device])] + HoldsOf(ds, gates[1..])
  {
    RestAreFets(ds, gates);
    HoldsOfSplit(ds, gates);
  }

  lemma RestAreFets(ds: seq<Device>, gates: seq<UndeterminedGate>)
    requires AllFets(ds, gates) && gates != []
    ensures AllFets(ds, gates[1..]) && gates[0] in gates
  {
    assert forall x :: x in gates[1..] ==> x in gates;
  }

  lemma HoldsOfSplit(ds: seq<Device>, gates: seq<UndeterminedGate>)
    requires gates != [] && AllFets(ds, gates) && AllFets(ds, gates[1..])
    ensures HoldsOf(ds, gates) == [HoldResistor(gates[0].reference, ds[gates[0].device])] + HoldsOf(ds, gates[1..])
  {
    var all, rest := HoldsOf(ds, gates), HoldsOf(ds, gates[1..]);
    assert |all| == |rest| + 1;
    forall i | 0 < i < |all|
      ensures all[i] == rest[i - 1]
    {
    }
  }

  lemma Reassociate<T>(a: seq<T>, b: seq<T>, x: T, c: seq<T>)
    ensures a + b + [x] == a + (b + [x])
    ensures a + (b + [x]) + c == a + b + ([x] + c)
  {
  }

  /** Exactly one hold resistor per gate, after the devices that were there. */
  lemma {:induction false} HoldAdds(ds: seq<Device>, more: seq<Device>, metas: seq<DeviceMeta>, gates: seq<UndeterminedGate>)
    requires AllFets(ds, gates)
    ensures HoldSpec(ds + more, metas, gates).0 == ds + more + HoldsOf(ds, gates)
    decreases |gates|
  {
    if gates != [] {
      HoldsOfCons(ds, gates);
      var gate := gates[0];
      assert (ds + more)[gate.device] == ds[gate.device];
      var hold := HoldResistor(gate.reference, ds[gate.device]);
      Reassociate(ds, more, hold, HoldsOf(ds, gates[1..]));
      HoldAdds(ds, more + [hold], DropMeta(metas, gate.reference), gates[1..]);
    }
  }

  lemma {:induction false} DropMetaIs(metas: seq<DeviceMeta>, reference: string)
    ensures forall m :: m in DropMeta(metas, reference) <==> m in metas && m.reference != reference
  {
    if metas != [] {
      DropMetaIs(metas[1..], reference);
      assert forall m :: m in metas <==> m == metas[0] || m in metas[1..];
    }
  }

  /** Ratings are dropped for the held parts and for no other. */
  lemma {:induction false} HeldPartsUnrated(ds: seq<Device>, more: seq<Device>, metas: seq<DeviceMeta>, gates: seq<UndeterminedGate>)
    requires AllFets(ds, gates)
    ensures forall m :: m in HoldSpec(ds + more, metas, gates).1 <==>
                        m in metas && forall gate :: gate in gates ==> gate.reference != m.reference
    decreases |gates|
  {
    if gates != [] {
      var gate := gates[0];
      assert gate in gates && (ds + more)[gate.device] == ds[gate.device];
      DropMetaIs(metas, gate.reference);
      forall x | x in gates[1..]
        ensures x in gates
      {
      }
      var hold := HoldResistor(gate.reference, ds[gate.device]);
      assert ds + more + [hold] == ds + (more + [hold]);
      HeldPartsUnrated(ds, more + [hold], DropMeta(metas, gate.reference), gates[1..]);
      assert forall x :: x in gates <==> x == gate || x in gates[1..];
    }
  }

  lemma ResistorsSetNothing(ds: seq<Device>, holds: seq<Device>)
    requires forall d :: d in holds ==> d.Resistor?
    ensures SetOfNodes(ds + holds) == SetOfNodes(ds)
  {
    SetOfNodesAppend(ds, holds);
    assert SetOfNodes(holds) == {};
  }

  // ---------------------------------------------------------------------------------------------
  // What the search finds
  // ---------------------------------------------------------------------------------------------

  lemma {:induction false} GatesAre(b: Board, k: nat)
    requires k <= |b.devices|
    ensures forall gate :: gate in GatesUpTo(b, k) <==> exists i :: 0 <= i < k && GateAt(b, i) == Some(gate)
  {
    forall gate | gate in GatesUpTo(b, k)
      ensures exists i :: 0 <= i < k && GateAt(b, i) == Some(gate)
    {
      var i := GateComesFrom(b, k, gate);
    }
    forall gate, i | 0 <= i < k && GateAt(b, i) == Some(gate)
      ensures gate in GatesUpTo(b, k)
    {
      GateIsListed(b, k, i);
    }
  }

  /** Where an element of a growing list was added. */
  lemma {:induction false} AddedAt(at: seq<Option<UndeterminedGate>>, lists: seq<seq<UndeterminedGate>>, k: nat, gate: UndeterminedGate)
    returns (i: nat)
    requires |lists| == |at| + 1 && k <= |at| && lists[0] == [] && gate in lists[k]
    requires forall j :: 0 <= j < |at| ==> lists[j + 1] == lists[j] + if at[j].Some? then [at[j].value] else []
    ensures i < k && at[i] == Some(gate)
  {
    i := k - 1;
    if gate in lists[k - 1] {
      i := AddedAt(at, lists, k - 1, gate);
    }
  }

  lemma GatesGrow(b: Board, k: nat)
    requires k < |b.devices|
    ensures GatesUpTo(b, k + 1) == GatesUpTo(b, k) + if GateAt(b, k).Some? then [GateAt(b, k).value] else []
  {
  }

  /** What was added to a growing list stays there. */
  lemma {:induction false} StaysListed(at: seq<Option<UndeterminedGate>>, lists: seq<seq<UndeterminedGate>>, i: nat, k: nat)
    requires |lists| == |at| + 1 && i < k <= |at| && at[i].Some?
    requires forall j :: 0 <= j < |at| ==> lists[j + 1] == lists[j] + if at[j].Some? then [at[j].value] else []
    ensures at[i].value in lists[k]
    decreases k
  {
    if i < k - 1 {
      StaysListed(at, lists, i, k - 1);
    }
    assert lists[k - 1 + 1] == lists[k - 1] + if at[k - 1].Some? then [at[k - 1].value] else [];
  }

  lemma GateLists(b: Board, k: nat) returns (at: seq<Option<UndeterminedGate>>, lists: seq<seq<UndeterminedGate>>)
    requires k <= |b.devices|
    ensures |at| == k && |lists| == k + 1
    ensures forall j :: 0 <= j < k ==> at[j] == GateAt(b, j)
    ensures forall j :: 0 <= j <= k ==> lists[j] == GatesUpTo(b, j)
    ensures forall j :: 0 <= j < k ==> lists[j + 1] == lists[j] + if at[j].Some? then [at[j].value] else []
  {
    at := seq(k, j requires 0 <= j < k => GateAt(b, j));
    lists := seq(k + 1, j requires 0 <= j < k + 1 => GatesUpTo(b, j));
    forall j | 0 <= j < k
      ensures lists[j + 1] == lists[j] + if at[j].Some? then [at[j].value] else []
    {
      GatesGrow(b, j);
    }
  }

  lemma GateComesFrom(b: Board, k: nat, gate: UndeterminedGate) returns (i: nat)
    requires k <= |b.devices| && gate in GatesUpTo(b, k)
    ensures i < k && GateAt(b, i) == Some(gate)
  {
    var at, lists := GateLists(b, k);
    i := AddedAt(at, lists, k, gate);
  }

  lemma GateIsListed(b: Board, k: nat, i: nat)
    requires i < k <= |b.devices| && GateAt(b, i).Some?
    ensures GateAt(b, i).value in GatesUpTo(b, k)
  {
    var at, lists := GateLists(b, k);
    StaysListed(at, lists, i, k);
  }

  /** Ids fit, so what was found names its own transistor. */
  lemma FoundGatesAreFets(b: Board)
    requires |b.devices| <= U32_MAX + 1
    ensures AllFets(b.devices, GatesOf(b))
  {
    GatesAre(b, |b.devices|);
  }

  /** A held gate's source is set, and its resistor joins the gate to it. */
  lemma HoldsReachSet(b: Board, hold: Device)
    requires |b.devices| <= U32_MAX + 1 && AllFets(b.devices, GatesOf(b)) && hold in HoldsOf(b.devices, GatesOf(b))
    ensures hold.Resistor? && hold.b in SetOfNodes(b.devices)
  {
    var gates := GatesOf(b);
    var k :| 0 <= k < |gates| && hold == HoldResistor(gates[k].reference, b.devices[gates[k].device]);
    assert gates[k] in gates;
    var d := b.devices[gates[k].device];
    assert d.s in Sets(d);
  }

  /** What floats after holding floated before, on the same cluster, and no hold resistor is on it. */
  lemma StillFloating(ds: seq<Device>, holds: seq<Device>, n: Node)
    requires forall h :: h in holds ==> h.Resistor? && h.b in SetOfNodes(ds)
    requires Floating(EdgesOf(ds + holds, false), SetOfNodes(ds + holds), n)
    ensures Floating(EdgesOf(ds, false), SetOfNodes(ds), n)
    ensures forall m: Node :: Connected(EdgesOf(ds + holds, false), n, m) <==> Connected(EdgesOf(ds, false), n, m)
    ensures forall h :: h in holds ==> !Connected(EdgesOf(ds, false), n, h.a) && !Connected(EdgesOf(ds, false), n, h.b)
  {
    var es, fs := EdgesOf(ds, false), EdgesOf(ds + holds, false);
    ResistorsSetNothing(ds, holds);
    EdgesAre(ds, false);
    EdgesAre(ds + holds, false);
    forall e | e in es
      ensures e in fs
    {
      var d :| d in ds && Joins(d, false) && EndsOf(d) == e;
      assert d in ds + holds;
    }
    JoiningKeepsDetermined(es, fs, SetOfNodes(ds), SetOfNodes(ds + holds), n);
    forall m: Node | Connected(es, n, m)
      ensures Connected(fs, n, m)
    {
      ConnectedMonotone(es, fs, n, m);
    }
    forall h | h in holds
      ensures !Connected(fs, n, h.a) && !Connected(fs, n, h.b)
    {
      assert h in ds + holds && EndsOf(h) == (h.a, h.b);
      ConnectedIsEquivalence(fs);
    }
    forall e | e in fs && (Connected(es, n, e.0) || Connected(es, n, e.1))
      ensures e in es
    {
      var d :| d in ds + holds && Joins(d, false) && EndsOf(d) == e;
      assert d in ds;
    }
    AwayFromComponent(es, fs, n);
  }

  lemma SameCluster(es: seq<Edge>, fs: seq<Edge>, n: Node)
    requires forall m: Node :: Connected(fs, n, m) <==> Connected(es, n, m)
    ensures ClusterOf(fs, n) == ClusterOf(es, n)
  {
    forall m: Node
      ensures m in ClusterOf(fs, n) <==> m in ClusterOf(es, n)
    {
      ClusterHoldsComponent(es, n, m);
      ClusterHoldsComponent(fs, n, m);
    }
  }

  /** Devices off the cluster do not change which pins drive it. */
  lemma {:induction false} DrivingPinsIgnore(ps: seq<PartPin>, ds: seq<Device>, more: seq<Device>, cluster: set<Node>)
    requires forall d :: d in more ==> !Touches(d, cluster)
    ensures DrivingPins(ps, ds + more, cluster) == DrivingPins(ps, ds, cluster)
  {
    if ps != [] {
      DrivingPinsIgnore(ps[1..], ds, more, cluster);
      assert StampedThere(ds + more, cluster, ps[0].reference) <==> StampedThere(ds, cluster, ps[0].reference);
    }
  }

  lemma HoldsAreOff(es: seq<Edge>, holds: seq<Device>, n: Node)
    requires forall h :: h in holds ==> h.Resistor? && !Connected(es, n, h.a) && !Connected(es, n, h.b)
    ensures forall h :: h in holds ==> !Touches(h, ClusterOf(es, n))
  {
    forall h | h in holds
      ensures !Touches(h, ClusterOf(es, n))
    {
      ClusterHoldsComponent(es, n, h.a);
      ClusterHoldsComponent(es, n, h.b);
      assert NodesOf(h) == {h.a, h.b};
    }
  }

  /** A transistor found before holding is not floating after. */
  lemma HeldGateIsSet(b: Board, i: nat, holds: seq<Device>)
    requires |b.devices| <= U32_MAX + 1 && i < |b.devices| && GateAt(b, i).Some?
    requires AllFets(b.devices, GatesOf(b)) && holds == HoldsOf(b.devices, GatesOf(b))
    ensures exists h :: h in holds && h.a == b.devices[i].g
  {
    GatesAre(b, |b.devices|);
    var gate := GateAt(b, i).value;
    assert gate in GatesOf(b);
    var k :| 0 <= k < |GatesOf(b)| && GatesOf(b)[k] == gate;
    assert holds[k] in holds && holds[k] == HoldResistor(gate.reference, b.devices[i]);
  }

  /** Each transistor of the board, found or skipped before, is not found after. */
  lemma NotFoundAgain(b: Board, b': Board, i: nat, holds: seq<Device>)
    requires |b.devices| <= U32_MAX + 1 && i < |b.devices|
    requires AllFets(b.devices, GatesOf(b)) && holds == HoldsOf(b.devices, GatesOf(b))
    requires b'.devices == b.devices + holds && b'.partPins == b.partPins
    ensures GateAt(b', i).None?
  {
    var d, es, fs := b.devices[i], EdgesOf(b.devices, false), EdgesOf(b'.devices, false);
    assert b'.devices[i] == d;
    if d.Mosfet? && Floating(fs, SetOfNodes(b'.devices), d.g) {
      forall h | h in holds
        ensures h.Resistor? && h.b in SetOfNodes(b.devices)
      {
        HoldsReachSet(b, h);
      }
      StillFloating(b.devices, holds, d.g);
      if GateAt(b, i).Some? {
        HeldGateIsSet(b, i, holds);
        ConnectedIsEquivalence(es);
        assert false;
      }
      SameCluster(es, fs, d.g);
      HoldsAreOff(es, holds, d.g);
      DrivingPinsIgnore(b.partPins, b.devices, holds, ClusterOf(es, d.g));
    }
  }

  lemma {:induction false} NoneUpTo(b: Board, k: nat)
    requires k <= |b.devices| && forall i :: 0 <= i < k ==> GateAt(b, i).None?
    ensures GatesUpTo(b, k) == []
  {
    if k > 0 {
      NoneUpTo(b, k - 1);
    }
  }

  /**
    Holding off every gate found leaves none to find: not the held ones, not one that shared a
    cluster with them, and not one that was skipped because no pin could drive it.
   */
  lemma HoldingLeavesNone(b: Board)
    requires |b.devices| <= U32_MAX + 1
    ensures GatesOf(Held(b, GatesOf(b))) == []
  {
    FoundGatesAreFets(b);
    var gates, b' := GatesOf(b), Held(b, GatesOf(b));
    var holds := HoldsOf(b.devices, gates);
    assert b.devices + [] == b.devices;
    HoldAdds(b.devices, [], b.deviceMeta, gates);
    assert b'.devices == b.devices + holds;
    forall i | 0 <= i < |b'.devices|
      ensures GateAt(b', i).None?
    {
      NoneFoundAt(b, b', i, holds);
    }
    NoneUpTo(b', |b'.devices|);
  }

  lemma NoneFoundAt(b: Board, b': Board, i: nat, holds: seq<Device>)
    requires |b.devices| <= U32_MAX + 1 && i < |b'.devices|
    requires AllFets(b.devices, GatesOf(b)) && holds == HoldsOf(b.devices, GatesOf(b))
    requires b'.devices == b.devices + holds && b'.partPins == b.partPins
    ensures GateAt(b', i).None?
  {
    if i < |b.devices| {
      NotFoundAgain(b, b', i, holds);
    } else {
      assert b'.devices[i] == holds[i - |b.devices|];
    }
  }

  /** The held board: its old devices first, one resistor a gate, and ratings dropped for held parts only. */
  lemma HoldingTouchesNothingElse(b: Board)
    requires |b.devices| <= U32_MAX + 1
    ensures var b' := Held(b, GatesOf(b));
            && |b'.devices| == |b.devices| + |GatesOf(b)| && b.devices <= b'.devices
            && (forall i :: |b.devices| <= i < |b'.devices| ==> b'.devices[i].Resistor? && b'.devices[i].ohms == HOLD_OHMS)
            && (forall m :: m in b'.deviceMeta <==>
                  m in b.deviceMeta && forall gate :: gate in GatesOf(b) ==> gate.reference != m.reference)
            && (forall n: Node :: !Floating(EdgesOf(b.devices, false), SetOfNodes(b.devices), n) ==>
                  !Floating(EdgesOf(b'.devices, false), SetOfNodes(b'.devices), n))
  {
    FoundGatesAreFets(b);
    var holds, b' := HoldsOf(b.devices, GatesOf(b)), Held(b, GatesOf(b));
    assert b.devices + [] == b.devices;
    HoldAdds(b.devices, [], b.deviceMeta, GatesOf(b));
    HeldPartsUnrated(b.devices, [], b.deviceMeta, GatesOf(b));
    forall h | h in holds
      ensures h.Resistor? && h.b in SetOfNodes(b.devices)
    {
      HoldsReachSet(b, h);
    }
    forall n: Node | Floating(EdgesOf(b'.devices, false), SetOfNodes(b'.devices), n)
      ensures Floating(EdgesOf(b.devices, false), SetOfNodes(b.devices), n)
    {
      StillFloating(b.devices, holds, n);
    }
  }

  /** Each gate found got a resistor of its own, a thousand ohms between that gate and its transistor's source. */
  ghost predicate HeldToSource(b: Board, b': Board, k: nat)
    requires k < |GatesOf(b)| && |b'.devices| == |b.devices| + |GatesOf(b)|
  {
    var gate, hold := GatesOf(b)[k], b'.devices[|b.devices| + k];
    && gate.device < |b.devices| && b.devices[gate.device].Mosfet?
    && hold.Resistor? && hold.ohms == 1000.0 && hold.name == gate.reference + ":gate-hold"
    && hold.a == b.devices[gate.device].g && hold.b == b.devices[gate.device].s
    && Connected(EdgesOf(b'.devices, false), b.devices[gate.device].g, b.devices[gate.device].s)
  }

  /** On the held board every gate found is joined to its own transistor's source, which holds it off. */
  lemma GatesAreHeldToSource(b: Board)
    requires |b.devices| <= U32_MAX + 1
    ensures |Held(b, GatesOf(b)).devices| == |b.devices| + |GatesOf(b)|
    ensures forall k :: 0 <= k < |GatesOf(b)| ==> HeldToSource(b, Held(b, GatesOf(b)), k)
  {
    FoundGatesAreFets(b);
    var gates, b' := GatesOf(b), Held(b, GatesOf(b));
    var holds := HoldsOf(b.devices, gates);
    assert b.devices + [] == b.devices;
    HoldAdds(b.devices, [], b.deviceMeta, gates);
    forall k | 0 <= k < |gates|
      ensures HeldToSource(b, b', k)
    {
      assert gates[k] in gates && b'.devices[|b.devices| + k] == holds[k];
      HoldJoins(b'.devices, |b.devices| + k);
    }
  }

  /** A resistor joins its ends. */
  lemma HoldJoins(ds: seq<Device>, i: nat)
    requires i < |ds| && ds[i].Resistor?
    ensures Connected(EdgesOf(ds, false), ds[i].a, ds[i].b)
  {
    EdgesAre(ds, false);
    ConnectedIsEquivalence(EdgesOf(ds, false));
    assert ds[i] in ds && EndsOf(ds[i]) == (ds[i].a, ds[i].b);
  }

  // ---------------------------------------------------------------------------------------------
  // What makes a gate undetermined, read off the netlist
  // ---------------------------------------------------------------------------------------------

  /** Whether the terminal at that place only senses its node, or passes no direct current. */
  predicate Senses(d: Device, k: nat) {
    || d.Capacitor?
    || (d.Mosfet? && k == 1)
    || ((d.OpAmp? || d.Comparator?) && (k == 1 || k == 2))
    || ((d.VSwitch? || d.Vcvs? || d.Vccs? || d.Behavioral?) && k >= 2)
  }

  /** The device holds the node or lets direct current through it. */
  ghost predicate Loads(d: Device, n: Node) {
    || (exists k: nat :: k < |Terminals(d)| && Terminals(d)[k] == n && !Senses(d, k))
    || (d.OpAmp? && (n == d.railLo || n == d.railHi))
  }

  lemma LoadsIff(d: Device, n: Node)
    ensures n in DcTerminals(d) <==> Loads(d, n)
  {
    var ts := Terminals(d);
    if d.OpAmp? {
      SupplyRun([d.out, d.inp, d.inn], d.reference, d.supply.hi, d.supply.lo, n);
      assert forall k: nat :: Senses(d, k) <==> k == 1 || k == 2;
    } else if d.Comparator? {
      ComparatorLoads(d, n);
    } else if d.Mosfet? {
      assert ts[0] == d.d && ts[1] == d.g && ts[2] == d.s && (d.bulk.Some? ==> ts[3] == d.bulk.value);
    } else if d.Behavioral? {
      assert ts[0] == d.p && ts[1] == d.n;
    } else if d.VSwitch? {
      assert ts[0] == d.a && ts[1] == d.b;
    } else if d.Vcvs? || d.Vccs? {
      assert ts[0] == d.p && ts[1] == d.n;
    } else if !d.Capacitor? {
      assert n in ts <==> exists k: nat :: k < |ts| && ts[k] == n && !Senses(d, k);
    }
  }

  lemma SupplyRun(pins: seq<Node>, r: Option<Node>, h: Option<Node>, l: Option<Node>, n: Node)
    requires |pins| == 3
    ensures var ts := pins + Listed(r) + Listed(h) + Listed(l);
            (exists k: nat :: k < |ts| && ts[k] == n && !(k == 1 || k == 2)) <==>
            n == pins[0] || n in Listing(r) + Listing(h) + Listing(l)
  {
    var ts := pins + Listed(r) + Listed(h) + Listed(l);
    var rest := Listed(r) + Listed(h) + Listed(l);
    assert ts == pins + rest && ts[0] == pins[0];
    assert n in rest <==> n in Listing(r) + Listing(h) + Listing(l);
    forall k: nat | 3 <= k < |ts|
      ensures ts[k] in rest
    {
      assert ts[k] == rest[k - 3];
    }
    if n in rest {
      var j: nat :| j < |rest| && rest[j] == n;
      assert ts[j + 3] == n;
    }
  }

  lemma ComparatorLoads(d: Device, n: Node)
    requires d.Comparator?
    ensures n in DcTerminals(d) <==> Loads(d, n)
  {
    var pins := [d.out, d.inp, d.inn];
    SupplyRun(pins, None, d.supply.hi, d.supply.lo, n);
    assert pins + Listed(None) == pins;
    assert forall k: nat :: Senses(d, k) <==> k == 1 || k == 2;
    assert Terminals(d) == pins + Listed(None) + Listed(d.supply.hi) + Listed(d.supply.lo);
  }

  /** Two nodes with a resistor or an inductor between them. */
  ghost predicate Wired(ds: seq<Device>, x: Node, y: Node) {
    exists d :: d in ds && ((d.Resistor? && d.a == x && d.b == y) || (d.Inductor? && d.a == x && d.b == y))
  }

  lemma WiredIff(ds: seq<Device>, x: Node, y: Node)
    ensures (x, y) in EdgesOf(ds, false) <==> Wired(ds, x, y)
  {
    EdgesAre(ds, false);
    if Wired(ds, x, y) {
      var d :| d in ds && ((d.Resistor? && d.a == x && d.b == y) || (d.Inductor? && d.a == x && d.b == y));
      assert Joins(d, false) && EndsOf(d) == (x, y);
    }
  }

  /** Some device other than a resistor or an inductor loads the node, or it is ground. */
  ghost predicate SetBy(ds: seq<Device>, n: Node) {
    n == 0 || exists d :: d in ds && !d.Resistor? && !d.Inductor? && Loads(d, n)
  }

  lemma SetByIff(ds: seq<Device>, n: Node)
    ensures n == GROUND || n in SetOfNodes(ds) <==> SetBy(ds, n)
  {
    if n in SetOfNodes(ds) {
      var d :| d in ds && n in Sets(d);
      LoadsIff(d, n);
    }
    if d :| d in ds && !d.Resistor? && !d.Inductor? && Loads(d, n) {
      LoadsIff(d, n);
      assert n in Sets(d);
    }
  }

  /** A device on the wired cluster carries the part's name, alone or before a separator. */
  ghost predicate PartStamped(b: Board, gate: Node, reference: string) {
    exists d, n :: d in b.devices && n in NodesOf(d) && Connected(EdgesOf(b.devices, false), gate, n)
                   && (d.name == reference
                       || exists sep, rest: string :: sep in ":._#" && d.name == reference + [sep] + rest)
  }

  /** The pin is on the gate's cluster, can drive it, and its part has no device there. */
  ghost predicate Drives(b: Board, gate: Node, p: PartPin) {
    p in b.partPins && p.canDrive && Connected(EdgesOf(b.devices, false), gate, p.node) && !PartStamped(b, gate, p.reference)
  }

  lemma OfPartIff(name: string, reference: string)
    ensures OfPart(name, reference) <==>
            name == reference || exists sep, rest: string :: sep in ":._#" && name == reference + [sep] + rest
  {
    if OfPart(name, reference) && |name| > |reference| {
      var sep, rest := name[|reference|], name[|reference| + 1..];
      assert name == reference + [sep] + rest && sep in ":._#";
    }
    if sep, rest: string :| sep in ":._#" && name == reference + [sep] + rest {
      assert name[..|reference|] == reference && name[|reference|] == sep;
    }
  }

  /** The part the first matching metadata entry gives a device; its own name when none does. */
  ghost predicate KnownAs(metas: seq<DeviceMeta>, device: nat, name: string, reference: string) {
    || (exists k :: 0 <= k < |metas| && metas[k].device == device && metas[k].reference == reference
                    && forall j :: 0 <= j < k ==> metas[j].device != device)
    || (reference == name && forall k :: 0 <= k < |metas| ==> metas[k].device != device)
  }

  lemma {:induction false} ReferenceIsKnown(metas: seq<DeviceMeta>, device: nat, name: string)
    ensures KnownAs(metas, device, name, ReferenceOf(metas, device, name))
  {
    if metas != [] && metas[0].device != device {
      ReferenceIsKnown(metas[1..], device, name);
      if k :| 0 <= k < |metas[1..]| && metas[1..][k].device == device && metas[1..][k].reference == ReferenceOf(metas, device, name)
              && forall j :: 0 <= j < k ==> metas[1..][j].device != device {
        assert metas[k + 1] == metas[1..][k];
        assert forall j :: 0 < j < k + 1 ==> metas[j] == metas[1..][j - 1];
      } else {
        assert forall k :: 0 < k < |metas| ==> metas[k] == metas[1..][k - 1];
      }
    }
  }

  lemma StampedIff(b: Board, gate: Node, reference: string)
    ensures StampedThere(b.devices, ClusterOf(EdgesOf(b.devices, false), gate), reference) <==> PartStamped(b, gate, reference)
  {
    var es := EdgesOf(b.devices, false);
    var cluster := ClusterOf(es, gate);
    if StampedThere(b.devices, cluster, reference) {
      var d :| d in b.devices && Touches(d, cluster) && OfPart(d.name, reference);
      var n :| n in NodesOf(d) * cluster;
      ClusterHoldsComponent(es, gate, n);
      OfPartIff(d.name, reference);
    }
    if PartStamped(b, gate, reference) {
      var d, n :| d in b.devices && n in NodesOf(d) && Connected(es, gate, n)
                  && (d.name == reference || exists sep, rest: string :: sep in ":._#" && d.name == reference + [sep] + rest);
      ClusterHoldsComponent(es, gate, n);
      OfPartIff(d.name, reference);
      assert n in NodesOf(d) * cluster;
    }
  }

  /** The pins found are the listed ones that drive, each as often as it is listed. */
  lemma {:induction false} DrivingPinsAre(b: Board, gate: Node, ps: seq<PartPin>)
    requires forall p :: p in ps ==> p in b.partPins
    ensures var pins := DrivingPins(ps, b.devices, ClusterOf(EdgesOf(b.devices, false), gate));
            forall p :: multiset(pins)[p] == if Drives(b, gate, p) then multiset(ps)[p] else 0
  {
    if ps != [] {
      DrivingPinsAre(b, gate, ps[1..]);
      assert ps == [ps[0]] + ps[1..];
      StampedIff(b, gate, ps[0].reference);
      ClusterHoldsComponent(EdgesOf(b.devices, false), gate, ps[0].node);
      assert ps[0] in b.partPins;
    }
  }

  /**
    A transistor's gate is found exactly when nothing wired to it is ground or loaded, and some pin there
    could drive it; what is found names the transistor, its part and those pins.
   */
  lemma GateFoundIff(b: Board, i: nat)
    requires i < |b.devices| <= U32_MAX + 1
    ensures var d, es := b.devices[i], EdgesOf(b.devices, false);
            && (GateAt(b, i).Some? <==>
                  && d.Mosfet? && (forall n: Node :: Connected(es, d.g, n) ==> !SetBy(b.devices, n))
                  && exists p :: Drives(b, d.g, p))
            && (GateAt(b, i).Some? ==>
                  var gate := GateAt(b, i).value;
                  && gate.device == i && KnownAs(b.deviceMeta, i, d.name, gate.reference)
                  && forall p :: multiset(gate.pins)[p] == if Drives(b, d.g, p) then multiset(b.partPins)[p] else 0)
  {
    var d := b.devices[i];
    if d.Mosfet? {
      FloatingIff(b, d.g);
      DrivenIff(b, d.g);
      DrivingPinsAre(b, d.g, b.partPins);
      ReferenceIsKnown(b.deviceMeta, i, d.name);
    }
  }

  lemma FloatingIff(b: Board, gate: Node)
    ensures Floating(EdgesOf(b.devices, false), SetOfNodes(b.devices), gate) <==>
            forall n: Node :: Connected(EdgesOf(b.devices, false), gate, n) ==> !SetBy(b.devices, n)
  {
    var es := EdgesOf(b.devices, false);
    if Floating(es, SetOfNodes(b.devices), gate) {
      forall n: Node | Connected(es, gate, n)
        ensures !SetBy(b.devices, n)
      {
        SetByIff(b.devices, n);
      }
    } else {
      var n: Node :| Connected(es, gate, n) && (n == GROUND || n in SetOfNodes(b.devices));
      SetByIff(b.devices, n);
    }
  }

  lemma DrivenIff(b: Board, gate: Node)
    ensures DrivingPins(b.partPins, b.devices, ClusterOf(EdgesOf(b.devices, false), gate)) != [] <==> exists p :: Drives(b, gate, p)
  {
    var pins := DrivingPins(b.partPins, b.devices, ClusterOf(EdgesOf(b.devices, false), gate));
    DrivingPinsAre(b, gate, b.partPins);
    if pins != [] {
      assert pins[0] in multiset(pins);
      assert Drives(b, gate, pins[0]);
    }
    if p :| Drives(b, gate, p) {
      assert p in multiset(b.partPins);
      assert p in multiset(pins);
    }
  }

  /** Every gate found once, in device order. */
  lemma {:induction false} GatesAscend(b: Board, k: nat)
    requires k <= |b.devices| <= U32_MAX + 1
    ensures forall i, j :: 0 <= i < j < |GatesUpTo(b, k)| ==> GatesUpTo(b, k)[i].device < GatesUpTo(b, k)[j].device
    ensures forall gate :: gate in GatesUpTo(b, k) ==> gate.device < k && GateAt(b, gate.device) == Some(gate)
  {
    if k > 0 {
      GatesAscend(b, k - 1);
      GatesGrow(b, k - 1);
      var gates := GatesUpTo(b, k - 1);
      forall i | 0 <= i < |gates|
        ensures gates[i].device < k - 1
      {
        assert gates[i] in gates;
      }
    }
  }

  // ---------------------------------------------------------------------------------------------
  // What makes a level determined
  // ---------------------------------------------------------------------------------------------

  /** The terminal at that place is held at a level by its own device. */
  predicate HoldsAt(d: Device, k: nat) {
    || (k < 2 && (d.Vsource? || d.Vcvs? || (d.Behavioral? && d.voltage)))
    || (k == 0 && (d.OpAmp? || d.Comparator?))
  }

  ghost predicate HeldBy(ds: seq<Device>, n: Node) {
    n == 0 || exists d, k: nat :: d in ds && k < |Terminals(d)| && HoldsAt(d, k) && Terminals(d)[k] == n
  }

  lemma HoldingIff(d: Device, n: Node)
    ensures n in Holding(d) <==> exists k: nat :: k < |Terminals(d)| && HoldsAt(d, k) && Terminals(d)[k] == n
  {
    var ts := Terminals(d);
    if d.Vsource? || d.Vcvs? || d.Behavioral? {
      assert ts[0] == d.p && ts[1] == d.n && (d.Vsource? || d.Vcvs? || d.voltage ==> HoldsAt(d, 0) && HoldsAt(d, 1));
    } else if d.OpAmp? || d.Comparator? {
      assert ts[0] == d.out && HoldsAt(d, 0);
    }
  }

  /** A resistor, an inductor or a switch's contact between two nodes. */
  ghost predicate WiredOrSwitched(ds: seq<Device>, x: Node, y: Node) {
    Wired(ds, x, y) || exists d :: d in ds && d.VSwitch? && d.a == x && d.b == y
  }

  lemma LevelEdgesAre(ds: seq<Device>, x: Node, y: Node)
    ensures (x, y) in EdgesOf(ds, true) <==> WiredOrSwitched(ds, x, y)
  {
    EdgesAre(ds, true);
    if WiredOrSwitched(ds, x, y) {
      var d :| d in ds && (d.Resistor? || d.Inductor? || d.VSwitch?) && d.a == x && d.b == y;
      assert Joins(d, true) && EndsOf(d) == (x, y);
    }
  }

  lemma HeldByIff(ds: seq<Device>, n: Node)
    ensures n == GROUND || n in HoldingNodes(ds) <==> HeldBy(ds, n)
  {
    if n in HoldingNodes(ds) {
      var d :| d in ds && n in Holding(d);
      HoldingIff(d, n);
    }
    if d, k: nat :| d in ds && k < |Terminals(d)| && HoldsAt(d, k) && Terminals(d)[k] == n {
      HoldingIff(d, n);
    }
  }

  /** A node's level is determined exactly when something wired or switched to it is ground or held. */
  lemma LevelDeterminedIff(ds: seq<Device>, node: Node)
    ensures !Floating(EdgesOf(ds, true), HoldingNodes(ds), node) <==>
            exists n: Node :: Connected(EdgesOf(ds, true), node, n) && HeldBy(ds, n)
  {
    var es := EdgesOf(ds, true);
    if n: Node :| Connected(es, node, n) && HeldBy(ds, n) {
      HeldByIff(ds, n);
    }
    if !Floating(es, HoldingNodes(ds), node) {
      var n: Node :| Connected(es, node, n) && (n == GROUND || n in HoldingNodes(ds));
      HeldByIff(ds, n);
    }
  }
}
