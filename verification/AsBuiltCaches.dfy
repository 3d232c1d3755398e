/** Whether the overlay leaves a cached node id, a driver handle or a rail pin behind. */
module AsBuiltCaches {
  import opened Wrappers
  import opened Connectivity
  import opened Circuit
  import opened Drivers
  import opened Bound
  import opened AsBuilt
  import opened AsBuiltProofs

  // ---------------------------------------------------------------------------------------------
  // Nothing stale
  // ---------------------------------------------------------------------------------------------

  lemma RenamedDevice(to: Node, from: Node, d: Device)
    requires to != from
    ensures to !in Terminals(MapNodes(to, from, d))
    ensures to !in NodesOf(MapNodes(to, from, d))
  {
    MapNodesRenamesTerminals(to, from, d);
    MapNodesElsewhere(to, from, d);
  }

  /** `now` holds the renamed handles of `was`, and no other. */
  ghost predicate HandlesRenamed(to: Node, from: Node, was: set<PinDriver>, now: set<PinDriver>) {
    && (forall d :: d in was ==> RenameDriver(to, from, d) in now)
    && (forall d' :: d' in now ==> exists d :: d in was && d' == RenameDriver(to, from, d))
  }

  lemma RenamedMcuDrivers(to: Node, from: Node, ms: seq<Mcu>)
    ensures HandlesRenamed(to, from, McuDrivers(ms), McuDrivers(RenameMcus(to, from, ms)))
  {
    var ms' := RenameMcus(to, from, ms);
    forall d | d in McuDrivers(ms)
      ensures RenameDriver(to, from, d) in McuDrivers(ms')
    {
      var m, k :| m in ms && k in m.gpioDrivers && m.gpioDrivers[k] == d;
      var i :| 0 <= i < |ms| && ms[i] == m;
      assert ms'[i] in ms' && k in ms'[i].gpioDrivers;
    }
    forall d' | d' in McuDrivers(ms')
      ensures exists d :: d in McuDrivers(ms) && d' == RenameDriver(to, from, d)
    {
      var m, k :| m in ms' && k in m.gpioDrivers && m.gpioDrivers[k] == d';
      var i :| 0 <= i < |ms'| && ms'[i] == m;
      assert ms[i] in ms && k in ms[i].gpioDrivers;
      assert ms[i].gpioDrivers[k] in McuDrivers(ms);
    }
  }

  lemma RenamedDacDrivers(to: Node, from: Node, ds: seq<Dac>)
    ensures HandlesRenamed(to, from, DacDrivers(ds), DacDrivers(RenameDacs(to, from, ds)))
  {
    var ds' := RenameDacs(to, from, ds);
    forall d | d in DacDrivers(ds)
      ensures RenameDriver(to, from, d) in DacDrivers(ds')
    {
      var c, v :| c in ds && v in c.voutDrivers && v == Some(d);
      var i :| 0 <= i < |ds| && ds[i] == c;
      var k :| 0 <= k < |c.voutDrivers| && c.voutDrivers[k] == v;
      assert ds'[i] in ds' && ds'[i].voutDrivers[k] in ds'[i].voutDrivers;
    }
    forall d' | d' in DacDrivers(ds')
      ensures exists d :: d in DacDrivers(ds) && d' == RenameDriver(to, from, d)
    {
      var c, v :| c in ds' && v in c.voutDrivers && v == Some(d');
      var i :| 0 <= i < |ds'| && ds'[i] == c;
      var k :| 0 <= k < |c.voutDrivers| && c.voutDrivers[k] == v;
      assert ds[i] in ds && ds[i].voutDrivers[k] in ds[i].voutDrivers;
      assert ds[i].voutDrivers[k].value in DacDrivers(ds);
    }
  }

  lemma RenamedDigitalDrivers(to: Node, from: Node, ds: seq<Digital>)
    ensures HandlesRenamed(to, from, DigitalDrivers(ds), DigitalDrivers(RenameDigitals(to, from, ds)))
  {
    var ds' := RenameDigitals(to, from, ds);
    forall d | d in DigitalDrivers(ds)
      ensures RenameDriver(to, from, d) in DigitalDrivers(ds')
    {
      var g, k :| g in ds && k in g.drivers && g.drivers[k] == d;
      var i :| 0 <= i < |ds| && ds[i] == g;
      assert ds'[i] in ds' && k in ds'[i].drivers;
    }
    forall d' | d' in DigitalDrivers(ds')
      ensures exists d :: d in DigitalDrivers(ds) && d' == RenameDriver(to, from, d)
    {
      var g, k :| g in ds' && k in g.drivers && g.drivers[k] == d';
      var i :| 0 <= i < |ds'| && ds'[i] == g;
      assert ds[i] in ds && k in ds[i].drivers;
      assert ds[i].drivers[k] in DigitalDrivers(ds);
    }
  }

  lemma HandlesRenamedUnion(to: Node, from: Node, a: set<PinDriver>, a': set<PinDriver>, b: set<PinDriver>, b': set<PinDriver>)
    requires HandlesRenamed(to, from, a, a') && HandlesRenamed(to, from, b, b')
    ensures HandlesRenamed(to, from, a + b, a' + b')
  {
  }

  lemma RenamedDrivers(to: Node, from: Node, b: Board)
    ensures HandlesRenamed(to, from, DriversOf(b), DriversOf(RenameBoard(b, to, from)))
  {
    var m, m' := McuDrivers(b.mcus), McuDrivers(RenameMcus(to, from, b.mcus));
    var d, d' := DacDrivers(b.dacs), DacDrivers(RenameDacs(to, from, b.dacs));
    var g, g' := DigitalDrivers(b.digital), DigitalDrivers(RenameDigitals(to, from, b.digital));
    RenamedMcuDrivers(to, from, b.mcus);
    RenamedDacDrivers(to, from, b.dacs);
    RenamedDigitalDrivers(to, from, b.digital);
    HandlesRenamedUnion(to, from, m, m', d, d');
    HandlesRenamedUnion(to, from, m + d, m' + d', g, g');
  }

  lemma NoRenamedHandle(to: Node, from: Node, b: Board)
    requires to != from
    ensures !DriversHold(RenameBoard(b, to, from), to)
  {
    RenamedDrivers(to, from, b);
  }

  lemma RenamedBehavioral(to: Node, from: Node, d: BehavioralDevice)
    requires to != from
    ensures !BehavioralHolds(RenameBehavioral(to, from, d), to)
  {
  }

  lemma RenamedMaps(to: Node, from: Node, ms: seq<Mcu>, ds: seq<Digital>)
    requires to != from
    ensures !MapsHold(RenameMcus(to, from, ms), RenameDigitals(to, from, ds), to)
  {
  }

  lemma RenamedLists(to: Node, from: Node, ds: seq<Dac>, ps: seq<Peripheral>, ls: seq<SupplyLeg>, bs: seq<BehavioralDevice>)
    requires to != from
    ensures !ListsHold(RenameDacs(to, from, ds), RenamePeripherals(to, from, ps), RenameLegs(to, from, ls),
                       RenameBehaviorals(to, from, bs), to)
  {
    forall i | 0 <= i < |bs|
      ensures !BehavioralHolds(RenameBehavioral(to, from, bs[i]), to)
    {
      RenamedBehavioral(to, from, bs[i]);
    }
  }

  /** The merged-away node is gone from every cache a merge enumerates. */
  lemma RenamedCaches(b: Board, to: Node, from: Node)
    requires to != from
    ensures !CacheHolds(RenameBoard(b, to, from), to)
  {
    NoRenamedHandle(to, from, b);
    RenamedMaps(to, from, b.mcus, b.digital);
    RenamedLists(to, from, b.dacs, b.peripherals, b.supplies, b.behavioral);
  }

  /**
    After a jumper the merged-away node is on no device, in no net name and in none of the
    enumerated caches; a peripheral's chip select or power pins and a part pin of the report still
    hold it exactly when they held it before.
   */
  lemma JumperLeavesNothingStale(b: Board, j: Jumper)
    requires JumperSpec(b, j).Ok?
    ensures var to, b' := b.netNodes[j.to], JumperSpec(b, j).value;
            && (forall d :: d in b'.devices ==> to !in NodesOf(d))
            && to !in b'.netNodes.Values
            && !CacheHolds(b', to)
            && (UnrenamedCacheHolds(b', to) <==> UnrenamedCacheHolds(b, to))
    ensures JumperSpec(b, j).value.netNodes.Keys == b.netNodes.Keys
    ensures var b' := JumperSpec(b, j).value; b'.netNodes[j.to] == b'.netNodes[j.from] == b.netNodes[j.from]
  {
    var to, from, b' := b.netNodes[j.to], b.netNodes[j.from], JumperSpec(b, j).value;
    forall d | d in b'.devices
      ensures to !in NodesOf(d)
    {
      var i :| 0 <= i < |b'.devices| && b'.devices[i] == d;
      RenamedDevice(to, from, b.devices[i]);
    }
    RenamedCaches(b, to, from);
    forall i | 0 <= i < |b.peripherals|
      ensures b'.peripherals[i] in b'.peripherals && b.peripherals[i] in b.peripherals
    {
    }
  }

  // ---------------------------------------------------------------------------------------------
  // Drivers stay coherent
  // ---------------------------------------------------------------------------------------------

  /** Every cached driver's net is the net side of the devices it stamped. */
  ghost predicate AllCoherent(b: Board) {
    forall d :: d in DriversOf(b) ==> Coherent(b.devices, d)
  }

  lemma JumperKeepsCoherence(b: Board, j: Jumper)
    requires AllCoherent(b) && JumperSpec(b, j).Ok?
    ensures AllCoherent(JumperSpec(b, j).value)
  {
    var to, from := b.netNodes[j.to], b.netNodes[j.from];
    RenamedDrivers(to, from, b);
    forall d' | d' in DriversOf(RenameBoard(b, to, from))
      ensures Coherent(RenameDevices(to, from, b.devices), d')
    {
      var d :| d in DriversOf(b) && d' == RenameDriver(to, from, d);
      CoherentAfterMerge(to, from, b.devices, d);
    }
  }

  /** Retuning one driver's resistance leaves every cached handle coherent. */
  lemma RetuneKeepsCoherence(b: Board, now: seq<Device>, r: DeviceId)
    requires AllCoherent(b) && SameButResistance(b.devices, now, r)
    ensures AllCoherent(b.(devices := now))
  {
    forall d | d in DriversOf(b)
      ensures Coherent(now, d)
    {
      CoherentAfterRetune(b.devices, now, r, d);
    }
  }

  /** Whatever rewires only transistors and retunes only values leaves the drivers alone. */
  ghost predicate DriversUntouched(b: Board, c: Board) {
    && DriversOf(c) == DriversOf(b)
    && |b.devices| <= |c.devices|
    && (forall i :: 0 <= i < |b.devices| ==>
          && (b.devices[i].Resistor? ==>
                && c.devices[i].Resistor? && c.devices[i].a == b.devices[i].a && c.devices[i].b == b.devices[i].b)
          && (b.devices[i].Vsource? || b.devices[i].Isource? || b.devices[i].Behavioral? ==>
                c.devices[i] == b.devices[i]))
  }

  lemma UntouchedStaysCoherent(b: Board, c: Board)
    requires AllCoherent(b) && DriversUntouched(b, c)
    ensures AllCoherent(c)
  {
  }

  lemma ReplacesKeepDrivers(b: Board, rs: seq<Replace>)
    requires ReplacesFrom(b, rs).Ok?
    ensures DriversUntouched(b, ReplacesFrom(b, rs).value)
  {
    ReplacesKeepWiring(b, rs);
    var c := ReplacesFrom(b, rs).value;
    forall i | 0 <= i < |b.devices| && b.devices[i].Resistor?
      ensures c.devices[i].Resistor? && c.devices[i].a == b.devices[i].a && c.devices[i].b == b.devices[i].b
    {
      assert SameWires(b.devices[i], c.devices[i]);
      assert Terminals(c.devices[i])[0] == Terminals(b.devices[i])[0];
      assert Terminals(c.devices[i])[1] == Terminals(b.devices[i])[1];
    }
  }

  lemma {:induction false} CutsKeepDrivers(b: Board, cs: seq<Cut>, next: Node)
    requires CutsFrom(b, cs, next).Ok?
    ensures DriversUntouched(b, CutsFrom(b, cs, next).value.0)
    decreases |cs|
  {
    if cs != [] {
      var v := CutSpec(b, cs[0], next).value;
      CutsKeepDrivers(v.0, cs[1..], v.1);
    }
  }

  lemma {:induction false} LiftsKeepDrivers(b: Board, ls: seq<Lift>, next: Node)
    requires LiftsFrom(b, ls, next).Ok?
    ensures DriversUntouched(b, LiftsFrom(b, ls, next).value.0)
    decreases |ls|
  {
    if ls != [] {
      var v := LiftSpec(b, ls[0], next).value;
      LiftsKeepDrivers(v.0, ls[1..], v.1);
    }
  }

  lemma {:induction false} JumpersKeepCoherence(b: Board, js: seq<Jumper>)
    requires AllCoherent(b) && JumpersFrom(b, js).Ok?
    ensures AllCoherent(JumpersFrom(b, js).value)
    decreases |js|
  {
    if js != [] {
      JumperKeepsCoherence(b, js[0]);
      JumpersKeepCoherence(JumperSpec(b, js[0]).value, js[1..]);
    }
  }

  /** A whole overlay keeps every stamped driver's handle true to the circuit. */
  lemma ApplyKeepsCoherence(o: Board, ov: Overlay)
    requires AllCoherent(o) && ApplySpec(o, ov).Ok?
    ensures AllCoherent(ApplySpec(o, ov).value)
  {
    var b1 := ReplacesFrom(o, ov.swaps).value;
    var v2 := CutsFrom(b1, ov.cuts, FLOAT_NODE_BASE).value;
    var v3 := LiftsFrom(v2.0, ov.lifts, v2.1).value;
    var b4 := JumpersFrom(v3.0, ov.jumpers).value;
    ReplacesKeepDrivers(o, ov.swaps);
    UntouchedStaysCoherent(o, b1);
    CutsKeepDrivers(b1, ov.cuts, FLOAT_NODE_BASE);
    UntouchedStaysCoherent(b1, v2.0);
    LiftsKeepDrivers(v2.0, ov.lifts, v2.1);
    UntouchedStaysCoherent(v2.0, v3.0);
    JumpersKeepCoherence(v3.0, ov.jumpers);
    FitsAppend(b4, ov.fits);
    var c := FitsFrom(b4, ov.fits).value;
    forall i | 0 <= i < |b4.devices|
      ensures c.devices[i] == b4.devices[i]
    {
      assert c.devices[i] == c.devices[..|b4.devices|][i];
    }
    UntouchedStaysCoherent(b4, c);
  }

  // ---------------------------------------------------------------------------------------------
  // Op-amp rail pins
  // ---------------------------------------------------------------------------------------------

  /** At some point of the merges the pin's node was ground. */
  ghost predicate Grounded(es: seq<Edge>, n: Node) {
    exists k :: 0 <= k <= |es| && Rep(es[..k], n) == GROUND
  }

  lemma {:induction false} RailRepValue(es: seq<Edge>, n: Node)
    ensures RailRep(es, n) == if Grounded(es, n) then GROUND else Rep(es, n)
    decreases |es|
  {
    if |es| == 0 {
      assert es[..0] == es;
    } else {
      var rest := es[..|es| - 1];
      RailRepValue(rest, n);
      if Grounded(rest, n) {
        var k :| 0 <= k <= |rest| && Rep(rest[..k], n) == GROUND;
        assert es[..k] == rest[..k];
      } else {
        assert rest[..|rest|] == rest;
        assert es[..|es|] == es;
        if k :| 0 <= k <= |es| && Rep(es[..k], n) == GROUND {
          if k < |es| {
            assert rest[..k] == es[..k];
          }
        }
      }
    }
  }

  /** Some jumper merges ground's node away. */
  ghost predicate TakesGround(es: seq<Edge>)
    decreases |es|
  {
    |es| > 0 &&
    var rest, e := es[..|es| - 1], es[|es| - 1];
    TakesGround(rest) || (Rep(rest, e.1) == GROUND && Rep(rest, e.0) != GROUND)
  }

  lemma {:induction false} GroundMovesIffTaken(es: seq<Edge>)
    ensures Rep(es, GROUND) != GROUND <==> TakesGround(es)
    decreases |es|
  {
    if |es| > 0 {
      var rest, e := es[..|es| - 1], es[|es| - 1];
      GroundMovesIffTaken(rest);
      RepIdempotent(rest, e.0);
      RepIdempotent(rest, e.1);
    }
  }

  /**
    A rail pin follows its net through the merges unless it was ever on ground and some jumper took
    ground's node away: then it keeps the dead node, because a rail pin on ground reads as a fixed
    rail.
   */
  lemma RailFollowsNetUnlessStranded(es: seq<Edge>, n: Node)
    ensures RailRep(es, n) == Rep(es, n) <==> !(Grounded(es, n) && TakesGround(es))
  {
    RailRepValue(es, n);
    GroundMovesIffTaken(es);
    if Grounded(es, n) {
      var k :| 0 <= k <= |es| && Rep(es[..k], n) == GROUND;
      RepIsMember(es[..k], n);
      ConnectedMonotone(es[..k], es, n, GROUND);
      RepIffConnected(es, n, GROUND);
    }
  }

  /** Where an applied overlay left each rail pin of the design. */
  lemma AppliedRails(o: Board, ov: Overlay, i: nat, r: nat)
    requires ApplySpec(o, ov).Ok? && i < |o.devices| && r < |RailPins(o.devices[i])|
    ensures KnownNets(o, ov.jumpers)
    ensures var c, es, n := ApplySpec(o, ov).value, Edges(o, ov.jumpers), RailPins(o.devices[i])[r];
            && i < |c.devices| && r < |RailPins(c.devices[i])|
            && (RailPins(c.devices[i])[r] == Rep(es, n) <==> !(Grounded(es, n) && TakesGround(es)))
  {
    AppliedRailNode(o, ov, i, r);
    RailFollowsNetUnlessStranded(Edges(o, ov.jumpers), RailPins(o.devices[i])[r]);
  }

  /** Whether the pin keeps a node its net has left. */
  ghost predicate Stranded(es: seq<Edge>, n: Node) {
    Grounded(es, n) && TakesGround(es)
  }

  /** Ground's node, once merged away, is no terminal's and no net's. */
  lemma TakenGroundIsEmpty(es: seq<Edge>, m: Node)
    requires TakesGround(es)
    ensures Rep(es, m) != GROUND
  {
    GroundMovesIffTaken(es);
    RepIdempotent(es, m);
  }

  /** A rail pin meets a node of the merged board exactly when the pairs connect them and it is not stranded. */
  lemma RailMeetsIff(es: seq<Edge>, n: Node, m: Node)
    ensures RailRep(es, n) == Rep(es, m) <==> Connected(es, n, m) && !Stranded(es, n)
  {
    RailRepValue(es, n);
    RepIffConnected(es, n, m);
    RailFollowsNetUnlessStranded(es, n);
    if Stranded(es, n) {
      TakenGroundIsEmpty(es, m);
    }
  }

  /** No merge of named nodes takes a rail pin into the range of the float ids. */
  lemma RailBelowBase(o: Board, f: set<Terminal>, js: seq<Jumper>, n: Node)
    requires KnownNets(o, js) && NodesBelowBase(o) && n < FLOAT_NODE_BASE
    ensures RailRep(Edges(o, js), n) < FLOAT_NODE_BASE
  {
    var es := Edges(o, js);
    RailRepValue(es, n);
    RepIsMember(es, n);
    if Rep(es, n) >= FLOAT_NODE_BASE {
      ConnectedSym(es, n, Rep(es, n));
      FloatIsolated(o, f, js, Rep(es, n), n);
      assert false;
    }
  }

  lemma UsedRailBelowBase(b: Board, i: nat, r: nat)
    requires i < |b.devices| && r < |RailPins(b.devices[i])| && forall n :: n in UsedNodes(b) ==> n < FLOAT_NODE_BASE
    ensures RailPins(b.devices[i])[r] < FLOAT_NODE_BASE
  {
    var n := RailPins(b.devices[i])[r];
    if n != GROUND {
      assert n in NodesOf(b.devices[i]);
      assert n in UsedNodes(b);
    }
  }

  /** Where an applied overlay put a rail pin, next to the terminals and the nets. */
  ghost predicate RailPlaced(o: Board, f: set<Terminal>, es: seq<Edge>, n: Node, c: Board, m: Node)
    requires SameParts(o, c)
  {
    && (forall t: Terminal :: IsTerminal(o, t) && t in f ==> NodeAt(c, t) != m)
    && (forall t: Terminal :: IsTerminal(o, t) && t !in f ==>
          (NodeAt(c, t) == m <==> Connected(es, n, NodeAt(o, t)) && !Stranded(es, n)))
    && (forall x :: x in o.netNodes ==> (c.netNodes[x] == m <==> Connected(es, n, o.netNodes[x]) && !Stranded(es, n)))
  }

  lemma RailPlacedByRep(o: Board, f: set<Terminal>, es: seq<Edge>, n: Node, c: Board)
    requires SameParts(o, c) && (f == {} || RailRep(es, n) < FLOAT_NODE_BASE)
    requires forall t: Terminal :: IsTerminal(o, t) ==>
      if t in f then NodeAt(c, t) >= FLOAT_NODE_BASE else NodeAt(c, t) == Rep(es, NodeAt(o, t))
    requires forall x :: x in o.netNodes ==> c.netNodes[x] == Rep(es, o.netNodes[x])
    ensures RailPlaced(o, f, es, n, c, RailRep(es, n))
  {
    forall t: Terminal | IsTerminal(o, t) && t !in f
      ensures NodeAt(c, t) == RailRep(es, n) <==> Connected(es, n, NodeAt(o, t)) && !Stranded(es, n)
    {
      RailMeetsIff(es, n, NodeAt(o, t));
    }
    forall x | x in o.netNodes
      ensures c.netNodes[x] == RailRep(es, n) <==> Connected(es, n, o.netNodes[x]) && !Stranded(es, n)
    {
      RailMeetsIff(es, n, o.netNodes[x]);
    }
  }

  /**
    After a successful overlay a rail pin shares its node with no floated terminal, and with any other
    terminal or net exactly when the jumper pairs connect the nodes they had and the pin is not stranded.
   */
  lemma AppliedRailConnectivity(o: Board, ov: Overlay, c: Board, i: nat, r: nat)
    requires ApplySpec(o, ov) == Ok(c) && i < |o.devices| && r < |RailPins(o.devices[i])|
    ensures KnownNets(o, ov.jumpers) && SameParts(o, c)
    ensures RailPlaced(o, FloatSet(o, ov), Edges(o, ov.jumpers), RailPins(o.devices[i])[r], c, RailPins(c.devices[i])[r])
  {
    AppliedNodes(o, ov);
    AppliedRailNode(o, ov, i, r);
    FloatsAreApart(o, ov, c);
    if FloatSet(o, ov) != {} {
      FloatedRailBelowBase(o, ov, i, r);
    }
    RailPlacedByRep(o, FloatSet(o, ov), Edges(o, ov.jumpers), RailPins(o.devices[i])[r], c);
  }

  lemma FloatsAreApart(o: Board, ov: Overlay, c: Board)
    requires ApplySpec(o, ov) == Ok(c)
    ensures SameParts(o, c)
    ensures forall t: Terminal :: IsTerminal(o, t) && t in FloatSet(o, ov) ==> NodeAt(c, t) >= FLOAT_NODE_BASE
  {
    AppliedConnectivity(o, ov);
  }

  lemma AppliedRailNode(o: Board, ov: Overlay, i: nat, r: nat)
    requires ApplySpec(o, ov).Ok? && i < |o.devices| && r < |RailPins(o.devices[i])|
    ensures KnownNets(o, ov.jumpers)
    ensures var c := ApplySpec(o, ov).value;
            && i < |c.devices| && r < |RailPins(c.devices[i])|
            && RailPins(c.devices[i])[r] == RailRep(Edges(o, ov.jumpers), RailPins(o.devices[i])[r])
  {
    var o1, b3, next, b4 := BeforeFits(o, ov);
    FitsAppend(b4, ov.fits);
    var c := ApplySpec(o, ov).value;
    assert c.devices[i] == c.devices[..|b4.devices|][i] == b4.devices[i];
    assert SameWires(o.devices[i], o1.devices[i]);
  }

  lemma FloatedRailBelowBase(o: Board, ov: Overlay, i: nat, r: nat)
    requires ApplySpec(o, ov).Ok? && i < |o.devices| && r < |RailPins(o.devices[i])| && FloatSet(o, ov) != {}
    requires KnownNets(o, ov.jumpers)
    ensures RailRep(Edges(o, ov.jumpers), RailPins(o.devices[i])[r]) < FLOAT_NODE_BASE
  {
    var o1 := ReplacesFrom(o, ov.swaps).value;
    ReplacesKeepWiring(o, ov.swaps);
    assert SameWires(o.devices[i], o1.devices[i]);
    assert ov.cuts != [] || ov.lifts != [];
    UsedRailBelowBase(o1, i, r);
    UnusedSpaceIsBelowBase(o1);
    assert Edges(o1, ov.jumpers) == Edges(o, ov.jumpers);
    RailBelowBase(o1, FloatSet(o, ov), ov.jumpers, RailPins(o.devices[i])[r]);
  }

  const VEE_OPAMP: Device := OpAmp("U1", 1, 2, 3, None, 5, 4, Supply(None, None))
  const VEE_BOARD: Board :=
    Board([VEE_OPAMP], map["GND" := 0, "VEE" := 5, "CHASSIS" := 7], [], [], [], [], [], [], [], [])

  lemma VeeOnGround() returns (b: Board)
    ensures JumperSpec(VEE_BOARD, Jumper("GND", "VEE")) == Ok(b)
    ensures b.netNodes == map["GND" := 0, "VEE" := 0, "CHASSIS" := 7]
    ensures b.devices == [OpAmp("U1", 1, 2, 3, None, 0, 4, Supply(None, None))]
  {
    b := JumperSpec(VEE_BOARD, Jumper("GND", "VEE")).value;
    assert |b.devices| == 1 && b.devices[0] == MapNodes(5, 0, VEE_OPAMP);
  }

  lemma GroundOnChassis(b: Board) returns (c: Board)
    requires b.netNodes == map["GND" := 0, "VEE" := 0, "CHASSIS" := 7]
    requires b.devices == [OpAmp("U1", 1, 2, 3, None, 0, 4, Supply(None, None))]
    ensures JumperSpec(b, Jumper("CHASSIS", "GND")) == Ok(c)
    ensures c.netNodes["VEE"] == 7 && |c.devices| == 1 && c.devices[0].OpAmp? && c.devices[0].railLo == 0
  {
    c := JumperSpec(b, Jumper("CHASSIS", "GND")).value;
    assert |c.devices| == 1 && c.devices[0] == MapNodes(0, 7, b.devices[0]);
  }

  /** A board on which it happens: VEE is bodged to ground, then ground onto the chassis net. */
  lemma StrandedRailExample() returns (c: Board)
    ensures JumpersFrom(VEE_BOARD, [Jumper("GND", "VEE"), Jumper("CHASSIS", "GND")]) == Ok(c)
    ensures c.netNodes["VEE"] == 7 && |c.devices| == 1 && c.devices[0].OpAmp? && c.devices[0].railLo == 0
  {
    var js := [Jumper("GND", "VEE"), Jumper("CHASSIS", "GND")];
    var b := VeeOnGround();
    c := GroundOnChassis(b);
    assert js[1..] == [js[1]] && js[1..][1..] == [];
    assert JumpersFrom(b, js[1..]) == JumpersFrom(c, js[1..][1..]);
  }
}
