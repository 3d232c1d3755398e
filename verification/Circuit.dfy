/**
  The circuit's devices and the nodes they carry.  Values the rework never reads (models,
  temperature coefficients, initial conditions, expressions) are left out.
 */
module Circuit {
  import opened Wrappers
  import opened Connectivity

  const GROUND: Node := 0

  /** A device is named by its index in the circuit. */
  type DeviceId = nat

  datatype Supply = Supply(hi: Option<Node>, lo: Option<Node>)

  /** What a behavioural source reads: a node's voltage or another device's branch current. */
  datatype Dep = Volt(node: Node) | Branch(device: DeviceId)

  datatype Device =
    | Resistor(name: string, a: Node, b: Node, ohms: real)
    | Capacitor(name: string, a: Node, b: Node, farads: real)
    | Inductor(name: string, a: Node, b: Node)
    | Vsource(name: string, p: Node, n: Node, volts: real)
    | Isource(name: string, p: Node, n: Node, amps: real)
    | Diode(name: string, a: Node, k: Node)
    | Bjt(name: string, c: Node, b: Node, e: Node)
    | Mosfet(name: string, d: Node, g: Node, s: Node, bulk: Option<Node>)
    | VSwitch(name: string, a: Node, b: Node, ctrlP: Node, ctrlN: Node, von: real, voff: real)
    | OpAmp(name: string, out: Node, inp: Node, inn: Node, reference: Option<Node>,
            railLo: Node, railHi: Node, supply: Supply)
    | Comparator(name: string, out: Node, inp: Node, inn: Node, supply: Supply)
    | Vcvs(name: string, p: Node, n: Node, cp: Node, cn: Node)
    | Vccs(name: string, p: Node, n: Node, cp: Node, cn: Node)
    | Cccs(name: string, p: Node, n: Node, ctrlSrc: DeviceId)
    | Ccvs(name: string, p: Node, n: Node, ctrlSrc: DeviceId)
    | Behavioral(name: string, p: Node, n: Node, voltage: bool, deps: seq<Dep>)
    | Coupling(name: string, l1: DeviceId, l2: DeviceId)

  function Listed(n: Option<Node>): seq<Node> {
    if n.Some? then [n.value] else []
  }

  function VoltNodes(deps: seq<Dep>): (ns: seq<Node>)
    ensures |ns| <= |deps|
  {
    if deps == [] then []
    else (if deps[0].Volt? then [deps[0].node] else []) + VoltNodes(deps[1..])
  }

  /** The nodes a device is wired to, but for an op-amp's two rail pins. */
  function Terminals(d: Device): seq<Node> {
    match d
    case Resistor(_, a, b, _) => [a, b]
    case Capacitor(_, a, b, _) => [a, b]
    case Inductor(_, a, b) => [a, b]
    case Vsource(_, p, n, _) => [p, n]
    case Isource(_, p, n, _) => [p, n]
    case Diode(_, a, k) => [a, k]
    case Bjt(_, c, b, e) => [c, b, e]
    case Mosfet(_, dr, g, s, bulk) => [dr, g, s] + Listed(bulk)
    case VSwitch(_, a, b, cp, cn, _, _) => [a, b, cp, cn]
    case OpAmp(_, out, inp, inn, ref, _, _, supply) =>
      [out, inp, inn] + Listed(ref) + Listed(supply.hi) + Listed(supply.lo)
    case Comparator(_, out, inp, inn, supply) => [out, inp, inn] + Listed(supply.hi) + Listed(supply.lo)
    case Vcvs(_, p, n, cp, cn) => [p, n, cp, cn]
    case Vccs(_, p, n, cp, cn) => [p, n, cp, cn]
    case Cccs(_, p, n, _) => [p, n]
    case Ccvs(_, p, n, _) => [p, n]
    case Behavioral(_, p, n, _, deps) => [p, n] + VoltNodes(deps)
    case Coupling(_, _, _) => []
  }

  /** An op-amp's rail pins.  A pin on ground is not a terminal: it marks a fixed rail. */
  function RailPins(d: Device): seq<Node> {
    if d.OpAmp? then [d.railLo, d.railHi] else []
  }

  /** Every node the device is wired to. */
  function NodesOf(d: Device): set<Node> {
    (set n | n in Terminals(d)) + (set n | n in RailPins(d) && n != GROUND)
  }

  // ---------------------------------------------------------------------------------------------
  // Renaming a node
  // ---------------------------------------------------------------------------------------------

  function RenameOption(to: Node, from: Node, n: Option<Node>): Option<Node> {
    if n.Some? then Some(Rename(to, from, n.value)) else None
  }

  function RenameSupply(to: Node, from: Node, s: Supply): Supply {
    Supply(RenameOption(to, from, s.hi), RenameOption(to, from, s.lo))
  }

  function RenameDep(to: Node, from: Node, d: Dep): Dep {
    if d.Volt? then Volt(Rename(to, from, d.node)) else d
  }

  function RenameDeps(to: Node, from: Node, ds: seq<Dep>): seq<Dep> {
    seq(|ds|, i requires 0 <= i < |ds| => RenameDep(to, from, ds[i]))
  }

  /** A fixed rail's ground mark is kept as it is. */
  function RenameRail(to: Node, from: Node, n: Node): Node {
    if n == GROUND then n else Rename(to, from, n)
  }

  /** The device with `from` for every node that was `to`. */
  function MapNodes(to: Node, from: Node, d: Device): Device {
    match d
    case Resistor(name, a, b, ohms) => Resistor(name, Rename(to, from, a), Rename(to, from, b), ohms)
    case Capacitor(name, a, b, farads) => Capacitor(name, Rename(to, from, a), Rename(to, from, b), farads)
    case Inductor(name, a, b) => Inductor(name, Rename(to, from, a), Rename(to, from, b))
    case Vsource(name, p, n, volts) => Vsource(name, Rename(to, from, p), Rename(to, from, n), volts)
    case Isource(name, p, n, amps) => Isource(name, Rename(to, from, p), Rename(to, from, n), amps)
    case Diode(name, a, k) => Diode(name, Rename(to, from, a), Rename(to, from, k))
    case Bjt(name, c, b, e) => Bjt(name, Rename(to, from, c), Rename(to, from, b), Rename(to, from, e))
    case Mosfet(name, dr, g, s, bulk) =>
      Mosfet(name, Rename(to, from, dr), Rename(to, from, g), Rename(to, from, s), RenameOption(to, from, bulk))
    case VSwitch(name, a, b, cp, cn, von, voff) =>
      VSwitch(name, Rename(to, from, a), Rename(to, from, b), Rename(to, from, cp), Rename(to, from, cn), von, voff)
    case OpAmp(name, out, inp, inn, ref, lo, hi, supply) =>
      OpAmp(name, Rename(to, from, out), Rename(to, from, inp), Rename(to, from, inn), RenameOption(to, from, ref),
            RenameRail(to, from, lo), RenameRail(to, from, hi), RenameSupply(to, from, supply))
    case Comparator(name, out, inp, inn, supply) =>
      Comparator(name, Rename(to, from, out), Rename(to, from, inp), Rename(to, from, inn), RenameSupply(to, from, supply))
    case Vcvs(name, p, n, cp, cn) =>
      Vcvs(name, Rename(to, from, p), Rename(to, from, n), Rename(to, from, cp), Rename(to, from, cn))
    case Vccs(name, p, n, cp, cn) =>
      Vccs(name, Rename(to, from, p), Rename(to, from, n), Rename(to, from, cp), Rename(to, from, cn))
    case Cccs(name, p, n, ctrlSrc) => Cccs(name, Rename(to, from, p), Rename(to, from, n), ctrlSrc)
    case Ccvs(name, p, n, ctrlSrc) => Ccvs(name, Rename(to, from, p), Rename(to, from, n), ctrlSrc)
    case Behavioral(name, p, n, voltage, deps) =>
      Behavioral(name, Rename(to, from, p), Rename(to, from, n), voltage, RenameDeps(to, from, deps))
    case Coupling(_, _, _) => d
  }

  function RenameAll(to: Node, from: Node, ns: seq<Node>): (r: seq<Node>)
    ensures |r| == |ns|
    ensures forall i :: 0 <= i < |ns| ==> r[i] == Rename(to, from, ns[i])
  {
    seq(|ns|, i requires 0 <= i < |ns| => Rename(to, from, ns[i]))
  }

  lemma {:induction false} VoltNodesRenamed(to: Node, from: Node, ds: seq<Dep>)
    ensures VoltNodes(RenameDeps(to, from, ds)) == RenameAll(to, from, VoltNodes(ds))
  {
    if ds != [] {
      assert RenameDeps(to, from, ds)[1..] == RenameDeps(to, from, ds[1..]);
      VoltNodesRenamed(to, from, ds[1..]);
    }
  }

  /** No terminal of any device variant escapes the renaming ... */
  lemma MapNodesRenamesTerminals(to: Node, from: Node, d: Device)
    ensures Terminals(MapNodes(to, from, d)) == RenameAll(to, from, Terminals(d))
  {
    match d
    case OpAmp(_, _, _, _, _, _, _, _) => OpAmpRenamed(to, from, d);
    case Comparator(_, _, _, _, _) => ComparatorRenamed(to, from, d);
    case Behavioral(_, _, _, _, _) => BehavioralRenamed(to, from, d);
    case Mosfet(_, _, _, _, _) => MosfetRenamed(to, from, d);
    case _ =>
      if |Terminals(d)| == 2 {
        TwoRenamed(to, from, d);
      } else {
        MoreRenamed(to, from, d);
      }
  }

  /** The variants whose terminals are a fixed list. */
  predicate FixedTerminals(d: Device) {
    !d.OpAmp? && !d.Comparator? && !d.Behavioral? && !d.Mosfet?
  }

  lemma TwoRenamed(to: Node, from: Node, d: Device)
    requires FixedTerminals(d) && |Terminals(d)| == 2
    ensures Terminals(MapNodes(to, from, d)) == RenameAll(to, from, Terminals(d))
  {
  }

  lemma MoreRenamed(to: Node, from: Node, d: Device)
    requires FixedTerminals(d) && |Terminals(d)| != 2
    ensures Terminals(MapNodes(to, from, d)) == RenameAll(to, from, Terminals(d))
  {
  }

  lemma ListedRenamed(to: Node, from: Node, n: Option<Node>)
    ensures Listed(RenameOption(to, from, n)) == RenameAll(to, from, Listed(n))
  {
  }

  lemma BehavioralRenamed(to: Node, from: Node, d: Device)
    requires d.Behavioral?
    ensures Terminals(MapNodes(to, from, d)) == RenameAll(to, from, Terminals(d))
  {
    VoltNodesRenamed(to, from, d.deps);
    RenameAllAppend(to, from, [d.p, d.n], VoltNodes(d.deps));
  }

  lemma MosfetRenamed(to: Node, from: Node, d: Device)
    requires d.Mosfet?
    ensures Terminals(MapNodes(to, from, d)) == RenameAll(to, from, Terminals(d))
  {
    ListedRenamed(to, from, d.bulk);
    RenameAllAppend(to, from, [d.d, d.g, d.s], Listed(d.bulk));
  }

  /** Terminals that come in four runs are renamed run by run. */
  lemma RunsRenamed(to: Node, from: Node, pins: seq<Node>, r: Option<Node>, h: Option<Node>, l: Option<Node>)
    ensures RenameAll(to, from, pins + Listed(r) + Listed(h) + Listed(l))
            == RenameAll(to, from, pins) + Listed(RenameOption(to, from, r)) + Listed(RenameOption(to, from, h))
               + Listed(RenameOption(to, from, l))
  {
    ListedRenamed(to, from, r);
    ListedRenamed(to, from, h);
    ListedRenamed(to, from, l);
    RenameAllAppend(to, from, pins, Listed(r));
    RenameAllAppend(to, from, pins + Listed(r), Listed(h));
    RenameAllAppend(to, from, pins + Listed(r) + Listed(h), Listed(l));
  }

  lemma OpAmpRenamed(to: Node, from: Node, d: Device)
    requires d.OpAmp?
    ensures Terminals(MapNodes(to, from, d)) == RenameAll(to, from, Terminals(d))
  {
    var pins := [d.out, d.inp, d.inn];
    RunsRenamed(to, from, pins, d.reference, d.supply.hi, d.supply.lo);
    assert RenameAll(to, from, pins) == [Rename(to, from, d.out), Rename(to, from, d.inp), Rename(to, from, d.inn)];
  }

  lemma ComparatorRenamed(to: Node, from: Node, d: Device)
    requires d.Comparator?
    ensures Terminals(MapNodes(to, from, d)) == RenameAll(to, from, Terminals(d))
  {
    var pins := [d.out, d.inp, d.inn];
    RunsRenamed(to, from, pins, None, d.supply.hi, d.supply.lo);
    assert pins + Listed(None) == pins;
    assert RenameAll(to, from, pins) == [Rename(to, from, d.out), Rename(to, from, d.inp), Rename(to, from, d.inn)];
    assert RenameAll(to, from, pins) + Listed(RenameOption(to, from, None)) == RenameAll(to, from, pins);
  }

  /** ... and only the op-amp's rail pins are treated apart. */
  lemma MapNodesElsewhere(to: Node, from: Node, d: Device)
    ensures |RailPins(MapNodes(to, from, d))| == |RailPins(d)|
    ensures forall r :: 0 <= r < |RailPins(d)| ==>
      RailPins(MapNodes(to, from, d))[r] == RenameRail(to, from, RailPins(d)[r])
    ensures MapNodes(to, from, d).name == d.name
    ensures MapNodes(to, from, d).Bjt? <==> d.Bjt?
  {
  }

  lemma RenameAllAppend(to: Node, from: Node, xs: seq<Node>, ys: seq<Node>)
    ensures RenameAll(to, from, xs + ys) == RenameAll(to, from, xs) + RenameAll(to, from, ys)
  {
  }

  // ---------------------------------------------------------------------------------------------
  // Transistor roles
  // ---------------------------------------------------------------------------------------------

  /** The terminal role a cut or a lift severs. */
  datatype Role = Base | Collector | Emitter

  /** Where the role's node stands among a transistor's terminals. */
  function Slot(r: Role): (k: nat)
    ensures k < 3
  {
    match r
    case Collector => 0
    case Base => 1
    case Emitter => 2
  }

  function RoleNode(d: Device, r: Role): Node
    requires d.Bjt?
  {
    match r
    case Base => d.b
    case Collector => d.c
    case Emitter => d.e
  }

  function SetRole(d: Device, r: Role, n: Node): Device
    requires d.Bjt?
  {
    match r
    case Base => Bjt(d.name, d.c, n, d.e)
    case Collector => Bjt(d.name, n, d.b, d.e)
    case Emitter => Bjt(d.name, d.c, d.b, n)
  }

  lemma SetRoleMovesOneTerminal(d: Device, r: Role, n: Node)
    requires d.Bjt?
    ensures Terminals(SetRole(d, r, n)) == Terminals(d)[Slot(r) := n]
    ensures Terminals(d)[Slot(r)] == RoleNode(d, r)
    ensures SetRole(d, r, n).Bjt? && SetRole(d, r, n).name == d.name
  {
  }
}
