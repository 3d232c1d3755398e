/**
  Transistor gates whose level nothing in the DC netlist sets: finding them from the circuit alone,
  and holding them off.
 */
module ControlInputs {
  import opened Wrappers
  import opened Connectivity
  import opened Circuit
  import opened Bound
  import opened Text

  /** The most a device id can be; a circuit refuses a device past it. */
  const U32_MAX: nat := 0xFFFF_FFFF

  const HOLD_OHMS: real := 1000.0

  datatype UndeterminedGate = UndeterminedGate(reference: string, device: DeviceId, pins: seq<PartPin>)

  type Links = map<Node, seq<Node>>

  // ---------------------------------------------------------------------------------------------
  // The DC graph
  // ---------------------------------------------------------------------------------------------

  function Listing(n: Option<Node>): set<Node> {
    if n.Some? then {n.value} else {}
  }

  /** The nodes a device holds at a level or passes direct current through: not what only senses. */
  function DcTerminals(d: Device): set<Node> {
    match d
    case Capacitor(_, _, _, _) => {}
    case Mosfet(_, dr, _, s, bulk) => {dr, s} + Listing(bulk)
    case VSwitch(_, a, b, _, _, _, _) => {a, b}
    case OpAmp(_, out, _, _, ref, lo, hi, supply) =>
      {out, lo, hi} + Listing(ref) + Listing(supply.hi) + Listing(supply.lo)
    case Comparator(_, out, _, _, supply) => {out} + Listing(supply.hi) + Listing(supply.lo)
    case Vcvs(_, p, n, _, _) => {p, n}
    case Vccs(_, p, n, _, _) => {p, n}
    case Behavioral(_, p, n, _, _) => {p, n}
    case _ => NodesOf(d)
  }

  /** What joins two nodes: a resistor or an inductor, and for a determined level a switch as well. */
  predicate Joins(d: Device, switches: bool) {
    d.Resistor? || d.Inductor? || (switches && d.VSwitch?)
  }

  function EndsOf(d: Device): Edge
    requires Joins(d, true)
  {
    match d
    case Resistor(_, a, b, _) => (a, b)
    case Inductor(_, a, b) => (a, b)
    case VSwitch(_, a, b, _, _, _, _) => (a, b)
  }

  /** What holds or loads its nodes, for a gate. */
  function Sets(d: Device): set<Node> {
    if Joins(d, false) then {} else DcTerminals(d)
  }

  /** What holds its nodes at a level, for a reading: sources and outputs, not junctions or currents. */
  function Holding(d: Device): set<Node> {
    match d
    case Vsource(_, p, n, _) => {p, n}
    case Vcvs(_, p, n, _, _) => {p, n}
    case Behavioral(_, p, n, voltage, _) => if voltage then {p, n} else {}
    case OpAmp(_, out, _, _, _, _, _, _) => {out}
    case Comparator(_, out, _, _, _) => {out}
    case _ => {}
  }

  function EdgesOf(ds: seq<Device>, switches: bool): seq<Edge> {
    if ds == [] then []
    else
      var last := ds[|ds| - 1];
      EdgesOf(ds[..|ds| - 1], switches) + (if Joins(last, switches) then [EndsOf(last)] else [])
  }

  ghost function SetOfNodes(ds: seq<Device>): set<Node> {
    set d, n | d in ds && n in Sets(d) :: n
  }

  ghost function HoldingNodes(ds: seq<Device>): set<Node> {
    set d, n | d in ds && n in Holding(d) :: n
  }

  lemma SetOfNodesAppend(ds: seq<Device>, more: seq<Device>)
    ensures SetOfNodes(ds + more) == SetOfNodes(ds) + SetOfNodes(more)
    ensures |more| == 1 ==> SetOfNodes(more) == Sets(more[0])
  {
  }

  /** The adjacency lists of the pairs, both ways. */
  ghost predicate Linked(links: Links, es: seq<Edge>) {
    forall x: Node, y: Node :: (x in links && y in links[x]) <==> (x, y) in es || (y, x) in es
  }

  function Push(links: Links, x: Node, y: Node): Links {
    links[x := (if x in links then links[x] else []) + [y]]
  }

  lemma PushBoth(links: Links, es: seq<Edge>, e: Edge)
    requires Linked(links, es)
    ensures Linked(Push(Push(links, e.0, e.1), e.1, e.0), es + [e])
  {
    var links1 := Push(links, e.0, e.1);
    var links2 := Push(links1, e.1, e.0);
    forall x: Node, y: Node
      ensures (x in links1 && y in links1[x]) <==> (x in links && y in links[x]) || (x, y) == e
    {
    }
    forall x: Node, y: Node
      ensures (x in links2 && y in links2[x]) <==> (x in links1 && y in links1[x]) || (y, x) == e
    {
    }
  }

  method DcGraph(ds: seq<Device>) returns (fixed: set<Node>, links: Links)
    ensures fixed == SetOfNodes(ds) && Linked(links, EdgesOf(ds, false))
  {
    fixed, links := {}, map[];
    for i := 0 to |ds|
      invariant fixed == SetOfNodes(ds[..i]) && Linked(links, EdgesOf(ds[..i], false))
    {
      var dev := ds[i];
      assert ds[..i + 1] == ds[..i] + [dev] && ds[..i + 1][..i] == ds[..i];
      SetOfNodesAppend(ds[..i], [dev]);
      if Joins(dev, false) {
        var e := EndsOf(dev);
        PushBoth(links, EdgesOf(ds[..i], false), e);
        links := Push(Push(links, e.0, e.1), e.1, e.0);
      } else {
        fixed := fixed + DcTerminals(dev);
      }
    }
    assert ds[..|ds|] == ds;
  }

  method LevelGraph(ds: seq<Device>) returns (fixed: set<Node>, links: Links)
    ensures fixed == HoldingNodes(ds) && Linked(links, EdgesOf(ds, true))
  {
    fixed, links := {}, map[];
    for i := 0 to |ds|
      invariant fixed == HoldingNodes(ds[..i]) && Linked(links, EdgesOf(ds[..i], true))
    {
      var dev := ds[i];
      assert ds[..i + 1] == ds[..i] + [dev] && ds[..i + 1][..i] == ds[..i];
      if Joins(dev, true) {
        var e := EndsOf(dev);
        PushBoth(links, EdgesOf(ds[..i], true), e);
        links := Push(Push(links, e.0, e.1), e.1, e.0);
      } else {
        fixed := fixed + Holding(dev);
      }
    }
    assert ds[..|ds|] == ds;
  }

  // ---------------------------------------------------------------------------------------------
  // Floating clusters
  // ---------------------------------------------------------------------------------------------

  /** Nothing the gate is joined to is ground or held. */
  ghost predicate Floating(es: seq<Edge>, fixed: set<Node>, gate: Node) {
    forall n: Node :: Connected(es, gate, n) ==> n != GROUND && n !in fixed
  }

  ghost function Reach(links: Links, gate: Node): set<Node> {
    {gate} + set x, y | x in links && y in links[x] :: y
  }

  /** Everything the worklist has met is joined to the gate, and nothing it has left behind is unmet. */
  ghost predicate Searching(es: seq<Edge>, links: Links, gate: Node, cluster: set<Node>, todo: seq<Node>) {
    && (gate in cluster || gate in todo)
    && (forall n :: n in cluster || n in todo ==> Connected(es, gate, n) && n in Reach(links, gate))
    && (forall x, y :: x in cluster && x in links && y in links[x] ==> y in cluster || y in todo)
  }

  lemma SearchStep(es: seq<Edge>, links: Links, gate: Node, cluster: set<Node>, todo: seq<Node>, n: Node)
    requires Linked(links, es) && Searching(es, links, gate, cluster, todo + [n])
    ensures n in cluster ==> Searching(es, links, gate, cluster, todo)
    ensures Searching(es, links, gate, cluster + {n}, todo + if n in links then links[n] else [])
  {
    ConnectedIsEquivalence(es);
    assert n in todo + [n];
    var next := if n in links then links[n] else [];
    forall y | y in next
      ensures Connected(es, gate, y) && y in Reach(links, gate)
    {
      assert (n, y) in es || (y, n) in es;
      assert Connected(es, n, y);
    }
    forall x | x in cluster || x in todo
      ensures Connected(es, gate, x) && x in Reach(links, gate)
    {
      assert x in cluster || x in todo + [n];
    }
    forall x, y | x in cluster + {n} && x in links && y in links[x]
      ensures y in cluster + {n} || y in todo + next
    {
      if x != n {
        assert y in cluster || y in todo + [n];
      }
    }
  }

  lemma SearchMeets(es: seq<Edge>, links: Links, gate: Node, cluster: set<Node>, todo: seq<Node>, n: Node)
    requires Searching(es, links, gate, cluster, todo + [n])
    ensures Connected(es, gate, n)
    ensures n !in cluster ==> |Reach(links, gate) - (cluster + {n})| < |Reach(links, gate) - cluster|
  {
    assert n in todo + [n];
    assert Reach(links, gate) - (cluster + {n}) == (Reach(links, gate) - cluster) - {n};
  }

  /** What the search has kept is neither ground nor held. */
  ghost predicate Clear(cluster: set<Node>, fixed: set<Node>) {
    forall n :: n in cluster ==> n != GROUND && n !in fixed
  }

  lemma SearchBegins(es: seq<Edge>, links: Links, gate: Node, fixed: set<Node>)
    ensures Searching(es, links, gate, {}, [gate]) && Clear({}, fixed)
  {
    ConnectedRefl(es, gate);
  }

  lemma ClearIsFloating(es: seq<Edge>, fixed: set<Node>, gate: Node, cluster: set<Node>)
    requires Clear(cluster, fixed) && forall n: Node :: n in cluster <==> Connected(es, gate, n)
    ensures Floating(es, fixed, gate)
  {
  }

  /** What meeting node `n` comes to. */
  lemma Meet(es: seq<Edge>, links: Links, gate: Node, fixed: set<Node>, cluster: set<Node>, rest: seq<Node>, n: Node)
    requires Linked(links, es) && Searching(es, links, gate, cluster, rest + [n]) && Clear(cluster, fixed)
    ensures n == GROUND || n in fixed ==> !Floating(es, fixed, gate)
    ensures n in cluster ==> Searching(es, links, gate, cluster, rest)
    ensures n !in cluster ==> |Reach(links, gate) - (cluster + {n})| < |Reach(links, gate) - cluster|
    ensures Searching(es, links, gate, cluster + {n}, rest + if n in links then links[n] else [])
    ensures n != GROUND && n !in fixed ==> Clear(cluster + {n}, fixed)
  {
    SearchMeets(es, links, gate, cluster, rest, n);
    SearchStep(es, links, gate, cluster, rest, n);
  }

  /** Takes one node off the worklist; false when it is ground or held. */
  method Visit(gate: Node, fixed: set<Node>, links: Links, ghost es: seq<Edge>, cluster: set<Node>, todo: seq<Node>)
    returns (clear: bool, cluster': set<Node>, todo': seq<Node>)
    requires Linked(links, es) && todo != [] && Searching(es, links, gate, cluster, todo) && Clear(cluster, fixed)
    ensures !clear ==> !Floating(es, fixed, gate)
    ensures clear ==> Searching(es, links, gate, cluster', todo') && Clear(cluster', fixed)
    ensures clear ==> |Reach(links, gate) - cluster'| < |Reach(links, gate) - cluster| || (cluster' == cluster && |todo'| < |todo|)
  {
    var n, rest := todo[|todo| - 1], todo[..|todo| - 1];
    assert todo == rest + [n];
    Meet(es, links, gate, fixed, cluster, rest, n);
    if n == GROUND || n in fixed {
      return false, cluster, rest;
    }
    if n in cluster {
      return true, cluster, rest;
    }
    return true, cluster + {n}, rest + if n in links then links[n] else [];
  }

  lemma SearchDone(es: seq<Edge>, links: Links, gate: Node, cluster: set<Node>)
    requires Linked(links, es) && Searching(es, links, gate, cluster, [])
    ensures forall n: Node :: n in cluster <==> Connected(es, gate, n)
  {
    var same := (x: Node, y: Node) => (x in cluster <==> y in cluster);
    forall e | e in es
      ensures same(e.0, e.1)
    {
      var (x, y) := e;
      assert (x, y) in es;
      assert y in links[x] && x in links[y];
    }
    forall n: Node | Connected(es, gate, n)
      ensures n in cluster
    {
      ConnectedIsLeast(es, same, gate, n);
    }
  }

  /** The nodes joined to `gate`, when none of them is ground or held. */
  method FloatingCluster(gate: Node, fixed: set<Node>, links: Links, ghost es: seq<Edge>) returns (r: Option<set<Node>>)
    requires Linked(links, es)
    ensures r.Some? <==> Floating(es, fixed, gate)
    ensures r.Some? ==> forall n: Node :: n in r.value <==> Connected(es, gate, n)
  {
    var cluster: set<Node>, todo := {}, [gate];
    SearchBegins(es, links, gate, fixed);
    while todo != []
      invariant Searching(es, links, gate, cluster, todo)
      invariant Clear(cluster, fixed)
      decreases |Reach(links, gate) - cluster|, |todo|
    {
      var clear;
      clear, cluster, todo := Visit(gate, fixed, links, es, cluster, todo);
      if !clear {
        return None;
      }
    }
    SearchDone(es, links, gate, cluster);
    ClearIsFloating(es, fixed, gate, cluster);
    r := Some(cluster);
  }

  /** All nodes of one component get the same answer. */
  lemma FloatingTogether(es: seq<Edge>, fixed: set<Node>, a: Node, b: Node)
    requires Connected(es, a, b)
    ensures Floating(es, fixed, a) <==> Floating(es, fixed, b)
  {
    ConnectedIsEquivalence(es);
  }

  /** More joins and more held nodes never set a determined node afloat. */
  lemma JoiningKeepsDetermined(es: seq<Edge>, fs: seq<Edge>, fixed: set<Node>, fixed': set<Node>, n: Node)
    requires (forall e :: e in es ==> e in fs) && fixed <= fixed' && Floating(fs, fixed', n)
    ensures Floating(es, fixed, n)
  {
    forall m: Node | Connected(es, n, m)
      ensures m != GROUND && m !in fixed
    {
      ConnectedMonotone(es, fs, n, m);
    }
  }

  /** Pairs that stay away from a node's component leave it as it is. */
  lemma AwayFromComponent(es: seq<Edge>, fs: seq<Edge>, gate: Node)
    requires forall e :: e in fs && (Connected(es, gate, e.0) || Connected(es, gate, e.1)) ==> e in es
    ensures forall n: Node :: Connected(fs, gate, n) ==> Connected(es, gate, n)
  {
    ConnectedIsEquivalence(es);
    var within := (x: Node, y: Node) => (Connected(es, gate, x) <==> Connected(es, gate, y));
    forall n: Node | Connected(fs, gate, n)
      ensures Connected(es, gate, n)
    {
      ConnectedIsLeast(fs, within, gate, n);
    }
  }

  // ---------------------------------------------------------------------------------------------
  // Undetermined gates
  // ---------------------------------------------------------------------------------------------

  /** Whether a device of that name belongs to the part. */
  predicate OfPart(name: string, reference: string) {
    && StartsWith(name, reference)
    && (|name| == |reference| || name[|reference|] in {':', '.', '_', '#'})
  }

  predicate Touches(d: Device, cluster: set<Node>) {
    NodesOf(d) * cluster != {}
  }

  /** Some device on the cluster belongs to the part. */
  predicate StampedThere(ds: seq<Device>, cluster: set<Node>, reference: string) {
    exists d :: d in ds && Touches(d, cluster) && OfPart(d.name, reference)
  }

  /** The pins on the cluster that could drive it, of parts with no device there. */
  function DrivingPins(ps: seq<PartPin>, ds: seq<Device>, cluster: set<Node>): seq<PartPin> {
    if ps == [] then []
    else
      var p := ps[0];
      (if p.canDrive && p.node in cluster && !StampedThere(ds, cluster, p.reference) then [p] else [])
      + DrivingPins(ps[1..], ds, cluster)
  }

  function DeviceIdOf(i: nat): DeviceId {
    if i <= U32_MAX then i else U32_MAX
  }

  /** The part the board's metadata gives for a device, or else the device's own name. */
  function ReferenceOf(metas: seq<DeviceMeta>, device: DeviceId, name: string): string {
    if metas == [] then name
    else if metas[0].device == device then metas[0].reference
    else ReferenceOf(metas[1..], device, name)
  }

  ghost function ClusterOf(es: seq<Edge>, gate: Node): set<Node> {
    var near := {gate} + (set e | e in es :: e.0) + (set e | e in es :: e.1);
    set n | n in near && Connected(es, gate, n)
  }

  lemma ClusterHoldsComponent(es: seq<Edge>, gate: Node, n: Node)
    ensures n in ClusterOf(es, gate) <==> Connected(es, gate, n)
  {
    ConnectedIsEquivalence(es);
    if Connected(es, gate, n) && forall e :: e in es ==> e.0 != n && e.1 != n {
      ConnectedIsolated(es, n, gate);
    }
  }

  /** What is found at device `i`. */
  ghost function GateAt(b: Board, i: nat): Option<UndeterminedGate>
    requires i < |b.devices|
  {
    var d, es := b.devices[i], EdgesOf(b.devices, false);
    if !d.Mosfet? || !Floating(es, SetOfNodes(b.devices), d.g) then None
    else
      var pins := DrivingPins(b.partPins, b.devices, ClusterOf(es, d.g));
      if pins == [] then None
      else Some(UndeterminedGate(ReferenceOf(b.deviceMeta, DeviceIdOf(i), d.name), DeviceIdOf(i), pins))
  }

  ghost function GatesUpTo(b: Board, k: nat): seq<UndeterminedGate>
    requires k <= |b.devices|
  {
    if k == 0 then []
    else GatesUpTo(b, k - 1) + if GateAt(b, k - 1).Some? then [GateAt(b, k - 1).value] else []
  }

  ghost function GatesOf(b: Board): seq<UndeterminedGate> {
    GatesUpTo(b, |b.devices|)
  }

  method UndeterminedGates(bound: BoundBoard) returns (found: seq<UndeterminedGate>)
    ensures found == GatesOf(bound.View())
  {
    var devices := bound.devices;
    var fixed, links := DcGraph(devices);
    ghost var es := EdgesOf(devices, false);
    found := [];
    for i := 0 to |devices|
      invariant found == GatesUpTo(bound.View(), i)
    {
      var dev := devices[i];
      if !dev.Mosfet? {
        continue;
      }
      var cluster := FloatingCluster(dev.g, fixed, links, es);
      if cluster.None? {
        continue;
      }
      assert cluster.value == ClusterOf(es, dev.g) by {
        forall n: Node
          ensures n in cluster.value <==> n in ClusterOf(es, dev.g)
        {
          ClusterHoldsComponent(es, dev.g, n);
        }
      }
      var pins := DrivingPins(bound.partPins, devices, cluster.value);
      if pins == [] {
        continue;
      }
      var device := DeviceIdOf(i);
      found := found + [UndeterminedGate(ReferenceOf(bound.deviceMeta, device, dev.name), device, pins)];
    }
  }

  /** The named nodes whose level the netlist holds. */
  method DcDeterminedNodes(bound: BoundBoard) returns (r: set<Node>)
    ensures r == set name | name in bound.netNodes
                            && !Floating(EdgesOf(bound.devices, true), HoldingNodes(bound.devices), bound.netNodes[name])
                          :: bound.netNodes[name]
  {
    var fixed, links := LevelGraph(bound.devices);
    ghost var es := EdgesOf(bound.devices, true);
    r := {};
    var names := bound.netNodes.Keys;
    ghost var seen: set<string> := {};
    while names != {}
      invariant names !! seen && names + seen == bound.netNodes.Keys
      invariant r == set name | name in seen && !Floating(es, fixed, bound.netNodes[name]) :: bound.netNodes[name]
    {
      var name :| name in names;
      var cluster := FloatingCluster(bound.netNodes[name], fixed, links, es);
      if cluster.None? {
        r := r + {bound.netNodes[name]};
      }
      names, seen := names - {name}, seen + {name};
    }
    assert seen == bound.netNodes.Keys;
  }

  // ---------------------------------------------------------------------------------------------
  // Holding off
  // ---------------------------------------------------------------------------------------------

  function HoldResistor(reference: string, d: Device): Device
    requires d.Mosfet?
  {
    Resistor(reference + ":gate-hold", d.g, d.s, HOLD_OHMS)
  }

  function DropMeta(metas: seq<DeviceMeta>, reference: string): seq<DeviceMeta> {
    if metas == [] then []
    else (if metas[0].reference != reference then [metas[0]] else []) + DropMeta(metas[1..], reference)
  }

  /** The devices and their metadata with every gate of the list held. */
  function HoldSpec(ds: seq<Device>, metas: seq<DeviceMeta>, gates: seq<UndeterminedGate>): (seq<Device>, seq<DeviceMeta>)
    decreases |gates|
  {
    if gates == [] then (ds, metas)
    else
      var gate := gates[0];
      if gate.device < |ds| && ds[gate.device].Mosfet?
      then HoldSpec(ds + [HoldResistor(gate.reference, ds[gate.device])], DropMeta(metas, gate.reference), gates[1..])
      else HoldSpec(ds, metas, gates[1..])
  }

  method HoldOff(bound: BoundBoard, gates: seq<UndeterminedGate>)
    requires |bound.devices| + |gates| <= U32_MAX + 1
    modifies bound
    ensures (bound.devices, bound.deviceMeta) == HoldSpec(old(bound.devices), old(bound.deviceMeta), gates)
    ensures bound.View() == old(bound.View()).(devices := bound.devices, deviceMeta := bound.deviceMeta)
  {
    for i := 0 to |gates|
      invariant HoldSpec(bound.devices, bound.deviceMeta, gates[i..]) == HoldSpec(old(bound.devices), old(bound.deviceMeta), gates)
      invariant |bound.devices| <= |old(bound.devices)| + i
      invariant bound.View() == old(bound.View()).(devices := bound.devices, deviceMeta := bound.deviceMeta)
    {
      var gate := gates[i];
      assert gates[i..][0] == gate && gates[i..][1..] == gates[i + 1..];
      if gate.device >= |bound.devices| || !bound.devices[gate.device].Mosfet? {
        continue;
      }
      bound.devices := bound.devices + [HoldResistor(gate.reference, bound.devices[gate.device])];
      bound.deviceMeta := DropMeta(bound.deviceMeta, gate.reference);
    }
  }

  ghost function Held(b: Board, gates: seq<UndeterminedGate>): Board {
    var (devices, metas) := HoldSpec(b.devices, b.deviceMeta, gates);
    b.(devices := devices, deviceMeta := metas)
  }
}
