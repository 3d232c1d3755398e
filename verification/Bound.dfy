/** The bound board: its circuit, its net names, and every place a node id is cached. */
module Bound {
  import opened Wrappers
  import opened Connectivity
  import opened Circuit
  import opened Drivers

  datatype Mcu = Mcu(roleNets: map<string, Node>, adcNets: map<nat, Node>, gpioDrivers: map<string, PinDriver>)

  datatype Dac = Dac(voutDrivers: seq<Option<PinDriver>>, busNodes: seq<Node>)

  /** `csNet` and the power nodes are cached too, but no merge renames them. */
  datatype Peripheral = Peripheral(busNodes: seq<Node>, csNet: Option<Node>, power: Option<(Node, Node)>)

  datatype SupplyLeg = SupplyLeg(net: Node, vsource: DeviceId, resistor: DeviceId)

  datatype Converter = Converter(outNode: Node, enableNode: Option<Node>)

  datatype BehavioralDevice = BehavioralDevice(
    roleNodes: map<string, Node>, converter: Option<Converter>, seriesPaths: seq<(Node, Node)>)

  datatype Digital = Digital(roles: map<string, Node>, drivers: map<string, PinDriver>)

  /** One part pin of the bind report; no merge renames its node. */
  datatype PartPin = PartPin(reference: string, pin: string, node: Node, canDrive: bool)

  datatype DeviceMeta = DeviceMeta(device: DeviceId, reference: string)

  /** What a board is, as one value. */
  datatype Board = Board(
    devices: seq<Device>,
    netNodes: map<string, Node>,
    mcus: seq<Mcu>,
    dacs: seq<Dac>,
    peripherals: seq<Peripheral>,
    supplies: seq<SupplyLeg>,
    behavioral: seq<BehavioralDevice>,
    digital: seq<Digital>,
    deviceMeta: seq<DeviceMeta>,
    partPins: seq<PartPin>)

  class BoundBoard {
    var devices: seq<Device>
    var netNodes: map<string, Node>
    var mcus: seq<Mcu>
    var dacs: seq<Dac>
    var peripherals: seq<Peripheral>
    var supplies: seq<SupplyLeg>
    var behavioral: seq<BehavioralDevice>
    var digital: seq<Digital>
    var deviceMeta: seq<DeviceMeta>
    var partPins: seq<PartPin>

    ghost function View(): Board
      reads this
    {
      Board(devices, netNodes, mcus, dacs, peripherals, supplies, behavioral, digital, deviceMeta, partPins)
    }
  }

  // ---------------------------------------------------------------------------------------------
  // The caches under a merge
  // ---------------------------------------------------------------------------------------------

  function RenameMap<K>(to: Node, from: Node, m: map<K, Node>): map<K, Node> {
    map k | k in m :: Rename(to, from, m[k])
  }

  function RenameDrivers<K>(to: Node, from: Node, m: map<K, PinDriver>): map<K, PinDriver> {
    map k | k in m :: RenameDriver(to, from, m[k])
  }

  function RenameMcu(to: Node, from: Node, m: Mcu): Mcu {
    Mcu(RenameMap(to, from, m.roleNets), RenameMap(to, from, m.adcNets), RenameDrivers(to, from, m.gpioDrivers))
  }

  function RenameVout(to: Node, from: Node, d: Option<PinDriver>): Option<PinDriver> {
    if d.Some? then Some(RenameDriver(to, from, d.value)) else None
  }

  function RenameDac(to: Node, from: Node, d: Dac): Dac {
    Dac(seq(|d.voutDrivers|, i requires 0 <= i < |d.voutDrivers| => RenameVout(to, from, d.voutDrivers[i])),
        RenameAll(to, from, d.busNodes))
  }

  function RenamePeripheral(to: Node, from: Node, p: Peripheral): Peripheral {
    Peripheral(RenameAll(to, from, p.busNodes), p.csNet, p.power)
  }

  function RenameLeg(to: Node, from: Node, l: SupplyLeg): SupplyLeg {
    SupplyLeg(Rename(to, from, l.net), l.vsource, l.resistor)
  }

  function RenamePath(to: Node, from: Node, p: (Node, Node)): (Node, Node) {
    (Rename(to, from, p.0), Rename(to, from, p.1))
  }

  function RenameConverter(to: Node, from: Node, c: Option<Converter>): Option<Converter> {
    if c.None? then None
    else Some(Converter(Rename(to, from, c.value.outNode), RenameOption(to, from, c.value.enableNode)))
  }

  function RenameBehavioral(to: Node, from: Node, b: BehavioralDevice): BehavioralDevice {
    BehavioralDevice(
      RenameMap(to, from, b.roleNodes), RenameConverter(to, from, b.converter),
      seq(|b.seriesPaths|, i requires 0 <= i < |b.seriesPaths| => RenamePath(to, from, b.seriesPaths[i])))
  }

  function RenameDigital(to: Node, from: Node, d: Digital): Digital {
    Digital(RenameMap(to, from, d.roles), RenameDrivers(to, from, d.drivers))
  }

  function RenameMcus(to: Node, from: Node, xs: seq<Mcu>): (r: seq<Mcu>)
    ensures |r| == |xs|
    ensures forall i :: 0 <= i < |xs| ==> r[i] == RenameMcu(to, from, xs[i])
  {
    seq(|xs|, i requires 0 <= i < |xs| => RenameMcu(to, from, xs[i]))
  }

  function RenameDacs(to: Node, from: Node, xs: seq<Dac>): (r: seq<Dac>)
    ensures |r| == |xs|
    ensures forall i :: 0 <= i < |xs| ==> r[i] == RenameDac(to, from, xs[i])
  {
    seq(|xs|, i requires 0 <= i < |xs| => RenameDac(to, from, xs[i]))
  }

  function RenamePeripherals(to: Node, from: Node, xs: seq<Peripheral>): (r: seq<Peripheral>)
    ensures |r| == |xs|
    ensures forall i :: 0 <= i < |xs| ==> r[i] == RenamePeripheral(to, from, xs[i])
  {
    seq(|xs|, i requires 0 <= i < |xs| => RenamePeripheral(to, from, xs[i]))
  }

  function RenameLegs(to: Node, from: Node, xs: seq<SupplyLeg>): (r: seq<SupplyLeg>)
    ensures |r| == |xs|
    ensures forall i :: 0 <= i < |xs| ==> r[i] == RenameLeg(to, from, xs[i])
  {
    seq(|xs|, i requires 0 <= i < |xs| => RenameLeg(to, from, xs[i]))
  }

  function RenameBehaviorals(to: Node, from: Node, xs: seq<BehavioralDevice>): (r: seq<BehavioralDevice>)
    ensures |r| == |xs|
    ensures forall i :: 0 <= i < |xs| ==> r[i] == RenameBehavioral(to, from, xs[i])
  {
    seq(|xs|, i requires 0 <= i < |xs| => RenameBehavioral(to, from, xs[i]))
  }

  function RenameDigitals(to: Node, from: Node, xs: seq<Digital>): (r: seq<Digital>)
    ensures |r| == |xs|
    ensures forall i :: 0 <= i < |xs| ==> r[i] == RenameDigital(to, from, xs[i])
  {
    seq(|xs|, i requires 0 <= i < |xs| => RenameDigital(to, from, xs[i]))
  }

  // ---------------------------------------------------------------------------------------------
  // What the caches hold
  // ---------------------------------------------------------------------------------------------

  ghost function McuDrivers(ms: seq<Mcu>): set<PinDriver> {
    set m, k | m in ms && k in m.gpioDrivers :: m.gpioDrivers[k]
  }

  ghost function DacDrivers(ds: seq<Dac>): set<PinDriver> {
    set d, v | d in ds && v in d.voutDrivers && v.Some? :: v.value
  }

  ghost function DigitalDrivers(ds: seq<Digital>): set<PinDriver> {
    set d, k | d in ds && k in d.drivers :: d.drivers[k]
  }

  /** Every driver handle the board caches. */
  ghost function DriversOf(b: Board): set<PinDriver> {
    McuDrivers(b.mcus) + DacDrivers(b.dacs) + DigitalDrivers(b.digital)
  }

  ghost predicate DriversHold(b: Board, n: Node) {
    exists d :: d in DriversOf(b) && d.net == n
  }

  ghost predicate MapsHold(ms: seq<Mcu>, ds: seq<Digital>, n: Node) {
    || (exists m :: m in ms && (n in m.roleNets.Values || n in m.adcNets.Values))
    || (exists d :: d in ds && n in d.roles.Values)
  }

  ghost predicate ListsHold(ds: seq<Dac>, ps: seq<Peripheral>, ls: seq<SupplyLeg>, bs: seq<BehavioralDevice>, n: Node) {
    || (exists d :: d in ds && n in d.busNodes)
    || (exists p :: p in ps && n in p.busNodes)
    || (exists l :: l in ls && l.net == n)
    || (exists d :: d in bs && BehavioralHolds(d, n))
  }

  /** Whether one of the caches a merge renames holds `n`. */
  ghost predicate CacheHolds(b: Board, n: Node) {
    || DriversHold(b, n)
    || MapsHold(b.mcus, b.digital, n)
    || ListsHold(b.dacs, b.peripherals, b.supplies, b.behavioral, n)
  }

  ghost predicate BehavioralHolds(d: BehavioralDevice, n: Node) {
    || n in d.roleNodes.Values
    || (d.converter.Some? && (d.converter.value.outNode == n || d.converter.value.enableNode == Some(n)))
    || (exists p :: p in d.seriesPaths && (p.0 == n || p.1 == n))
  }

  /** Whether one of the caches a merge does NOT rename holds `n`. */
  ghost predicate UnrenamedCacheHolds(b: Board, n: Node) {
    || (exists p :: p in b.peripherals && (p.csNet == Some(n) ||
                                           (p.power.Some? && (p.power.value.0 == n || p.power.value.1 == n))))
    || (exists p :: p in b.partPins && p.node == n)
  }
}
