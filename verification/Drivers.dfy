/**
  Thevenin pin drivers: a handle that names, by index, the devices it stamped into a circuit and
  caches the net it drives.
 */
module Drivers {
  import opened Wrappers
  import opened Connectivity
  import opened Circuit

  /** The supply legs a driver's output current is drawn through. */
  datatype DriverSupply = DriverSupply(hi: Option<DeviceId>, lo: Option<DeviceId>)

  datatype PinDriver = PinDriver(
    vsource: DeviceId,
    net: Node,
    enabled: bool,
    roff: real,
    resistor: DeviceId,
    ron: real,
    supply: Option<DriverSupply>)

  const ROFF: real := 1000000000.0

  /** The leg's devices exist and have the kind the handle relies on. */
  predicate LegsStamped(ds: seq<Device>, d: PinDriver) {
    && d.vsource < |ds| && ds[d.vsource].Vsource?
    && d.resistor < |ds| && ds[d.resistor].Resistor?
    && (d.supply.Some? ==>
          && (d.supply.value.hi.Some? ==> d.supply.value.hi.value < |ds| && ds[d.supply.value.hi.value].Isource?)
          && (d.supply.value.lo.Some? ==> d.supply.value.lo.value < |ds| && ds[d.supply.value.lo.value].Isource?))
  }

  /** The element right after the resistor lets current flow only from `net` back to the resistor. */
  predicate OneWay(ds: seq<Device>, resistor: DeviceId, net: Node) {
    && resistor + 1 < |ds| && ds[resistor].Resistor? && ds[resistor + 1].Behavioral?
    && ds[resistor + 1].p == net && ds[resistor + 1].n == ds[resistor].b
    && !ds[resistor + 1].voltage && ds[resistor + 1].deps == [Volt(net), Volt(ds[resistor].b)]
  }

  /**
    The cached `net` is the net-side terminal of the driver's own resistor, or of the one-way
    element a sink-only driver puts after it.
   */
  predicate Coherent(ds: seq<Device>, d: PinDriver) {
    && LegsStamped(ds, d)
    && (ds[d.resistor].b == d.net || OneWay(ds, d.resistor, d.net))
  }

  /** The resistor carries the resistance the handle says the leg has. */
  predicate Tuned(ds: seq<Device>, d: PinDriver)
    requires LegsStamped(ds, d)
  {
    ds[d.resistor].ohms == if d.enabled then d.ron else d.roff
  }

  /** ASCII lower case: other letters stay as they are. */
  function LowerChar(c: char): char {
    if 'A' <= c <= 'Z' then (c as int + 32) as char else c
  }

  function Lowered(s: string): string {
    seq(|s|, i requires 0 <= i < |s| => LowerChar(s[i]))
  }

  /** Ground's own names, in any case. */
  predicate NamesGround(name: string) {
    Lowered(name) == "0" || Lowered(name) == "gnd"
  }

  /** Ground's names, letter by letter. */
  lemma GroundNames(name: string)
    ensures NamesGround(name) <==>
            name == "0" || (|name| == 3 && name[0] in "gG" && name[1] in "nN" && name[2] in "dD")
  {
    var low := Lowered(name);
    if |name| == 3 {
      assert low == "gnd" <==> low[0] == 'g' && low[1] == 'n' && low[2] == 'd';
    }
    if |name| == 1 {
      assert low == "0" <==> low[0] == '0';
    }
  }

  /** The hidden node between a leg's source and its resistor, and the one before a one-way element. */
  function DriverName(tag: string, netName: string): string {
    "__drv_" + tag + "_" + netName
  }

  function MiddleName(tag: string, netName: string): string {
    "__drvm_" + tag + "_" + netName
  }

  /** The hidden names are not ground's and not each other's, in any case. */
  lemma HiddenNames(tag: string, netName: string)
    ensures !NamesGround(DriverName(tag, netName)) && !NamesGround(MiddleName(tag, netName))
    ensures Lowered(DriverName(tag, netName)) != Lowered(MiddleName(tag, netName))
  {
    assert Lowered(DriverName(tag, netName))[5] == '_' && Lowered(MiddleName(tag, netName))[5] == 'm';
  }

  /** The part of a circuit a driver writes: its devices and its node names. */
  class Netlist {
    var devices: seq<Device>
    var nodeNames: seq<string>
    /** The node a lower-cased name stands for, ground's own names aside. */
    var nodeIndex: map<string, Node>

    ghost predicate Valid()
      reads this
    {
      && |nodeNames| > 0
      && (forall key :: key in nodeIndex ==> 0 < nodeIndex[key] < |nodeNames| && Lowered(nodeNames[nodeIndex[key]]) == key)
      && (forall i :: 0 < i < |nodeNames| ==> Lowered(nodeNames[i]) in nodeIndex)
    }

    /** The node of that name in any case, made when there is none yet. */
    method NodeNamed(name: string) returns (n: Node)
      requires Valid()
      modifies this`nodeNames, this`nodeIndex
      ensures Valid()
      ensures NamesGround(name) ==> n == GROUND && nodeNames == old(nodeNames) && nodeIndex == old(nodeIndex)
      ensures !NamesGround(name) ==> 0 < n < |nodeNames| && Lowered(nodeNames[n]) == Lowered(name)
      ensures !NamesGround(name) ==> Lowered(name) in nodeIndex && nodeIndex[Lowered(name)] == n
      ensures forall key :: key in old(nodeIndex) ==> key in nodeIndex && nodeIndex[key] == old(nodeIndex)[key]
      ensures Lowered(name) in old(nodeIndex) ==> nodeNames == old(nodeNames) && nodeIndex == old(nodeIndex)
      ensures !NamesGround(name) && Lowered(name) !in old(nodeIndex) ==>
        n == |old(nodeNames)| && nodeNames == old(nodeNames) + [name] && nodeIndex == old(nodeIndex)[Lowered(name) := n]
    {
      if NamesGround(name) {
        return GROUND;
      }
      var lowered := Lowered(name);
      if lowered in nodeIndex {
        return nodeIndex[lowered];
      }
      n := |nodeNames|;
      nodeNames := nodeNames + [name];
      nodeIndex := nodeIndex[lowered := n];
    }

    method Add(d: Device) returns (id: DeviceId)
      modifies this`devices
      ensures id == |old(devices)| && devices == old(devices) + [d]
    {
      id := |devices|;
      devices := devices + [d];
    }

    /** Stamps a Thevenin leg onto `net`; `tag` and `netName` name the hidden node. */
    method Stamp(net: Node, netName: string, tag: string, ro: real) returns (d: PinDriver)
      requires Valid()
      modifies this
      ensures Valid()
      ensures Lowered(DriverName(tag, netName)) in nodeIndex && nodeIndex[Lowered(DriverName(tag, netName))] != GROUND
      ensures var drv := nodeIndex[Lowered(DriverName(tag, netName))];
              devices == old(devices) + [Vsource("Vdrv_" + tag, drv, GROUND, 0.0), Resistor("Rdrv_" + tag, drv, net, ro)]
      ensures d == PinDriver(|old(devices)|, net, true, 1000000000.0, |old(devices)| + 1, ro, None)
      ensures Coherent(devices, d) && Tuned(devices, d)
    {
      HiddenNames(tag, netName);
      var drv := NodeNamed(DriverName(tag, netName));
      var vsource := Add(Vsource("Vdrv_" + tag, drv, GROUND, 0.0));
      var resistor := Add(Resistor("Rdrv_" + tag, drv, net, ro));
      d := PinDriver(vsource, net, true, ROFF, resistor, ro, None);
    }

    /** Stamps a leg that can only pull `net` down: a one-way element sits before the resistor. */
    method StampSinkOnly(net: Node, netName: string, tag: string, ro: real)
      returns (d: PinDriver)
      requires Valid()
      modifies this
      ensures Valid()
      ensures Lowered(DriverName(tag, netName)) in nodeIndex && nodeIndex[Lowered(DriverName(tag, netName))] != GROUND
      ensures Lowered(MiddleName(tag, netName)) in nodeIndex && nodeIndex[Lowered(MiddleName(tag, netName))] != GROUND
      ensures var drv, mid := nodeIndex[Lowered(DriverName(tag, netName))], nodeIndex[Lowered(MiddleName(tag, netName))];
              && drv != mid
              && devices == old(devices) + [Vsource("Vdrv_" + tag, drv, GROUND, 0.0), Resistor("Rdrv_" + tag, drv, mid, ro),
                                            Behavioral("Bdrv_" + tag, net, mid, false, [Volt(net), Volt(mid)])]
      ensures d == PinDriver(|old(devices)|, net, true, 1000000000.0, |old(devices)| + 1, ro, None)
      ensures Coherent(devices, d) && Tuned(devices, d) && OneWay(devices, d.resistor, net)
    {
      HiddenNames(tag, netName);
      var drv := NodeNamed(DriverName(tag, netName));
      var mid := NodeNamed(MiddleName(tag, netName));
      var vsource := Add(Vsource("Vdrv_" + tag, drv, GROUND, 0.0));
      var resistor := Add(Resistor("Rdrv_" + tag, drv, mid, ro));
      var _ := Add(Behavioral("Bdrv_" + tag, net, mid, false, [Volt(net), Volt(mid)]));
      d := PinDriver(vsource, net, true, ROFF, resistor, ro, None);
    }

    /** Draws the driver's current from supply pins `hi` and `lo` instead of ground. */
    method RouteSupply(d: PinDriver, tag: string, hi: Node, lo: Node) returns (r: PinDriver)
      requires Coherent(devices, d)
      modifies this`devices
      ensures old(devices) <= devices && Coherent(devices, r)
      ensures hi == GROUND ==> r == d && devices == old(devices)
      ensures hi != GROUND ==>
        && r == PinDriver(d.vsource, d.net, d.enabled, d.roff, d.resistor, d.ron,
                          Some(DriverSupply(Some(|old(devices)|), if lo == GROUND then None else Some(|old(devices)| + 1))))
        && devices == old(devices) + [Isource("Idrh_" + tag, hi, GROUND, 0.0)]
                      + if lo == GROUND then [] else [Isource("Idrl_" + tag, lo, GROUND, 0.0)]
    {
      if hi == GROUND {
        return d;
      }
      var h := Add(Isource("Idrh_" + tag, hi, GROUND, 0.0));
      var l: Option<DeviceId> := None;
      if lo != GROUND {
        var id := Add(Isource("Idrl_" + tag, lo, GROUND, 0.0));
        l := Some(id);
      }
      r := PinDriver(d.vsource, d.net, d.enabled, d.roff, d.resistor, d.ron, Some(DriverSupply(Some(h), l)));
    }

    /** Returns a sink-only driver's current into supply pin `lo`, and draws nothing from a positive one. */
    method RouteReturn(d: PinDriver, tag: string, lo: Node) returns (r: PinDriver)
      requires Coherent(devices, d)
      modifies this`devices
      ensures old(devices) <= devices && Coherent(devices, r)
      ensures lo == GROUND ==> r == d && devices == old(devices)
      ensures lo != GROUND ==>
        && r == PinDriver(d.vsource, d.net, d.enabled, d.roff, d.resistor, d.ron, Some(DriverSupply(None, Some(|old(devices)|))))
        && devices == old(devices) + [Isource("Idrl_" + tag, lo, GROUND, 0.0)]
    {
      if lo == GROUND {
        return d;
      }
      var id := Add(Isource("Idrl_" + tag, lo, GROUND, 0.0));
      r := PinDriver(d.vsource, d.net, d.enabled, d.roff, d.resistor, d.ron, Some(DriverSupply(None, Some(id))));
    }

    /** Sets the currents the supply legs carry: `sourced` leaves the one, `sunk` the other. */
    method SetSupply(s: DriverSupply, sourced: real, sunk: real)
      modifies this`devices
      ensures |devices| == |old(devices)|
      ensures forall i: nat :: i < |devices| ==>
                if old(devices)[i].Isource? && s.lo == Some(i) then SameButAmps(old(devices)[i], devices[i], sunk)
                else if old(devices)[i].Isource? && s.hi == Some(i) then SameButAmps(old(devices)[i], devices[i], sourced)
                else devices[i] == old(devices)[i]
    {
      SetLeg(s.hi, sourced);
      SetLeg(s.lo, sunk);
    }

    method SetLeg(leg: Option<DeviceId>, amps: real)
      modifies this`devices
      ensures |devices| == |old(devices)|
      ensures forall i: nat :: i < |devices| ==>
                if old(devices)[i].Isource? && leg == Some(i) then SameButAmps(old(devices)[i], devices[i], amps)
                else devices[i] == old(devices)[i]
    {
      if leg.Some? && leg.value < |devices| && devices[leg.value].Isource? {
        var x := devices[leg.value];
        devices := devices[leg.value := Isource(x.name, x.p, x.n, amps)];
      }
    }

    /** Sets the target voltage; a tri-stated leg keeps the one it had. */
    method SetVolts(d: PinDriver, volts: real)
      requires Coherent(devices, d)
      modifies this`devices
      ensures Coherent(devices, d) && (old(Tuned(devices, d)) ==> Tuned(devices, d))
      ensures d.enabled ==>
        devices == old(devices)[d.vsource := Vsource(old(devices)[d.vsource].name, old(devices)[d.vsource].p,
                                                     old(devices)[d.vsource].n, volts)]
      ensures !d.enabled ==> devices == old(devices)
    {
      if d.enabled {
        var v := devices[d.vsource];
        devices := devices[d.vsource := Vsource(v.name, v.p, v.n, volts)];
      }
    }

    /** Retunes the active resistance; a tri-stated leg takes it when it is enabled again. */
    method SetRon(d: PinDriver, ron: real) returns (r: PinDriver)
      requires Coherent(devices, d) && Tuned(devices, d)
      modifies this`devices
      ensures r == PinDriver(d.vsource, d.net, d.enabled, d.roff, d.resistor, ron, d.supply)
      ensures Coherent(devices, r) && Tuned(devices, r)
      ensures SameButResistance(old(devices), devices, d.resistor)
    {
      r := PinDriver(d.vsource, d.net, d.enabled, d.roff, d.resistor, ron, d.supply);
      if d.enabled {
        var x := devices[d.resistor];
        devices := devices[d.resistor := Resistor(x.name, x.a, x.b, ron)];
      }
    }

    /** Enables or tri-states the leg by swapping its series resistance. */
    method SetEnabled(d: PinDriver, enabled: bool) returns (r: PinDriver)
      requires Coherent(devices, d) && Tuned(devices, d)
      modifies this`devices
      ensures r == PinDriver(d.vsource, d.net, enabled, d.roff, d.resistor, d.ron, d.supply)
      ensures Coherent(devices, r) && Tuned(devices, r)
      ensures SameButResistance(old(devices), devices, d.resistor)
    {
      if enabled == d.enabled {
        return d;
      }
      r := PinDriver(d.vsource, d.net, enabled, d.roff, d.resistor, d.ron, d.supply);
      var x := devices[d.resistor];
      devices := devices[d.resistor := Resistor(x.name, x.a, x.b, if enabled then d.ron else d.roff)];
    }
  }

  predicate SameButAmps(was: Device, now: Device, amps: real) {
    was.Isource? && now == Isource(was.name, was.p, was.n, amps)
  }

  predicate SameButResistance(was: seq<Device>, now: seq<Device>, r: DeviceId) {
    && |was| == |now|
    && (forall i :: 0 <= i < |was| && i != r ==> now[i] == was[i])
    && (r < |was| ==>
          && was[r].Resistor? && now[r].Resistor?
          && now[r].name == was[r].name && now[r].a == was[r].a && now[r].b == was[r].b)
  }

  /** Parts added to a circuit leave every stamped driver coherent. */
  lemma CoherentAfterAppend(ds: seq<Device>, more: seq<Device>, d: PinDriver)
    requires Coherent(ds, d)
    ensures Coherent(ds + more, d)
  {
  }

  /** Retuning one driver leaves every other driver coherent. */
  lemma CoherentAfterRetune(was: seq<Device>, now: seq<Device>, r: DeviceId, d: PinDriver)
    requires SameButResistance(was, now, r) && Coherent(was, d)
    ensures Coherent(now, d)
  {
  }

  function RenameDriver(to: Node, from: Node, d: PinDriver): PinDriver {
    PinDriver(d.vsource, Rename(to, from, d.net), d.enabled, d.roff, d.resistor, d.ron, d.supply)
  }

  function RenameDevices(to: Node, from: Node, ds: seq<Device>): (r: seq<Device>)
    ensures |r| == |ds|
    ensures forall i :: 0 <= i < |ds| ==> r[i] == MapNodes(to, from, ds[i])
  {
    seq(|ds|, i requires 0 <= i < |ds| => MapNodes(to, from, ds[i]))
  }

  /** A driver stays coherent when a merge renames both its handle and the devices it names. */
  lemma CoherentAfterMerge(to: Node, from: Node, ds: seq<Device>, d: PinDriver)
    requires Coherent(ds, d)
    ensures Coherent(RenameDevices(to, from, ds), RenameDriver(to, from, d))
  {
    if OneWay(ds, d.resistor, d.net) {
      assert RenameDeps(to, from, [Volt(d.net), Volt(ds[d.resistor].b)]) ==
             [Volt(Rename(to, from, d.net)), Volt(Rename(to, from, ds[d.resistor].b))];
    }
  }
}
