/**
  The as-built overlay on the bound board.  Each entry kind is one method that changes the board in
  place, proved against a function on board values; what those functions do to the connectivity is
  proved in AsBuiltProofs.
 */
module AsBuilt {
  import opened Wrappers
  import opened Connectivity
  import opened Circuit
  import opened Drivers
  import opened Bound
  import opened Text

  /** The first node id handed to a floated terminal. */
  const FLOAT_NODE_BASE: Node := 800_000

  datatype SetValues = SetValues(ohms: Option<real>, farads: Option<real>, von: Option<real>, voff: Option<real>)
  datatype Replace = Replace(reference: string, was: Option<SetValues>, fitted: SetValues, expectMatches: Option<nat>)
  datatype Cut = Cut(netGlob: string, role: Role, expectMatches: Option<nat>)
  datatype Lift = Lift(reference: string, role: Role)
  datatype Jumper = Jumper(from: string, to: string)
  datatype Fit = Fit(reference: string, from: string, to: string, ohms: Option<real>, farads: Option<real>)
  datatype Overlay = Overlay(
    swaps: seq<Replace>, cuts: seq<Cut>, lifts: seq<Lift>, jumpers: seq<Jumper>, fits: seq<Fit>)

  datatype Key = Ohms | Farads | Von | Voff

  datatype Error =
    | UnknownRef(filteredOut: nat)
    | UnknownNet
    | MatchCount(expected: nat, got: nat)
    | KeyVariantMismatch(key: Key)
    | EmptySet
    | NodeSpace(maxSeen: Node)
    | JumperSelf
    | FitRefCollision
    | FitValue
    | FitSelf

  function GetOr<T>(o: Option<T>, default: T): T {
    if o.Some? then o.value else default
  }

  // ---------------------------------------------------------------------------------------------
  // replace
  // ---------------------------------------------------------------------------------------------

  function Abs(x: real): real {
    if x < 0.0 then -x else x
  }

  /** A declared value matches a device's own within one percent; a value the device lacks does not. */
  predicate Near(declared: Option<real>, actual: Option<real>) {
    declared.None? || (actual.Some? && Abs(actual.value - declared.value) < 0.01 * Abs(declared.value))
  }

  predicate MatchesCurrent(w: SetValues, d: Device) {
    && Near(w.ohms, if d.Resistor? then Some(d.ohms) else None)
    && Near(w.farads, if d.Capacitor? then Some(d.farads) else None)
    && Near(w.von, if d.VSwitch? then Some(d.von) else None)
    && Near(w.voff, if d.VSwitch? then Some(d.voff) else None)
  }

  predicate ReplaceHits(rep: Replace, d: Device) {
    Contains(d.name, rep.reference) && (rep.was.None? || MatchesCurrent(rep.was.value, d))
  }

  function Indices(ds: seq<Device>, k: nat, p: Device -> bool): seq<nat>
    requires k <= |ds|
  {
    if k == 0 then [] else Indices(ds, k - 1, p) + if p(ds[k - 1]) then [k - 1] else []
  }

  /** The device with the fitted values, keys tried in order, or the key its variant has not. */
  function SetDevice(d: Device, v: SetValues): Result<Device, Error> {
    if v.ohms.Some? && !d.Resistor? then Err(KeyVariantMismatch(Ohms))
    else
      var d1 := if v.ohms.Some? then Resistor(d.name, d.a, d.b, v.ohms.value) else d;
      if v.farads.Some? && !d1.Capacitor? then Err(KeyVariantMismatch(Farads))
      else
        var d2 := if v.farads.Some? then Capacitor(d1.name, d1.a, d1.b, v.farads.value) else d1;
        if v.von.Some? && !d2.VSwitch? then Err(KeyVariantMismatch(Von))
        else
          var d3 := if v.von.Some? then VSwitch(d2.name, d2.a, d2.b, d2.ctrlP, d2.ctrlN, v.von.value, d2.voff) else d2;
          if v.voff.Some? && !d3.VSwitch? then Err(KeyVariantMismatch(Voff))
          else if v.voff.Some? then Ok(VSwitch(d3.name, d3.a, d3.b, d3.ctrlP, d3.ctrlN, d3.von, v.voff.value))
          else Ok(d3)
  }

  function SetHits(ds: seq<Device>, hits: seq<nat>, v: SetValues): Result<seq<Device>, Error>
    decreases |hits|
  {
    if hits == [] then Ok(ds)
    else if hits[0] >= |ds| then SetHits(ds, hits[1..], v)
    else
      match SetDevice(ds[hits[0]], v)
      case Err(e) => Err(e)
      case Ok(d) => SetHits(ds[hits[0] := d], hits[1..], v)
  }

  predicate IsEmptySet(v: SetValues) {
    v.ohms.None? && v.farads.None? && v.von.None? && v.voff.None?
  }

  function ReplaceSpec(b: Board, rep: Replace): Result<Board, Error> {
    var hits := Indices(b.devices, |b.devices|, (d: Device) => ReplaceHits(rep, d));
    var named := Indices(b.devices, |b.devices|, (d: Device) => Contains(d.name, rep.reference));
    var expected := GetOr(rep.expectMatches, 1);
    if IsEmptySet(rep.fitted) then Err(EmptySet)
    else if hits == [] then Err(UnknownRef(|named|))
    else if |hits| != expected then Err(MatchCount(expected, |hits|))
    else
      match SetHits(b.devices, hits, rep.fitted)
      case Err(e) => Err(e)
      case Ok(ds) => Ok(b.(devices := ds))
  }

  lemma IndicesInRange(ds: seq<Device>, k: nat, p: Device -> bool)
    requires k <= |ds|
    ensures forall h :: h in Indices(ds, k, p) ==> h < k
  {
  }

  /** The devices the entry hits, and how many its reference names at all. */
  method FindHits(ds: seq<Device>, rep: Replace) returns (hits: seq<nat>, nameMatches: nat)
    ensures hits == Indices(ds, |ds|, (d: Device) => ReplaceHits(rep, d))
    ensures nameMatches == |Indices(ds, |ds|, (d: Device) => Contains(d.name, rep.reference))|
  {
    ghost var isHit := (d: Device) => ReplaceHits(rep, d);
    ghost var isNamed := (d: Device) => Contains(d.name, rep.reference);
    nameMatches, hits := 0, [];
    for i := 0 to |ds|
      invariant hits == Indices(ds, i, isHit)
      invariant nameMatches == |Indices(ds, i, isNamed)|
    {
      if !Contains(ds[i].name, rep.reference) {
        continue;
      }
      nameMatches := nameMatches + 1;
      if rep.was.None? || MatchesCurrent(rep.was.value, ds[i]) {
        hits := hits + [i];
      }
    }
  }

  method ApplyReplace(b: BoundBoard, rep: Replace) returns (r: Result<(), Error>)
    modifies b`devices
    ensures match ReplaceSpec(old(b.View()), rep)
            case Ok(v) => r.Ok? && b.View() == v
            case Err(e) => r == Err(e)
  {
    if IsEmptySet(rep.fitted) {
      return Err(EmptySet);
    }
    var hits, nameMatches := FindHits(b.devices, rep);
    if hits == [] {
      return Err(UnknownRef(nameMatches));
    }
    var expected := GetOr(rep.expectMatches, 1);
    if |hits| != expected {
      return Err(MatchCount(expected, |hits|));
    }
    IndicesInRange(b.devices, |b.devices|, (d: Device) => ReplaceHits(rep, d));
    for i := 0 to |hits|
      invariant |b.devices| == |old(b.devices)|
      invariant SetHits(b.devices, hits[i..], rep.fitted) == SetHits(old(b.devices), hits, rep.fitted)
    {
      var h := hits[i];
      assert h in hits;
      var set1 := SetDevice(b.devices[h], rep.fitted);
      if set1.Err? {
        return Err(set1.error);
      }
      b.devices := b.devices[h := set1.value];
      assert hits[i..][1..] == hits[i + 1..];
    }
    r := Ok(());
  }

  // ---------------------------------------------------------------------------------------------
  // cut and lift
  // ---------------------------------------------------------------------------------------------

  /** Which transistors an entry takes a terminal of. */
  datatype Selector = OnNodes(nodes: set<Node>) | Named(reference: string)

  predicate Hits(s: Selector, role: Role, d: Device) {
    d.Bjt? &&
    match s
    case OnNodes(nodes) => RoleNode(d, role) in nodes
    case Named(reference) => Contains(d.name, reference)
  }

  /** The float id next in line once the first `k` devices were visited. */
  function NextId(ds: seq<Device>, k: nat, s: Selector, role: Role, next: Node): (id: Node)
    requires k <= |ds|
    ensures next <= id
  {
    if k == 0 then next else NextId(ds, k - 1, s, role, next) + if Hits(s, role, ds[k - 1]) then 1 else 0
  }

  /** Every hit terminal on its own fresh node, in device order. */
  function FloatDevices(ds: seq<Device>, s: Selector, role: Role, next: Node): (r: seq<Device>)
    ensures |r| == |ds|
    ensures forall i :: 0 <= i < |ds| ==>
      r[i] == if Hits(s, role, ds[i]) then SetRole(ds[i], role, NextId(ds, i, s, role, next)) else ds[i]
  {
    seq(|ds|, i requires 0 <= i < |ds| =>
      if Hits(s, role, ds[i]) then SetRole(ds[i], role, NextId(ds, i, s, role, next)) else ds[i])
  }

  function MatchedNodes(nets: map<string, Node>, glob: string): set<Node> {
    set name | name in nets && GlobMatch(glob, name) :: nets[name]
  }

  function CutSpec(b: Board, cut: Cut, next: Node): Result<(Board, Node), Error> {
    var s := OnNodes(MatchedNodes(b.netNodes, cut.netGlob));
    var next' := NextId(b.devices, |b.devices|, s, cut.role, next);
    var expected := GetOr(cut.expectMatches, 1);
    if s.nodes == {} then Err(UnknownNet)
    else if next' - next != expected then Err(MatchCount(expected, next' - next))
    else Ok((b.(devices := FloatDevices(b.devices, s, cut.role, next)), next'))
  }

  function LiftSpec(b: Board, lift: Lift, next: Node): Result<(Board, Node), Error> {
    var s := Named(lift.reference);
    var next' := NextId(b.devices, |b.devices|, s, lift.role, next);
    if Indices(b.devices, |b.devices|, (d: Device) => Contains(d.name, lift.reference)) == [] then Err(UnknownRef(0))
    else if next' - next != 1 then Err(MatchCount(1, next' - next))
    else Ok((b.(devices := FloatDevices(b.devices, s, lift.role, next)), next'))
  }

  /** The first `i` devices are floated, the others as they were. */
  ghost predicate FloatedUpTo(ds: seq<Device>, now: seq<Device>, s: Selector, role: Role, next: Node, i: nat) {
    && |now| == |ds| && i <= |ds|
    && (forall k :: 0 <= k < i ==> now[k] == FloatDevices(ds, s, role, next)[k])
    && (forall k :: i <= k < |ds| ==> now[k] == ds[k])
  }

  lemma FloatedAll(ds: seq<Device>, now: seq<Device>, s: Selector, role: Role, next: Node)
    requires FloatedUpTo(ds, now, s, role, next, |ds|)
    ensures now == FloatDevices(ds, s, role, next)
  {
  }

  method ApplyCut(b: BoundBoard, cut: Cut, next: Node) returns (r: Result<Node, Error>)
    modifies b`devices
    ensures match CutSpec(old(b.View()), cut, next)
            case Ok(v) => r == Ok(v.1) && b.View() == v.0
            case Err(e) => r == Err(e)
  {
    var matched := MatchedNodes(b.netNodes, cut.netGlob);
    if matched == {} {
      return Err(UnknownNet);
    }
    var id, severed := next, 0;
    ghost var s := OnNodes(matched);
    ghost var ds := b.devices;
    for i := 0 to |b.devices|
      invariant |b.devices| == |ds| && id == NextId(ds, i, s, cut.role, next) && severed == id - next
      invariant FloatedUpTo(ds, b.devices, s, cut.role, next, i)
    {
      var d := b.devices[i];
      if d.Bjt? && RoleNode(d, cut.role) in matched {
        b.devices := b.devices[i := SetRole(d, cut.role, id)];
        id := id + 1;
        severed := severed + 1;
      }
    }
    var expected := GetOr(cut.expectMatches, 1);
    if severed != expected {
      return Err(MatchCount(expected, severed));
    }
    FloatedAll(ds, b.devices, s, cut.role, next);
    r := Ok(id);
  }

  /** Floats the named transistors' terminals, and counts the devices the reference names. */
  method LiftAll(b: BoundBoard, lift: Lift, next: Node) returns (id: Node, nameMatches: nat)
    modifies b`devices
    ensures b.devices == FloatDevices(old(b.devices), Named(lift.reference), lift.role, next)
    ensures id == NextId(old(b.devices), |old(b.devices)|, Named(lift.reference), lift.role, next)
    ensures nameMatches == |Indices(old(b.devices), |old(b.devices)|, (d: Device) => Contains(d.name, lift.reference))|
  {
    id, nameMatches := next, 0;
    ghost var s := Named(lift.reference);
    ghost var isNamed := (d: Device) => Contains(d.name, lift.reference);
    ghost var ds := b.devices;
    for i := 0 to |b.devices|
      invariant |b.devices| == |ds| && id == NextId(ds, i, s, lift.role, next)
      invariant nameMatches == |Indices(ds, i, isNamed)|
      invariant FloatedUpTo(ds, b.devices, s, lift.role, next, i)
    {
      var d := b.devices[i];
      if Contains(d.name, lift.reference) {
        nameMatches := nameMatches + 1;
        if d.Bjt? {
          b.devices := b.devices[i := SetRole(d, lift.role, id)];
          id := id + 1;
        }
      }
    }
    FloatedAll(ds, b.devices, s, lift.role, next);
  }

  method ApplyLift(b: BoundBoard, lift: Lift, next: Node) returns (r: Result<Node, Error>)
    modifies b`devices
    ensures match LiftSpec(old(b.View()), lift, next)
            case Ok(v) => r == Ok(v.1) && b.View() == v.0
            case Err(e) => r == Err(e)
  {
    var id, nameMatches := LiftAll(b, lift, next);
    if nameMatches == 0 {
      return Err(UnknownRef(0));
    }
    var lifted := id - next;
    if lifted != 1 {
      return Err(MatchCount(1, lifted));
    }
    r := Ok(id);
  }

  // ---------------------------------------------------------------------------------------------
  // jumper
  // ---------------------------------------------------------------------------------------------

  function RenameBoard(b: Board, to: Node, from: Node): Board {
    Board(
      RenameDevices(to, from, b.devices),
      RenameMap(to, from, b.netNodes),
      RenameMcus(to, from, b.mcus),
      RenameDacs(to, from, b.dacs),
      RenamePeripherals(to, from, b.peripherals),
      RenameLegs(to, from, b.supplies),
      RenameBehaviorals(to, from, b.behavioral),
      RenameDigitals(to, from, b.digital),
      b.deviceMeta,
      b.partPins)
  }

  function JumperSpec(b: Board, j: Jumper): Result<Board, Error> {
    if j.from !in b.netNodes || j.to !in b.netNodes then Err(UnknownNet)
    else if b.netNodes[j.from] == b.netNodes[j.to] then Err(JumperSelf)
    else Ok(RenameBoard(b, b.netNodes[j.to], b.netNodes[j.from]))
  }

  /** Renames the values of a map in place, one key at a time. */
  method RenameValues(m: map<string, Node>, to: Node, from: Node) returns (r: map<string, Node>)
    ensures r == RenameMap(to, from, m)
  {
    r := m;
    var todo := m.Keys;
    while todo != {}
      invariant todo <= m.Keys && r.Keys == m.Keys
      invariant forall k :: k in m ==> r[k] == if k in todo then m[k] else Rename(to, from, m[k])
      decreases |todo|
    {
      var k :| k in todo;
      if r[k] == to {
        r := r[k := from];
      }
      todo := todo - {k};
    }
  }

  method ApplyJumper(b: BoundBoard, j: Jumper) returns (r: Result<(), Error>)
    modifies b
    ensures match JumperSpec(old(b.View()), j)
            case Ok(v) => r.Ok? && b.View() == v
            case Err(e) => r == Err(e) && b.View() == old(b.View())
  {
    if j.from !in b.netNodes || j.to !in b.netNodes {
      return Err(UnknownNet);
    }
    var from, to := b.netNodes[j.from], b.netNodes[j.to];
    if from == to {
      return Err(JumperSelf);
    }
    RenameInPlace(b, to, from);
    r := Ok(());
  }

  /** Renames the terminals, the net names and every listed cache. */
  method RenameInPlace(b: BoundBoard, to: Node, from: Node)
    modifies b
    ensures b.View() == RenameBoard(old(b.View()), to, from)
  {
    RenameTerminals(b, to, from);
    b.netNodes := RenameValues(b.netNodes, to, from);
    RenameCaches(b, to, from);
  }

  method RenameCaches(b: BoundBoard, to: Node, from: Node)
    modifies b`mcus, b`dacs, b`peripherals, b`supplies, b`behavioral, b`digital
    ensures b.mcus == RenameMcus(to, from, old(b.mcus)) && b.dacs == RenameDacs(to, from, old(b.dacs))
    ensures b.peripherals == RenamePeripherals(to, from, old(b.peripherals)) && b.supplies == RenameLegs(to, from, old(b.supplies))
    ensures b.behavioral == RenameBehaviorals(to, from, old(b.behavioral))
    ensures b.digital == RenameDigitals(to, from, old(b.digital))
  {
    b.mcus := RenameMcus(to, from, b.mcus);
    b.dacs := RenameDacs(to, from, b.dacs);
    b.peripherals := RenamePeripherals(to, from, b.peripherals);
    b.supplies := RenameLegs(to, from, b.supplies);
    b.behavioral := RenameBehaviorals(to, from, b.behavioral);
    b.digital := RenameDigitals(to, from, b.digital);
  }

  /** Renames every device's terminals in place. */
  method RenameTerminals(b: BoundBoard, to: Node, from: Node)
    modifies b`devices
    ensures b.devices == RenameDevices(to, from, old(b.devices))
  {
    ghost var was := b.devices;
    for i := 0 to |b.devices|
      invariant |b.devices| == |was|
      invariant forall k :: 0 <= k < i ==> b.devices[k] == MapNodes(to, from, was[k])
      invariant forall k :: i <= k < |was| ==> b.devices[k] == was[k]
    {
      b.devices := b.devices[i := MapNodes(to, from, b.devices[i])];
    }
    assert b.devices == RenameDevices(to, from, was);
  }

  // ---------------------------------------------------------------------------------------------
  // fit
  // ---------------------------------------------------------------------------------------------

  function FitSpec(b: Board, f: Fit): Result<Board, Error> {
    if exists d :: d in b.devices && d.name == f.reference then Err(FitRefCollision)
    else if f.from !in b.netNodes || f.to !in b.netNodes then Err(UnknownNet)
    else
      var x, y := b.netNodes[f.from], b.netNodes[f.to];
      if x == y then Err(FitSelf)
      else
        match (f.ohms, f.farads)
        case (Some(ohms), None) => Ok(b.(devices := b.devices + [Resistor(f.reference, x, y, ohms)]))
        case (None, Some(farads)) => Ok(b.(devices := b.devices + [Capacitor(f.reference, x, y, farads)]))
        case _ => Err(FitValue)
  }

  method ApplyFit(b: BoundBoard, f: Fit) returns (r: Result<(), Error>)
    modifies b`devices
    ensures match FitSpec(old(b.View()), f)
            case Ok(v) => r.Ok? && b.View() == v
            case Err(e) => r == Err(e) && b.View() == old(b.View())
  {
    if exists d :: d in b.devices && d.name == f.reference {
      return Err(FitRefCollision);
    }
    if f.from !in b.netNodes || f.to !in b.netNodes {
      return Err(UnknownNet);
    }
    var x, y := b.netNodes[f.from], b.netNodes[f.to];
    if x == y {
      return Err(FitSelf);
    }
    match (f.ohms, f.farads)
    case (Some(ohms), None) =>
      b.devices := b.devices + [Resistor(f.reference, x, y, ohms)];
      r := Ok(());
    case (None, Some(farads)) =>
      b.devices := b.devices + [Capacitor(f.reference, x, y, farads)];
      r := Ok(());
    case _ =>
      r := Err(FitValue);
  }

  // ---------------------------------------------------------------------------------------------
  // The whole overlay
  // ---------------------------------------------------------------------------------------------

  /** The nodes in use: device terminals and net names. */
  function NodesInUse(ds: seq<Device>, nets: map<string, Node>): set<Node> {
    (set d, n | d in ds && n in NodesOf(d) :: n) + nets.Values
  }

  function UsedNodes(b: Board): set<Node> {
    NodesInUse(b.devices, b.netNodes)
  }

  /** The largest of some nodes, 0 when there is none. */
  ghost function MaxNode(s: set<Node>): (m: Node)
    ensures forall n :: n in s ==> n <= m
    ensures m in s || (m == 0 && s == {})
  {
    if s == {} then 0
    else
      var x :| x in s;
      assert s == (s - {x}) + {x};
      var rest := MaxNode(s - {x});
      if x > rest then x else rest
  }

  /** Whether a cut or a lift can be handed ids no node of the board has. */
  predicate NodeSpaceFree(b: Board, o: Overlay) {
    (o.cuts == [] && o.lifts == []) || forall n :: n in UsedNodes(b) ==> n < FLOAT_NODE_BASE
  }

  function ReplacesFrom(b: Board, rs: seq<Replace>): Result<Board, Error>
    decreases |rs|
  {
    if rs == [] then Ok(b)
    else
      match ReplaceSpec(b, rs[0])
      case Err(e) => Err(e)
      case Ok(b') => ReplacesFrom(b', rs[1..])
  }

  function CutsFrom(b: Board, cs: seq<Cut>, next: Node): Result<(Board, Node), Error>
    decreases |cs|
  {
    if cs == [] then Ok((b, next))
    else
      match CutSpec(b, cs[0], next)
      case Err(e) => Err(e)
      case Ok(v) => CutsFrom(v.0, cs[1..], v.1)
  }

  function LiftsFrom(b: Board, ls: seq<Lift>, next: Node): Result<(Board, Node), Error>
    decreases |ls|
  {
    if ls == [] then Ok((b, next))
    else
      match LiftSpec(b, ls[0], next)
      case Err(e) => Err(e)
      case Ok(v) => LiftsFrom(v.0, ls[1..], v.1)
  }

  function JumpersFrom(b: Board, js: seq<Jumper>): Result<Board, Error>
    decreases |js|
  {
    if js == [] then Ok(b)
    else
      match JumperSpec(b, js[0])
      case Err(e) => Err(e)
      case Ok(b') => JumpersFrom(b', js[1..])
  }

  function FitsFrom(b: Board, fs: seq<Fit>): Result<Board, Error>
    decreases |fs|
  {
    if fs == [] then Ok(b)
    else
      match FitSpec(b, fs[0])
      case Err(e) => Err(e)
      case Ok(b') => FitsFrom(b', fs[1..])
  }

  /** The board after every entry, in the fixed order of the kinds, or the first failure. */
  ghost function ApplySpec(b: Board, o: Overlay): Result<Board, Error> {
    var b1 :- ReplacesFrom(b, o.swaps);
    if !NodeSpaceFree(b1, o) then Err(NodeSpace(MaxNode(UsedNodes(b1))))
    else
      var v2 :- CutsFrom(b1, o.cuts, FLOAT_NODE_BASE);
      var v3 :- LiftsFrom(v2.0, o.lifts, v2.1);
      var b4 :- JumpersFrom(v3.0, o.jumpers);
      FitsFrom(b4, o.fits)
  }

  /** The largest node of the set; ground when there is none. */
  method MaxOf(ns: set<Node>) returns (maxSeen: Node)
    ensures maxSeen == MaxNode(ns)
  {
    maxSeen := 0;
    var todo := ns;
    ghost var seen: set<Node> := {};
    while todo != {}
      invariant todo + seen == ns
      invariant forall n :: n in seen ==> n <= maxSeen
      invariant maxSeen in seen || (maxSeen == 0 && seen == {})
      decreases |todo|
    {
      var n :| n in todo;
      maxSeen := if n > maxSeen then n else maxSeen;
      todo, seen := todo - {n}, seen + {n};
    }
  }

  method CheckNodeSpace(b: BoundBoard, o: Overlay) returns (r: Result<Node, Error>)
    ensures NodeSpaceFree(b.View(), o) ==> r == Ok(FLOAT_NODE_BASE)
    ensures !NodeSpaceFree(b.View(), o) ==> r == Err(NodeSpace(MaxNode(UsedNodes(b.View()))))
  {
    if o.cuts == [] && o.lifts == [] {
      return Ok(FLOAT_NODE_BASE);
    }
    var maxSeen := MaxOf(NodesInUse(b.devices, b.netNodes));
    assert maxSeen == MaxNode(UsedNodes(b.View()));
    if maxSeen >= FLOAT_NODE_BASE {
      return Err(NodeSpace(maxSeen));
    }
    r := Ok(FLOAT_NODE_BASE);
  }

  method ApplyReplaces(b: BoundBoard, rs: seq<Replace>) returns (r: Result<(), Error>)
    modifies b`devices
    ensures match ReplacesFrom(old(b.View()), rs)
            case Ok(v) => r.Ok? && b.View() == v
            case Err(e) => r == Err(e)
  {
    for i := 0 to |rs|
      invariant ReplacesFrom(b.View(), rs[i..]) == ReplacesFrom(old(b.View()), rs)
    {
      var done := ApplyReplace(b, rs[i]);
      if done.Err? {
        return Err(done.error);
      }
      assert rs[i..][1..] == rs[i + 1..];
    }
    r := Ok(());
  }

  method ApplyCuts(b: BoundBoard, cs: seq<Cut>, first: Node) returns (r: Result<Node, Error>)
    modifies b`devices
    ensures match CutsFrom(old(b.View()), cs, first)
            case Ok(v) => r == Ok(v.1) && b.View() == v.0
            case Err(e) => r == Err(e)
  {
    var next := first;
    for i := 0 to |cs|
      invariant CutsFrom(b.View(), cs[i..], next) == CutsFrom(old(b.View()), cs, first)
    {
      var done := ApplyCut(b, cs[i], next);
      if done.Err? {
        return Err(done.error);
      }
      next := done.value;
      assert cs[i..][1..] == cs[i + 1..];
    }
    r := Ok(next);
  }

  method ApplyLifts(b: BoundBoard, ls: seq<Lift>, first: Node) returns (r: Result<Node, Error>)
    modifies b`devices
    ensures match LiftsFrom(old(b.View()), ls, first)
            case Ok(v) => r == Ok(v.1) && b.View() == v.0
            case Err(e) => r == Err(e)
  {
    var next := first;
    for i := 0 to |ls|
      invariant LiftsFrom(b.View(), ls[i..], next) == LiftsFrom(old(b.View()), ls, first)
    {
      var done := ApplyLift(b, ls[i], next);
      if done.Err? {
        return Err(done.error);
      }
      next := done.value;
      assert ls[i..][1..] == ls[i + 1..];
    }
    r := Ok(next);
  }

  method ApplyJumpers(b: BoundBoard, js: seq<Jumper>) returns (r: Result<(), Error>)
    modifies b
    ensures match JumpersFrom(old(b.View()), js)
            case Ok(v) => r.Ok? && b.View() == v
            case Err(e) => r == Err(e)
  {
    for i := 0 to |js|
      invariant JumpersFrom(b.View(), js[i..]) == JumpersFrom(old(b.View()), js)
    {
      var done := ApplyJumper(b, js[i]);
      if done.Err? {
        return Err(done.error);
      }
      assert js[i..][1..] == js[i + 1..];
    }
    r := Ok(());
  }

  method ApplyFits(b: BoundBoard, fs: seq<Fit>) returns (r: Result<(), Error>)
    modifies b`devices
    ensures match FitsFrom(old(b.View()), fs)
            case Ok(v) => r.Ok? && b.View() == v
            case Err(e) => r == Err(e)
  {
    for i := 0 to |fs|
      invariant FitsFrom(b.View(), fs[i..]) == FitsFrom(old(b.View()), fs)
    {
      var done := ApplyFit(b, fs[i]);
      if done.Err? {
        return Err(done.error);
      }
      assert fs[i..][1..] == fs[i + 1..];
    }
    r := Ok(());
  }

  /** Applies every entry to `b`; a board an entry refused must be thrown away. */
  method Apply(o: Overlay, b: BoundBoard) returns (r: Result<(), Error>)
    modifies b
    ensures match ApplySpec(old(b.View()), o)
            case Ok(v) => r.Ok? && b.View() == v
            case Err(e) => r == Err(e)
  {
    var r1 := ApplyReplaces(b, o.swaps);
    if r1.Err? {
      return Err(r1.error);
    }
    var base := CheckNodeSpace(b, o);
    if base.Err? {
      return Err(base.error);
    }
    var r2 := ApplyCuts(b, o.cuts, base.value);
    if r2.Err? {
      return Err(r2.error);
    }
    var r3 := ApplyLifts(b, o.lifts, r2.value);
    if r3.Err? {
      return Err(r3.error);
    }
    var r4 := ApplyJumpers(b, o.jumpers);
    if r4.Err? {
      return Err(r4.error);
    }
    r := ApplyFits(b, o.fits);
  }
}
