/**
  The same overlay on the static board: cuts and lifts are run on the bound board, and every
  terminal they float is traced back to the pads it severs.
 */
module StaticBoard {
  import opened Wrappers
  import opened Connectivity
  import opened Circuit
  import opened Bound
  import opened Text
  import opened AsBuilt

  datatype Net = Net(id: int, name: string)
  datatype Pin = Pin(number: string, net: Option<int>)
  datatype Component = Component(reference: string, value: string, libId: string, pins: seq<Pin>)
  datatype Extracted = Extracted(nets: seq<Net>, components: seq<Component>)

  /** A pad: a component by index, and a pin of it. */
  type Pad = (nat, nat)

  /** The pads a part's pin roles map a role to; none for a part that is not fitted or has no model. */
  type RolePads = (Component, string) -> set<string>

  /** A terminal an entry floated, and the node it left. */
  datatype FloatedTerminal = FloatedTerminal(device: string, role: Role, was: Node)
  datatype Entry = Entry(name: string, op: string, terminals: seq<FloatedTerminal>)
  datatype Unapplied = Unapplied(entry: string, refs: set<string>, nets: set<string>)

  class ExtractedBoard {
    var nets: seq<Net>
    var components: seq<Component>

    ghost function View(): Extracted
      reads this
    {
      Extracted(nets, components)
    }
  }

  // ---------------------------------------------------------------------------------------------
  // What one bound entry floated
  // ---------------------------------------------------------------------------------------------

  const ROLES: seq<Role> := [Base, Collector, Emitter]

  function MovedRoles(d: Device, d': Device, k: nat): seq<FloatedTerminal>
    requires d.Bjt? && d'.Bjt? && k <= |ROLES|
  {
    if k == 0 then []
    else
      MovedRoles(d, d', k - 1) +
      if RoleNode(d, ROLES[k - 1]) != RoleNode(d', ROLES[k - 1])
      then [FloatedTerminal(d'.name, ROLES[k - 1], RoleNode(d, ROLES[k - 1]))] else []
  }

  function MovedTerminals(d: Device, d': Device): seq<FloatedTerminal> {
    if d.Bjt? && d'.Bjt? then MovedRoles(d, d', |ROLES|) else []
  }

  /** The transistor terminals of the first `k` devices whose node differs from `before`. */
  function MovedUpTo(before: seq<Device>, after: seq<Device>, k: nat): seq<FloatedTerminal>
    requires k <= |before| && k <= |after|
  {
    if k == 0 then []
    else
      MovedUpTo(before, after, k - 1) + MovedTerminals(before[k - 1], after[k - 1])
  }

  method MovedOf(d: Device, d': Device) returns (r: seq<FloatedTerminal>)
    ensures r == MovedTerminals(d, d')
  {
    r := [];
    if !d.Bjt? || !d'.Bjt? {
      return;
    }
    for k := 0 to |ROLES|
      invariant r == MovedRoles(d, d', k)
    {
      var was, now := RoleNode(d, ROLES[k]), RoleNode(d', ROLES[k]);
      if was != now {
        r := r + [FloatedTerminal(d'.name, ROLES[k], was)];
      }
    }
  }

  method Moved(before: seq<Device>, after: seq<Device>) returns (r: seq<FloatedTerminal>)
    requires |before| == |after|
    ensures r == MovedUpTo(before, after, |before|)
  {
    r := [];
    for i := 0 to |before|
      invariant r == MovedUpTo(before, after, i)
    {
      var moved := MovedOf(before[i], after[i]);
      r := r + moved;
    }
  }

  // ---------------------------------------------------------------------------------------------
  // Tracing a terminal to its pads
  // ---------------------------------------------------------------------------------------------

  /** The component a reference stands for: the last one when several share it. */
  function IndexOf(cs: seq<Component>, reference: string): (r: Option<nat>)
    ensures r.Some? ==> r.value < |cs| && cs[r.value].reference == reference
    ensures r.None? ==> forall c :: c in cs ==> c.reference != reference
  {
    if cs == [] then None
    else if cs[|cs| - 1].reference == reference then Some(|cs| - 1)
    else IndexOf(cs[..|cs| - 1], reference)
  }

  /** The last place at or before `k` where `_q` starts. */
  function LastUnitMark(s: string, k: nat): (r: Option<nat>)
    requires k <= |s|
    ensures r.Some? ==> r.value <= k && StartsWith(s[r.value..], "_q")
  {
    if StartsWith(s[k..], "_q") then Some(k) else if k == 0 then None else LastUnitMark(s, k - 1)
  }

  predicate Digits(s: string) {
    forall c :: c in s ==> '0' <= c <= '9'
  }

  /** The part a transistor came from and its unit suffix. */
  function Owner(cs: seq<Component>, device: string): (r: Option<(nat, string)>)
    ensures r.Some? ==> r.value.0 < |cs|
  {
    match IndexOf(cs, device)
    case Some(i) => Some((i, ""))
    case None =>
      match LastUnitMark(device, |device|)
      case None => None
      case Some(k) =>
        var unit := device[k + 2..];
        match IndexOf(cs, device[..k])
        case Some(i) => if unit != "" && Digits(unit) then Some((i, "_q" + unit)) else None
        case None => None
  }

  function RoleName(r: Role): string {
    match r
    case Base => "base"
    case Collector => "collector"
    case Emitter => "emitter"
  }

  /** The ids of the nets whose name stood for node `was`. */
  function WasNets(nets: seq<Net>, netNodes: map<string, Node>, was: Node): set<int> {
    set n | n in nets && n.name in netNodes && netNodes[n.name] == was :: n.id
  }

  predicate Carries(pin: Pin, numbers: set<string>, was: set<int>) {
    pin.number in numbers && pin.net.Some? && pin.net.value in was
  }

  function PinsUpTo(c: Component, numbers: set<string>, was: set<int>, ci: nat, k: nat): (r: seq<Pad>)
    requires k <= |c.pins|
    ensures forall p :: p in r ==> p.0 == ci && p.1 < k && Carries(c.pins[p.1], numbers, was)
    ensures forall i :: 0 <= i < k && Carries(c.pins[i], numbers, was) ==> (ci, i) in r
  {
    if k == 0 then []
    else PinsUpTo(c, numbers, was, ci, k - 1) + if Carries(c.pins[k - 1], numbers, was) then [(ci, k - 1)] else []
  }

  /** The pads that make up the terminal on the nets it left. */
  function Trace(b: Extracted, netNodes: map<string, Node>, pads: RolePads, t: FloatedTerminal): (r: seq<Pad>)
    ensures forall p :: p in r ==> IsPad(b, p)
  {
    match Owner(b.components, t.device)
    case None => []
    case Some((ci, suffix)) =>
      var c := b.components[ci];
      PinsUpTo(c, pads(c, RoleName(t.role) + suffix), WasNets(b.nets, netNodes, t.was), ci, |c.pins|)
  }

  predicate IsPad(b: Extracted, p: Pad) {
    p.0 < |b.components| && p.1 < |b.components[p.0].pins|
  }

  function PartOf(b: Extracted, t: FloatedTerminal): string {
    match Owner(b.components, t.device)
    case None => t.device
    case Some((ci, _)) => b.components[ci].reference
  }

  function NamesOf(nets: seq<Net>, ids: set<int>): set<string> {
    set n | n in nets && n.id in ids :: n.name
  }

  /** What tracing one terminal came to: its pads, its part, and the nets it left. */
  datatype Find = Find(pads: seq<Pad>, part: string, nets: set<string>)

  function FindOf(b: Extracted, netNodes: map<string, Node>, pads: RolePads, t: FloatedTerminal): Find {
    Find(Trace(b, netNodes, pads, t), PartOf(b, t), NamesOf(b.nets, WasNets(b.nets, netNodes, t.was)))
  }

  function Finds(b: Extracted, netNodes: map<string, Node>, pads: RolePads, ts: seq<FloatedTerminal>): (r: seq<Find>)
    ensures |r| == |ts|
    ensures forall i :: 0 <= i < |ts| ==> r[i] == FindOf(b, netNodes, pads, ts[i])
  {
    seq(|ts|, i requires 0 <= i < |ts| => FindOf(b, netNodes, pads, ts[i]))
  }

  /** What one entry comes to on the static board: pads to sever, and what could not be traced. */
  datatype Plan = Plan(cuts: seq<Pad>, refs: set<string>, nets: set<string>)

  function PlanOf(fs: seq<Find>): (r: Plan)
    ensures forall p :: p in r.cuts ==> exists f :: f in fs && p in f.pads
  {
    if fs == [] then Plan([], {}, {})
    else
      var rest, f := PlanOf(fs[..|fs| - 1]), fs[|fs| - 1];
      if f.pads != [] then Plan(rest.cuts + f.pads, rest.refs, rest.nets)
      else Plan(rest.cuts, rest.refs + {f.part}, rest.nets + f.nets)
  }

  // ---------------------------------------------------------------------------------------------
  // Severing
  // ---------------------------------------------------------------------------------------------

  function NetAt(b: Extracted, p: Pad): Option<int>
    requires IsPad(b, p)
  {
    b.components[p.0].pins[p.1].net
  }

  function MovePad(b: Extracted, p: Pad, id: int, name: string): Extracted
    requires IsPad(b, p)
  {
    var c := b.components[p.0];
    var pin := c.pins[p.1];
    Extracted(b.nets + [Net(id, name)],
              b.components[p.0 := Component(c.reference, c.value, c.libId, c.pins[p.1 := Pin(pin.number, Some(id))])])
  }

  function SeverName(op: string, c: Component, pin: Pin): string {
    "asbuilt-" + op + "-(" + c.reference + "-Pad" + pin.number + ")"
  }

  /** The first `k` pads of the list each moved onto a net of its own. */
  function SeverUpTo(b: Extracted, op: string, cuts: seq<Pad>, id: int, k: nat): (r: Extracted)
    requires k <= |cuts| && forall p :: p in cuts ==> IsPad(b, p)
    ensures forall p :: IsPad(r, p) <==> IsPad(b, p)
  {
    if k == 0 then b
    else
      var rest, p := SeverUpTo(b, op, cuts, id, k - 1), cuts[k - 1];
      assert p in cuts && IsPad(rest, p);
      var c := rest.components[p.0];
      MovePad(rest, p, id + k - 1, SeverName(op, c, c.pins[p.1]))
  }

  lemma PlanIsOfPads(b: Extracted, netNodes: map<string, Node>, pads: RolePads, ts: seq<FloatedTerminal>)
    ensures forall p :: p in PlanOf(Finds(b, netNodes, pads, ts)).cuts ==> IsPad(b, p)
  {
    var fs := Finds(b, netNodes, pads, ts);
    forall f, p | f in fs && p in f.pads
      ensures IsPad(b, p)
    {
      var i :| 0 <= i < |fs| && fs[i] == f;
    }
  }

  /** Severs what the plan says, and lists what it could not trace. */
  function SeverPlan(b: Extracted, e: Entry, plan: Plan, id: int): (Extracted, int, seq<Unapplied>)
    requires forall p :: p in plan.cuts ==> IsPad(b, p)
  {
    (SeverUpTo(b, e.op, plan.cuts, id, |plan.cuts|), id + |plan.cuts|,
     if plan.refs == {} then [] else [Unapplied(e.name, plan.refs, plan.nets)])
  }

  function SeverEntry(b: Extracted, netNodes: map<string, Node>, pads: RolePads, e: Entry, id: int)
    : (Extracted, int, seq<Unapplied>)
  {
    PlanIsOfPads(b, netNodes, pads, e.terminals);
    SeverPlan(b, e, PlanOf(Finds(b, netNodes, pads, e.terminals)), id)
  }

  /** The entries in order; `u` is what the earlier ones could not trace. */
  function SeverFrom(b: Extracted, netNodes: map<string, Node>, pads: RolePads, es: seq<Entry>, id: int, u: seq<Unapplied>)
    : (Extracted, int, seq<Unapplied>)
    decreases |es|
  {
    if es == [] then (b, id, u)
    else
      var step := SeverEntry(b, netNodes, pads, es[0], id);
      SeverFrom(step.0, netNodes, pads, es[1..], step.1, u + step.2)
  }

  /** One past the largest listed net id, or 1 when no net is listed. */
  function FirstFreeId(nets: seq<Net>): (id: int)
    ensures forall n :: n in nets ==> n.id < id
  {
    if nets == [] then 1
    else if |nets| == 1 then nets[0].id + 1
    else
      var rest, last := FirstFreeId(nets[..|nets| - 1]), nets[|nets| - 1].id + 1;
      assert forall n :: n in nets ==> n in nets[..|nets| - 1] || n == nets[|nets| - 1];
      if last > rest then last else rest
  }

  method FindFreeId(nets: seq<Net>) returns (id: int)
    ensures id == FirstFreeId(nets)
  {
    if nets == [] {
      return 1;
    }
    var max := nets[0].id;
    assert nets[..1] == [nets[0]];
    for i := 1 to |nets|
      invariant max + 1 == FirstFreeId(nets[..i])
    {
      assert nets[..i + 1][..i] == nets[..i];
      if nets[i].id > max {
        max := nets[i].id;
      }
    }
    assert nets[..|nets|] == nets;
    id := max + 1;
  }

  method PlanEntry(b: Extracted, netNodes: map<string, Node>, pads: RolePads, ts: seq<FloatedTerminal>)
    returns (plan: Plan)
    ensures plan == PlanOf(Finds(b, netNodes, pads, ts))
  {
    var cuts: seq<Pad>, refs: set<string>, nets: set<string> := [], {}, {};
    ghost var fs := Finds(b, netNodes, pads, ts);
    for k := 0 to |ts|
      invariant Plan(cuts, refs, nets) == PlanOf(fs[..k])
    {
      var found := Trace(b, netNodes, pads, ts[k]);
      assert fs[..k + 1][..k] == fs[..k];
      if found != [] {
        cuts := cuts + found;
      } else {
        refs := refs + {PartOf(b, ts[k])};
        nets := nets + NamesOf(b.nets, WasNets(b.nets, netNodes, ts[k].was));
      }
    }
    assert fs[..|ts|] == fs;
    plan := Plan(cuts, refs, nets);
  }

  method SeverPads(board: ExtractedBoard, op: string, cuts: seq<Pad>, id: int) returns (nextId: int)
    requires forall p :: p in cuts ==> IsPad(board.View(), p)
    modifies board
    ensures board.View() == old(SeverUpTo(board.View(), op, cuts, id, |cuts|)) && nextId == id + |cuts|
  {
    ghost var b := board.View();
    nextId := id;
    for k := 0 to |cuts|
      invariant nextId == id + k
      invariant board.View() == SeverUpTo(b, op, cuts, id, k)
    {
      var p := cuts[k];
      assert p in cuts && IsPad(b, p) && IsPad(board.View(), p);
      var c := board.components[p.0];
      var pin := c.pins[p.1];
      var moved := Component(c.reference, c.value, c.libId, c.pins[p.1 := Pin(pin.number, Some(nextId))]);
      board.components := board.components[p.0 := moved];
      board.nets := board.nets + [Net(nextId, SeverName(op, c, pin))];
      nextId := nextId + 1;
    }
  }

  method SeverPlanned(board: ExtractedBoard, e: Entry, plan: Plan, id: int) returns (nextId: int, unapplied: seq<Unapplied>)
    requires forall p :: p in plan.cuts ==> IsPad(board.View(), p)
    modifies board
    ensures (board.View(), nextId, unapplied) == old(SeverPlan(board.View(), e, plan, id))
  {
    nextId := SeverPads(board, e.op, plan.cuts, id);
    unapplied := if plan.refs == {} then [] else [Unapplied(e.name, plan.refs, plan.nets)];
  }

  method SeverOne(board: ExtractedBoard, netNodes: map<string, Node>, pads: RolePads, e: Entry, id: int)
    returns (nextId: int, unapplied: seq<Unapplied>)
    modifies board
    ensures (board.View(), nextId, unapplied) == old(SeverEntry(board.View(), netNodes, pads, e, id))
  {
    var plan := PlanEntry(Extracted(board.nets, board.components), netNodes, pads, e.terminals);
    PlanIsOfPads(board.View(), netNodes, pads, e.terminals);
    nextId, unapplied := SeverPlanned(board, e, plan, id);
  }

  /** Moves every pad a floated terminal maps to onto a fresh net, and lists what was not traced. */
  method SeverOnBoard(board: ExtractedBoard, netNodes: map<string, Node>, pads: RolePads, es: seq<Entry>)
    returns (unapplied: seq<Unapplied>, nextId: int)
    modifies board
    ensures (board.View(), nextId, unapplied) ==
            old(SeverFrom(board.View(), netNodes, pads, es, FirstFreeId(board.nets), []))
  {
    nextId := FindFreeId(board.nets);
    unapplied := [];
    ghost var all := SeverFrom(board.View(), netNodes, pads, es, nextId, []);
    for i := 0 to |es|
      invariant SeverFrom(board.View(), netNodes, pads, es[i..], nextId, unapplied) == all
    {
      var u;
      nextId, u := SeverOne(board, netNodes, pads, es[i], nextId);
      unapplied := unapplied + u;
      assert es[i..][1..] == es[i + 1..];
    }
  }

  // ---------------------------------------------------------------------------------------------
  // The terminals the overlay floats
  // ---------------------------------------------------------------------------------------------

  function RoleWord(r: Role): string {
    match r
    case Base => "Base"
    case Collector => "Collector"
    case Emitter => "Emitter"
  }

  function CutEntry(b: Board, c: Cut, b': Board): Entry
    requires |b.devices| == |b'.devices|
  {
    Entry("cut " + c.netGlob, "cut", MovedUpTo(b.devices, b'.devices, |b.devices|))
  }

  function LiftEntry(b: Board, l: Lift, b': Board): Entry
    requires |b.devices| == |b'.devices|
  {
    Entry("lift " + l.reference + " " + RoleWord(l.role), "lift", MovedUpTo(b.devices, b'.devices, |b.devices|))
  }

  function CutEntries(b: Board, cs: seq<Cut>, next: Node, es: seq<Entry>): Result<(Board, Node, seq<Entry>), Error>
    decreases |cs|
  {
    if cs == [] then Ok((b, next, es))
    else
      match CutSpec(b, cs[0], next)
      case Err(e) => Err(e)
      case Ok(v) => CutEntries(v.0, cs[1..], v.1, es + [CutEntry(b, cs[0], v.0)])
  }

  function LiftEntries(b: Board, ls: seq<Lift>, next: Node, es: seq<Entry>): Result<(Board, Node, seq<Entry>), Error>
    decreases |ls|
  {
    if ls == [] then Ok((b, next, es))
    else
      match LiftSpec(b, ls[0], next)
      case Err(e) => Err(e)
      case Ok(v) => LiftEntries(v.0, ls[1..], v.1, es + [LiftEntry(b, ls[0], v.0)])
  }

  /** The entries' terminals, or the first entry that does not describe the bound board. */
  ghost function FloatedSpec(b: Board, o: Overlay): Result<seq<Entry>, Error> {
    if o.cuts == [] && o.lifts == [] then Ok([])
    else if !NodeSpaceFree(b, o) then Err(NodeSpace(MaxNode(UsedNodes(b))))
    else
      var v2 :- CutEntries(b, o.cuts, FLOAT_NODE_BASE, []);
      var v3 :- LiftEntries(v2.0, o.lifts, v2.1, v2.2);
      Ok(v3.2)
  }

  /** Runs the overlay's own cuts and lifts on a scratch bound board and notes what each one moved. */
  method FloatedTerminals(bound: BoundBoard, o: Overlay) returns (r: Result<seq<Entry>, Error>)
    modifies bound
    ensures r == old(FloatedSpec(bound.View(), o))
  {
    if o.cuts == [] && o.lifts == [] {
      return Ok([]);
    }
    ghost var b1 := bound.View();
    var base := CheckNodeSpace(bound, o);
    if base.Err? {
      return Err(base.error);
    }
    var next, es: seq<Entry> := base.value, [];
    for i := 0 to |o.cuts|
      invariant CutEntries(bound.View(), o.cuts[i..], next, es) == CutEntries(b1, o.cuts, FLOAT_NODE_BASE, [])
    {
      var before := bound.devices;
      var done := ApplyCut(bound, o.cuts[i], next);
      if done.Err? {
        return Err(done.error);
      }
      next := done.value;
      var moved := Moved(before, bound.devices);
      es := es + [Entry("cut " + o.cuts[i].netGlob, "cut", moved)];
      assert o.cuts[i..][1..] == o.cuts[i + 1..];
    }
    ghost var b2, next2, es2 := bound.View(), next, es;
    for i := 0 to |o.lifts|
      invariant LiftEntries(bound.View(), o.lifts[i..], next, es) == LiftEntries(b2, o.lifts, next2, es2)
    {
      var before := bound.devices;
      var done := ApplyLift(bound, o.lifts[i], next);
      if done.Err? {
        return Err(done.error);
      }
      next := done.value;
      var moved := Moved(before, bound.devices);
      es := es + [Entry("lift " + o.lifts[i].reference + " " + RoleWord(o.lifts[i].role), "lift", moved)];
      assert o.lifts[i..][1..] == o.lifts[i + 1..];
    }
    r := Ok(es);
  }

  // ---------------------------------------------------------------------------------------------
  // Jumpers
  // ---------------------------------------------------------------------------------------------

  /** The id of the first net of that name. */
  function NetId(nets: seq<Net>, name: string): (r: Option<int>)
    ensures r.Some? ==> exists n :: n in nets && n.name == name && n.id == r.value
    ensures r.None? ==> forall n :: n in nets ==> n.name != name
  {
    if nets == [] then None
    else if nets[0].name == name then Some(nets[0].id)
    else NetId(nets[1..], name)
  }

  function JoinPins(pins: seq<Pin>, to: int, from: int): (r: seq<Pin>)
    ensures |r| == |pins|
    ensures forall i :: 0 <= i < |pins| ==>
      r[i] == if pins[i].net == Some(to) then Pin(pins[i].number, Some(from)) else pins[i]
  {
    seq(|pins|, i requires 0 <= i < |pins| =>
      if pins[i].net == Some(to) then Pin(pins[i].number, Some(from)) else pins[i])
  }

  function JoinComponent(c: Component, to: int, from: int): Component {
    Component(c.reference, c.value, c.libId, JoinPins(c.pins, to, from))
  }

  function DropNet(nets: seq<Net>, id: int): (r: seq<Net>)
    ensures forall n :: n in r <==> n in nets && n.id != id
  {
    if nets == [] then [] else (if nets[0].id != id then [nets[0]] else []) + DropNet(nets[1..], id)
  }

  function JoinBoard(b: Extracted, to: int, from: int): (r: Extracted)
    ensures |r.components| == |b.components|
    ensures forall i :: 0 <= i < |b.components| ==> r.components[i] == JoinComponent(b.components[i], to, from)
  {
    Extracted(DropNet(b.nets, to),
              seq(|b.components|, i requires 0 <= i < |b.components| => JoinComponent(b.components[i], to, from)))
  }

  function StaticJumperSpec(b: Extracted, j: Jumper): Result<Extracted, Error> {
    match (NetId(b.nets, j.from), NetId(b.nets, j.to))
    case (Some(from), Some(to)) => if from == to then Err(JumperSelf) else Ok(JoinBoard(b, to, from))
    case _ => Err(UnknownNet)
  }

  method JumperOnBoard(board: ExtractedBoard, j: Jumper) returns (r: Result<(), Error>)
    modifies board
    ensures match StaticJumperSpec(old(board.View()), j)
            case Ok(v) => r.Ok? && board.View() == v
            case Err(e) => r == Err(e) && board.View() == old(board.View())
  {
    var f, t := NetId(board.nets, j.from), NetId(board.nets, j.to);
    if f.None? || t.None? {
      return Err(UnknownNet);
    }
    var from, to := f.value, t.value;
    if from == to {
      return Err(JumperSelf);
    }
    ghost var was := board.View();
    for i := 0 to |board.components|
      invariant |board.components| == |was.components| && board.nets == was.nets
      invariant forall k :: 0 <= k < i ==> board.components[k] == JoinComponent(was.components[k], to, from)
      invariant forall k :: i <= k < |was.components| ==> board.components[k] == was.components[k]
    {
      var c := board.components[i];
      var pins := c.pins;
      for k := 0 to |pins|
        invariant |pins| == |c.pins|
        invariant forall m :: 0 <= m < k ==> pins[m] == JoinPins(c.pins, to, from)[m]
        invariant forall m :: k <= m < |pins| ==> pins[m] == c.pins[m]
      {
        if pins[k].net == Some(to) {
          pins := pins[k := Pin(pins[k].number, Some(from))];
        }
      }
      assert pins == JoinPins(c.pins, to, from);
      board.components := board.components[i := Component(c.reference, c.value, c.libId, pins)];
    }
    board.nets := DropNet(board.nets, to);
    assert board.components == JoinBoard(was, to, from).components;
    r := Ok(());
  }

  function StaticJumpersFrom(b: Extracted, js: seq<Jumper>): Result<Extracted, Error>
    decreases |js|
  {
    if js == [] then Ok(b)
    else
      match StaticJumperSpec(b, js[0])
      case Err(e) => Err(e)
      case Ok(b') => StaticJumpersFrom(b', js[1..])
  }
}
