/** The pads the static board severs are those of the terminals the bound board floats. */
module StaticProofs {
  import opened Wrappers
  import opened Sequences
  import opened Connectivity
  import opened Circuit
  import opened Bound
  import opened Text
  import opened AsBuilt
  import opened AsBuiltProofs
  import opened StaticBoard
  import opened StaticRecords

  // ---------------------------------------------------------------------------------------------
  // The pads of a terminal
  // ---------------------------------------------------------------------------------------------

  /** A listed net of that id stands for the node. */
  ghost predicate StandsFor(nets: seq<Net>, netNodes: map<string, Node>, id: int, was: Node) {
    exists n :: n in nets && n.id == id && n.name in netNodes && netNodes[n.name] == was
  }

  /** The pad carries the terminal's role, and is on a net of the node the terminal left. */
  ghost predicate PadOf(b: Extracted, netNodes: map<string, Node>, pads: RolePads, ft: FloatedTerminal, p: Pad) {
    && IsPad(b, p)
    && Owner(b.components, ft.device).Some?
    && var (ci, suffix) := Owner(b.components, ft.device).value;
    && p.0 == ci
    && b.components[ci].pins[p.1].number in pads(b.components[ci], RoleName(ft.role) + suffix)
    && NetAt(b, p).Some? && StandsFor(b.nets, netNodes, NetAt(b, p).value, ft.was)
  }

  /** Tracing finds every pad of the terminal, and no other. */
  lemma TraceIs(b: Extracted, netNodes: map<string, Node>, pads: RolePads, ft: FloatedTerminal, p: Pad)
    ensures p in Trace(b, netNodes, pads, ft) <==> PadOf(b, netNodes, pads, ft, p)
  {
    if PadOf(b, netNodes, pads, ft, p) {
      var (ci, suffix) := Owner(b.components, ft.device).value;
      var was := WasNets(b.nets, netNodes, ft.was);
      assert NetAt(b, p).value in was;
      assert Carries(b.components[ci].pins[p.1], pads(b.components[ci], RoleName(ft.role) + suffix), was);
      assert p == (ci, p.1);
    }
  }

  function PadSet(cuts: seq<Pad>): set<Pad> {
    set p | p in cuts
  }

  /** The pads of the entry's terminals on the board the entry meets. */
  ghost predicate EntryPad(b: Extracted, netNodes: map<string, Node>, pads: RolePads, ts: seq<FloatedTerminal>, p: Pad) {
    exists ft :: ft in ts && PadOf(b, netNodes, pads, ft, p)
  }

  ghost predicate HasPad(b: Extracted, netNodes: map<string, Node>, pads: RolePads, ft: FloatedTerminal) {
    exists p :: PadOf(b, netNodes, pads, ft, p)
  }

  lemma TracedIffHasPad(b: Extracted, netNodes: map<string, Node>, pads: RolePads, ft: FloatedTerminal)
    ensures Trace(b, netNodes, pads, ft) != [] <==> HasPad(b, netNodes, pads, ft)
  {
    var found := Trace(b, netNodes, pads, ft);
    if found != [] {
      TraceIs(b, netNodes, pads, ft, found[0]);
    }
    if p :| PadOf(b, netNodes, pads, ft, p) {
      TraceIs(b, netNodes, pads, ft, p);
    }
  }

  /** What an entry's list leaves as designed: the parts of its terminals without a pad, and their nets. */
  ghost function MissedRefs(b: Extracted, netNodes: map<string, Node>, pads: RolePads, ts: seq<FloatedTerminal>): set<string> {
    set ft | ft in ts && !HasPad(b, netNodes, pads, ft) :: PartOf(b, ft)
  }

  ghost function MissedNets(b: Extracted, netNodes: map<string, Node>, pads: RolePads, ts: seq<FloatedTerminal>): set<string> {
    set ft, n | ft in ts && !HasPad(b, netNodes, pads, ft) && n in b.nets && StandsFor(b.nets, netNodes, n.id, ft.was) :: n.name
  }

  ghost predicate PlanMeans(fs: seq<Find>, plan: Plan) {
    && (forall p :: p in plan.cuts <==> exists f :: f in fs && p in f.pads)
    && (forall x :: x in plan.refs <==> exists f :: f in fs && f.pads == [] && x == f.part)
    && (forall x :: x in plan.nets <==> exists f :: f in fs && f.pads == [] && x in f.nets)
  }

  /** The plan takes every pad found, and lists every terminal none was found for. */
  lemma {:induction false} PlanOfMeans(fs: seq<Find>)
    ensures PlanMeans(fs, PlanOf(fs))
    decreases |fs|
  {
    if fs != [] {
      var rest, last := fs[..|fs| - 1], fs[|fs| - 1];
      PlanOfMeans(rest);
      assert fs == rest + [last];
      assert forall f :: f in fs <==> f in rest || f == last;
    }
  }

  lemma FindsAre(b: Extracted, netNodes: map<string, Node>, pads: RolePads, ts: seq<FloatedTerminal>, f: Find)
    ensures f in Finds(b, netNodes, pads, ts) <==> exists t :: t in ts && f == FindOf(b, netNodes, pads, t)
  {
    var fs := Finds(b, netNodes, pads, ts);
    if f in fs {
      var i :| 0 <= i < |fs| && fs[i] == f;
      assert ts[i] in ts;
    }
    if t :| t in ts && f == FindOf(b, netNodes, pads, t) {
      var i :| 0 <= i < |ts| && ts[i] == t;
      assert fs[i] == f;
    }
  }

  lemma NamesStandFor(b: Extracted, netNodes: map<string, Node>, was: Node, name: string)
    ensures name in NamesOf(b.nets, WasNets(b.nets, netNodes, was)) <==>
            exists n :: n in b.nets && StandsFor(b.nets, netNodes, n.id, was) && n.name == name
  {
    forall n | n in b.nets
      ensures n.id in WasNets(b.nets, netNodes, was) <==> StandsFor(b.nets, netNodes, n.id, was)
    {
    }
  }

  lemma PlanTakes(b: Extracted, netNodes: map<string, Node>, pads: RolePads, ts: seq<FloatedTerminal>, fs: seq<Find>, plan: Plan,
                  p: Pad)
    requires fs == Finds(b, netNodes, pads, ts) && PlanMeans(fs, plan)
    ensures p in plan.cuts <==> EntryPad(b, netNodes, pads, ts, p)
  {
    if f :| f in fs && p in f.pads {
      FindsAre(b, netNodes, pads, ts, f);
      var t :| t in ts && f == FindOf(b, netNodes, pads, t);
      TraceIs(b, netNodes, pads, t, p);
    }
    if t :| t in ts && PadOf(b, netNodes, pads, t, p) {
      TraceIs(b, netNodes, pads, t, p);
      FindsAre(b, netNodes, pads, ts, FindOf(b, netNodes, pads, t));
    }
  }

  lemma PlanMisses(b: Extracted, netNodes: map<string, Node>, pads: RolePads, ts: seq<FloatedTerminal>, fs: seq<Find>, plan: Plan,
                   x: string)
    requires fs == Finds(b, netNodes, pads, ts) && PlanMeans(fs, plan)
    ensures x in plan.refs <==> x in MissedRefs(b, netNodes, pads, ts)
    ensures x in plan.nets <==> x in MissedNets(b, netNodes, pads, ts)
  {
    forall f | f in fs && f.pads == []
      ensures exists t :: t in ts && !HasPad(b, netNodes, pads, t) && f == FindOf(b, netNodes, pads, t)
    {
      FindsAre(b, netNodes, pads, ts, f);
      var t :| t in ts && f == FindOf(b, netNodes, pads, t);
      TracedIffHasPad(b, netNodes, pads, t);
    }
    forall t | t in ts && !HasPad(b, netNodes, pads, t)
      ensures FindOf(b, netNodes, pads, t) in fs && FindOf(b, netNodes, pads, t).pads == []
    {
      FindsAre(b, netNodes, pads, ts, FindOf(b, netNodes, pads, t));
      TracedIffHasPad(b, netNodes, pads, t);
    }
    forall t: FloatedTerminal
      ensures x in FindOf(b, netNodes, pads, t).nets <==>
              exists n :: n in b.nets && StandsFor(b.nets, netNodes, n.id, t.was) && n.name == x
    {
      NamesStandFor(b, netNodes, t.was, x);
    }
  }

  /** The plan of a whole entry. */
  lemma PlanIs(b: Extracted, netNodes: map<string, Node>, pads: RolePads, ts: seq<FloatedTerminal>)
    ensures var plan := PlanOf(Finds(b, netNodes, pads, ts));
            && (forall p :: p in plan.cuts <==> EntryPad(b, netNodes, pads, ts, p))
            && plan.refs == MissedRefs(b, netNodes, pads, ts) && plan.nets == MissedNets(b, netNodes, pads, ts)
  {
    var fs := Finds(b, netNodes, pads, ts);
    var plan := PlanOf(fs);
    PlanOfMeans(fs);
    forall p
      ensures p in plan.cuts <==> EntryPad(b, netNodes, pads, ts, p)
    {
      PlanTakes(b, netNodes, pads, ts, fs, plan, p);
    }
    forall x
      ensures x in plan.refs <==> x in MissedRefs(b, netNodes, pads, ts)
      ensures x in plan.nets <==> x in MissedNets(b, netNodes, pads, ts)
    {
      PlanMisses(b, netNodes, pads, ts, fs, plan, x);
    }
  }

  // ---------------------------------------------------------------------------------------------
  // Severing moves the planned pads and nothing else
  // ---------------------------------------------------------------------------------------------

  /** The same part on other nets, perhaps. */
  ghost predicate SamePart(c: Component, d: Component) {
    && d.reference == c.reference && d.value == c.value && d.libId == c.libId && |d.pins| == |c.pins|
    && forall k :: 0 <= k < |c.pins| ==> d.pins[k].number == c.pins[k].number
  }

  ghost predicate SameComponents(o: Extracted, b: Extracted) {
    && |b.components| == |o.components|
    && (forall i :: 0 <= i < |o.components| ==> SamePart(o.components[i], b.components[i]))
  }

  const MARK: string := "asbuilt-"

  /** The name is the one a severed pad's own net gets. */
  ghost predicate NamedAfter(o: Extracted, p: Pad, name: string)
    requires IsPad(o, p)
  {
    exists op :: name == SeverName(op, o.components[p.0], o.components[p.0].pins[p.1])
  }

  /** The pad's own net: listed, and named after it. */
  ghost predicate OwnNet(o: Extracted, b: Extracted, p: Pad)
    requires IsPad(o, p) && IsPad(b, p)
  {
    exists n :: n in b.nets && NetAt(b, p) == Some(n.id) && NamedAfter(o, p, n.name)
  }

  /** A net of the design, or one added for a severed pad under an id from `base` up to `id`. */
  ghost predicate OldOrFresh(o: Extracted, base: int, id: int, n: Net) {
    n in o.nets || (base <= n.id < id && StartsWith(n.name, MARK))
  }

  /** The nets of the design, and after them only nets of severed pads. */
  ghost predicate NetsAdded(o: Extracted, base: int, id: int, b: Extracted) {
    && o.nets <= b.nets && base <= id
    && (forall n :: n in o.nets ==> n.id < base)
    && (forall n :: n in b.nets ==> OldOrFresh(o, base, id, n))
  }

  /** The pads of `s`, and no other, left their nets, each for an id of its own. */
  ghost predicate PadsMoved(o: Extracted, s: set<Pad>, base: int, id: int, b: Extracted)
    requires SameComponents(o, b)
  {
    && (forall p :: p in s ==> IsPad(o, p))
    && (forall p: Pad :: IsPad(o, p) ==>
          if p in s then NetAt(b, p).Some? && base <= NetAt(b, p).value < id else NetAt(b, p) == NetAt(o, p))
    && (forall p, q :: p in s && q in s && NetAt(b, p) == NetAt(b, q) ==> p == q)
  }

  /** `b` is `o` with exactly the pads of `s` on nets of their own, numbered from `base` up to `id`. */
  ghost predicate Severed(o: Extracted, s: set<Pad>, base: int, id: int, b: Extracted) {
    && SameComponents(o, b) && NetsAdded(o, base, id, b) && PadsMoved(o, s, base, id, b)
    && (forall p :: p in s ==> OwnNet(o, b, p))
  }

  lemma MarkedName(op: string, c: Component, pin: Pin)
    ensures StartsWith(SeverName(op, c, pin), MARK)
  {
    assert SeverName(op, c, pin)[..8] == MARK;
  }

  /** The name a pad's own net gets is that of its pad, whatever net the pad was on. */
  lemma NameOfPad(o: Extracted, b: Extracted, p: Pad, op: string)
    requires SameComponents(o, b) && IsPad(b, p)
    ensures IsPad(o, p) && NamedAfter(o, p, SeverName(op, b.components[p.0], b.components[p.0].pins[p.1]))
  {
    assert SamePart(o.components[p.0], b.components[p.0]);
    var c, d := o.components[p.0], b.components[p.0];
    assert d.reference == c.reference && d.pins[p.1].number == c.pins[p.1].number;
    assert SeverName(op, d, d.pins[p.1]) == SeverName(op, c, c.pins[p.1]);
  }

  lemma MovePadPart(b: Extracted, p: Pad, id: int, name: string)
    requires IsPad(b, p)
    ensures SameComponents(b, MovePad(b, p, id, name))
    ensures forall q: Pad :: IsPad(b, q) ==>
      IsPad(MovePad(b, p, id, name), q) && NetAt(MovePad(b, p, id, name), q) == if q == p then Some(id) else NetAt(b, q)
  {
  }

  lemma NetAdded(o: Extracted, base: int, id: int, b: Extracted, p: Pad, name: string)
    requires NetsAdded(o, base, id, b) && IsPad(b, p) && StartsWith(name, MARK)
    ensures NetsAdded(o, base, id + 1, MovePad(b, p, id, name))
  {
    var n := Net(id, name);
    forall x | x in b.nets + [n]
      ensures OldOrFresh(o, base, id + 1, x)
    {
      assert x == n || (x in b.nets && OldOrFresh(o, base, id, x));
    }
  }

  lemma PadMoved(o: Extracted, s: set<Pad>, base: int, id: int, b: Extracted, p: Pad, name: string)
    requires SameComponents(o, b) && base <= id && PadsMoved(o, s, base, id, b) && IsPad(b, p)
    ensures SameComponents(o, MovePad(b, p, id, name)) && PadsMoved(o, s + {p}, base, id + 1, MovePad(b, p, id, name))
  {
    MovePadPart(b, p, id, name);
    PartsStay(o, b, MovePad(b, p, id, name));
  }

  lemma OwnNetStays(o: Extracted, b: Extracted, c: Extracted, q: Pad)
    requires IsPad(o, q) && IsPad(b, q) && IsPad(c, q) && OwnNet(o, b, q)
    requires NetAt(c, q) == NetAt(b, q) && forall n :: n in b.nets ==> n in c.nets
    ensures OwnNet(o, c, q)
  {
    var n :| n in b.nets && NetAt(b, q) == Some(n.id) && NamedAfter(o, q, n.name);
    assert n in c.nets;
  }

  lemma OwnNetMade(o: Extracted, b: Extracted, p: Pad, id: int, name: string)
    requires IsPad(b, p) && IsPad(o, p) && NamedAfter(o, p, name)
    ensures IsPad(MovePad(b, p, id, name), p) && OwnNet(o, MovePad(b, p, id, name), p)
  {
    MovePadPart(b, p, id, name);
    assert Net(id, name) in MovePad(b, p, id, name).nets;
  }

  lemma MovePadStep(o: Extracted, s: set<Pad>, base: int, id: int, b: Extracted, p: Pad, name: string)
    requires Severed(o, s, base, id, b) && IsPad(b, p) && IsPad(o, p)
    requires StartsWith(name, MARK) && NamedAfter(o, p, name)
    ensures Severed(o, s + {p}, base, id + 1, MovePad(b, p, id, name))
  {
    var c := MovePad(b, p, id, name);
    NetAdded(o, base, id, b, p, name);
    PadMoved(o, s, base, id, b, p, name);
    forall q | q in s + {p}
      ensures OwnNet(o, c, q)
    {
      if q == p {
        OwnNetMade(o, b, p, id, name);
      } else {
        MovePadPart(b, p, id, name);
        OwnNetStays(o, b, c, q);
      }
    }
  }

  lemma PartsStay(o: Extracted, b: Extracted, c: Extracted)
    requires SameComponents(o, b) && SameComponents(b, c)
    ensures SameComponents(o, c)
  {
  }

  lemma PadSetGrows(cuts: seq<Pad>, k: nat)
    requires 0 < k <= |cuts|
    ensures PadSet(cuts[..k]) == PadSet(cuts[..k - 1]) + {cuts[k - 1]}
  {
    assert cuts[..k] == cuts[..k - 1] + [cuts[k - 1]];
  }

  lemma LastMove(o: Extracted, b: Extracted, op: string, cuts: seq<Pad>, id: int, k: nat) returns (name: string)
    requires 0 < k <= |cuts| && forall p :: p in cuts ==> IsPad(b, p)
    requires SameComponents(o, SeverUpTo(b, op, cuts, id, k - 1))
    ensures var rest, p := SeverUpTo(b, op, cuts, id, k - 1), cuts[k - 1];
            && IsPad(o, p) && IsPad(rest, p) && SeverUpTo(b, op, cuts, id, k) == MovePad(rest, p, id + k - 1, name)
            && StartsWith(name, MARK) && NamedAfter(o, p, name)
  {
    var rest, p := SeverUpTo(b, op, cuts, id, k - 1), cuts[k - 1];
    assert p in cuts && IsPad(rest, p);
    name := SeverName(op, rest.components[p.0], rest.components[p.0].pins[p.1]);
    MarkedName(op, rest.components[p.0], rest.components[p.0].pins[p.1]);
    NameOfPad(o, rest, p, op);
  }

  /** Severing one pad more of the list. */
  lemma SeverOneMore(o: Extracted, s: set<Pad>, base: int, id: int, rest: Extracted, c: Extracted, name: string,
                     cuts: seq<Pad>, k: nat)
    requires 0 < k <= |cuts| && Severed(o, s + PadSet(cuts[..k - 1]), base, id, rest)
    requires IsPad(rest, cuts[k - 1]) && IsPad(o, cuts[k - 1]) && c == MovePad(rest, cuts[k - 1], id, name)
    requires StartsWith(name, MARK) && NamedAfter(o, cuts[k - 1], name)
    ensures Severed(o, s + PadSet(cuts[..k]), base, id + 1, c)
  {
    MovePadStep(o, s + PadSet(cuts[..k - 1]), base, id, rest, cuts[k - 1], name);
    PadSetGrows(cuts, k);
    assert s + PadSet(cuts[..k]) == s + PadSet(cuts[..k - 1]) + {cuts[k - 1]};
  }

  lemma SeverFurther(o: Extracted, s: set<Pad>, base: int, id: int, b: Extracted, op: string, cuts: seq<Pad>, k: nat,
                     rest: Extracted, c: Extracted)
    requires 0 < k <= |cuts| && forall p :: p in cuts ==> IsPad(b, p)
    requires rest == SeverUpTo(b, op, cuts, id, k - 1) && c == SeverUpTo(b, op, cuts, id, k)
    requires Severed(o, s + PadSet(cuts[..k - 1]), base, id + k - 1, rest)
    ensures Severed(o, s + PadSet(cuts[..k]), base, id + k, c)
  {
    var name := LastMove(o, b, op, cuts, id, k);
    SeverOneMore(o, s, base, id + k - 1, rest, c, name, cuts, k);
  }

  lemma {:induction false} SeverUpToStep(o: Extracted, s: set<Pad>, base: int, id: int, b: Extracted, op: string,
                                         cuts: seq<Pad>, k: nat)
    requires Severed(o, s, base, id, b) && k <= |cuts| && forall p :: p in cuts ==> IsPad(b, p)
    ensures Severed(o, s + PadSet(cuts[..k]), base, id + k, SeverUpTo(b, op, cuts, id, k))
  {
    if k == 0 {
      assert s + PadSet(cuts[..k]) == s;
    } else {
      SeverUpToStep(o, s, base, id, b, op, cuts, k - 1);
      SeverFurther(o, s, base, id, b, op, cuts, k, SeverUpTo(b, op, cuts, id, k - 1), SeverUpTo(b, op, cuts, id, k));
    }
  }

  /**
    One entry on the board it meets, whatever earlier entries did: exactly the pads of its terminals
    are severed, and exactly the parts of the terminals that have no pad are listed under it.
   */
  lemma EntrySevers(o: Extracted, s: set<Pad>, base: int, id: int, b: Extracted, netNodes: map<string, Node>, pads: RolePads,
                    e: Entry) returns (s': set<Pad>)
    requires Severed(o, s, base, id, b)
    ensures var step := SeverEntry(b, netNodes, pads, e, id);
            && Severed(o, s', base, step.1, step.0)
            && (forall p :: p in s' <==> p in s || EntryPad(b, netNodes, pads, e.terminals, p))
            && step.2 == (if MissedRefs(b, netNodes, pads, e.terminals) == {} then []
                          else [Unapplied(e.name, MissedRefs(b, netNodes, pads, e.terminals),
                                          MissedNets(b, netNodes, pads, e.terminals))])
  {
    var ts := e.terminals;
    var plan := PlanOf(Finds(b, netNodes, pads, ts));
    SeverUpToStep(o, s, base, id, b, e.op, plan.cuts, |plan.cuts|);
    assert plan.cuts[..|plan.cuts|] == plan.cuts;
    s' := s + PadSet(plan.cuts);
    PlanIs(b, netNodes, pads, ts);
  }

  // ---------------------------------------------------------------------------------------------
  // Read off the design
  // ---------------------------------------------------------------------------------------------

  /** Pins of one number are on one net. */
  predicate OneNetEach(c: Component) {
    forall i, j :: 0 <= i < |c.pins| && 0 <= j < |c.pins| && c.pins[i].number == c.pins[j].number ==> c.pins[i].net == c.pins[j].net
  }

  /** No part of the design has one pad number on two nets. */
  predicate OneNetPerNumber(o: Extracted) {
    forall i :: 0 <= i < |o.components| ==> OneNetEach(o.components[i])
  }

  predicate PinMoved(c: Component, d: Component, i: nat)
    requires |c.pins| == |d.pins| && i < |c.pins|
  {
    c.pins[i].net != d.pins[i].net
  }

  /** Every pad of a role the pin has, on the pin's net, was moved. */
  ghost predicate WholeRole(pads: RolePads, c: Component, d: Component, i: nat, role: string)
    requires |c.pins| == |d.pins| && i < |c.pins|
  {
    && c.pins[i].number in pads(c, role)
    && forall j :: 0 <= j < |c.pins| && c.pins[j].number in pads(c, role) && c.pins[j].net == c.pins[i].net ==> PinMoved(c, d, j)
  }

  /** The pin went from its net to a higher one, with all pads there of some role. */
  ghost predicate MovedWhole(pads: RolePads, c: Component, d: Component, i: nat)
    requires |c.pins| == |d.pins| && i < |c.pins|
  {
    && c.pins[i].net.Some? && d.pins[i].net.Some? && c.pins[i].net.value < d.pins[i].net.value
    && exists role :: WholeRole(pads, c, d, i, role)
  }

  /** What severing can make of a part: whole roles moved to higher nets. */
  ghost predicate Regrouped(pads: RolePads, c: Component, d: Component) {
    SamePart(c, d) && OneNetEach(c) && forall i :: 0 <= i < |c.pins| && PinMoved(c, d, i) ==> MovedWhole(pads, c, d, i)
  }

  /** No moved pin is on this pin's net now. */
  predicate ApartFromMoved(c: Component, d: Component, i: nat)
    requires |c.pins| == |d.pins| && i < |c.pins|
  {
    forall j :: 0 <= j < |c.pins| && PinMoved(c, d, j) ==> d.pins[j].net != c.pins[i].net
  }

  ghost predicate RolesStayOn(pads: RolePads, c: Component, d: Component, role: string)
    requires |c.pins| == |d.pins|
  {
    forall i :: 0 <= i < |c.pins| && !PinMoved(c, d, i) && ApartFromMoved(c, d, i) ==>
      (c.pins[i].number in pads(c, role) <==> c.pins[i].number in pads(d, role))
  }

  /** On the design's parts, a pad left on its net keeps its roles when whole roles are moved off theirs. */
  ghost predicate RolesStay(pads: RolePads, o: Extracted) {
    forall i, d: Component, role: string :: 0 <= i < |o.components| && Regrouped(pads, o.components[i], d) ==>
      RolesStayOn(pads, o.components[i], d, role)
  }

  /** No net the bound board names could be taken for a severed pad's own. */
  predicate NamesApart(netNodes: map<string, Node>) {
    forall name :: name in netNodes ==> !StartsWith(name, MARK)
  }

  lemma {:induction false} IndexOfSame(cs: seq<Component>, ds: seq<Component>, reference: string)
    requires |cs| == |ds| && forall i :: 0 <= i < |cs| ==> cs[i].reference == ds[i].reference
    ensures IndexOf(cs, reference) == IndexOf(ds, reference)
    decreases |cs|
  {
    if cs != [] {
      IndexOfSame(cs[..|cs| - 1], ds[..|ds| - 1], reference);
    }
  }

  lemma OwnerSame(o: Extracted, b: Extracted, device: string)
    requires SameComponents(o, b)
    ensures Owner(b.components, device) == Owner(o.components, device)
  {
    assert forall i :: 0 <= i < |o.components| ==> SamePart(o.components[i], b.components[i]);
    IndexOfSame(o.components, b.components, device);
    var k := LastUnitMark(device, |device|);
    if k.Some? {
      IndexOfSame(o.components, b.components, device[..k.value]);
    }
  }

  lemma PartOfSame(o: Extracted, b: Extracted, ft: FloatedTerminal)
    requires SameComponents(o, b)
    ensures PartOf(b, ft) == PartOf(o, ft)
  {
    OwnerSame(o, b, ft.device);
    if Owner(o.components, ft.device).Some? {
      var i := Owner(o.components, ft.device).value.0;
      assert SamePart(o.components[i], b.components[i]);
    }
  }

  /** Severing moves no net of the design to another node, and gives no node another net. */
  lemma StandsForSame(o: Extracted, s: set<Pad>, base: int, id: int, b: Extracted, netNodes: map<string, Node>, n: int, was: Node)
    requires Severed(o, s, base, id, b) && NamesApart(netNodes)
    ensures StandsFor(b.nets, netNodes, n, was) <==> StandsFor(o.nets, netNodes, n, was)
    ensures StandsFor(o.nets, netNodes, n, was) ==> n < base
  {
    if StandsFor(b.nets, netNodes, n, was) {
      var x :| x in b.nets && x.id == n && x.name in netNodes && netNodes[x.name] == was;
      assert OldOrFresh(o, base, id, x);
    }
    if x :| x in o.nets && x.id == n && x.name in netNodes && netNodes[x.name] == was {
      assert x in b.nets;
    }
  }

  /** The pads, on the design, of the terminals of the first `k` entries. */
  ghost predicate TracedBy(o: Extracted, netNodes: map<string, Node>, pads: RolePads, es: seq<Entry>, k: nat, p: Pad)
    requires k <= |es|
  {
    exists i :: 0 <= i < k && EntryPad(o, netNodes, pads, es[i].terminals, p)
  }

  ghost predicate SeveredBy(o: Extracted, netNodes: map<string, Node>, pads: RolePads, es: seq<Entry>, k: nat, s: set<Pad>)
    requires k <= |es|
  {
    forall p :: p in s <==> TracedBy(o, netNodes, pads, es, k, p)
  }

  /** The other pads of its role on its net are severed with a pad. */
  lemma SeveredWithRole(o: Extracted, s: set<Pad>, base: int, id: int, b: Extracted, netNodes: map<string, Node>, pads: RolePads,
                        es: seq<Entry>, k: nat, p: Pad)
    requires Severed(o, s, base, id, b) && NamesApart(netNodes) && k <= |es| && SeveredBy(o, netNodes, pads, es, k, s)
    requires p in s && IsPad(o, p) && SamePart(o.components[p.0], b.components[p.0])
    ensures MovedWhole(pads, o.components[p.0], b.components[p.0], p.1)
  {
    var c, d := o.components[p.0], b.components[p.0];
    assert TracedBy(o, netNodes, pads, es, k, p);
    var e :| 0 <= e < k && EntryPad(o, netNodes, pads, es[e].terminals, p);
    var ft :| ft in es[e].terminals && PadOf(o, netNodes, pads, ft, p);
    var role := RoleName(ft.role) + Owner(o.components, ft.device).value.1;
    StandsForSame(o, s, base, id, b, netNodes, NetAt(o, p).value, ft.was);
    forall j | 0 <= j < |c.pins| && c.pins[j].number in pads(c, role) && c.pins[j].net == c.pins[p.1].net
      ensures PinMoved(c, d, j)
    {
      var q: Pad := (p.0, j);
      assert IsPad(o, q) && NetAt(o, q) == NetAt(o, p);
      assert PadOf(o, netNodes, pads, ft, q);
      assert EntryPad(o, netNodes, pads, es[e].terminals, q);
      assert TracedBy(o, netNodes, pads, es, k, q);
      assert q in s && base <= NetAt(b, q).value;
    }
    assert WholeRole(pads, c, d, p.1, role);
    assert base <= NetAt(b, p).value;
  }

  /** Severing recorded terminals regroups each part. */
  lemma SeveringRegroups(o: Extracted, s: set<Pad>, base: int, id: int, b: Extracted, netNodes: map<string, Node>, pads: RolePads,
                         es: seq<Entry>, k: nat, ci: nat)
    requires Severed(o, s, base, id, b) && NamesApart(netNodes) && k <= |es| && SeveredBy(o, netNodes, pads, es, k, s)
    requires ci < |o.components| && OneNetEach(o.components[ci])
    ensures Regrouped(pads, o.components[ci], b.components[ci])
  {
    var c, d := o.components[ci], b.components[ci];
    assert SamePart(c, d);
    forall i | 0 <= i < |c.pins| && PinMoved(c, d, i)
      ensures MovedWhole(pads, c, d, i)
    {
      var p: Pad := (ci, i);
      assert IsPad(o, p) && NetAt(b, p) != NetAt(o, p);
      SeveredWithRole(o, s, base, id, b, netNodes, pads, es, k, p);
    }
  }

  /** A pad left on a net of the design is apart from the moved ones. */
  lemma LeftApart(o: Extracted, s: set<Pad>, base: int, id: int, b: Extracted, p: Pad)
    requires Severed(o, s, base, id, b) && IsPad(o, p) && p !in s && NetAt(o, p).Some? && NetAt(o, p).value < base
    requires SamePart(o.components[p.0], b.components[p.0])
    ensures !PinMoved(o.components[p.0], b.components[p.0], p.1) && ApartFromMoved(o.components[p.0], b.components[p.0], p.1)
  {
    var c, d := o.components[p.0], b.components[p.0];
    assert NetAt(b, p) == NetAt(o, p);
    forall j | 0 <= j < |c.pins| && PinMoved(c, d, j)
      ensures d.pins[j].net != c.pins[p.1].net
    {
      var q: Pad := (p.0, j);
      assert IsPad(o, q) && NetAt(b, q) != NetAt(o, q);
    }
  }

  /** On a severed board a terminal has the pads it has on the design, but for the severed ones. */
  lemma PadOfSame(o: Extracted, s: set<Pad>, base: int, id: int, b: Extracted, netNodes: map<string, Node>, pads: RolePads,
                  es: seq<Entry>, k: nat, ft: FloatedTerminal, p: Pad)
    requires Severed(o, s, base, id, b) && NamesApart(netNodes) && RolesStay(pads, o) && OneNetPerNumber(o)
    requires k <= |es| && SeveredBy(o, netNodes, pads, es, k, s)
    ensures PadOf(b, netNodes, pads, ft, p) <==> p !in s && PadOf(o, netNodes, pads, ft, p)
  {
    OwnerSame(o, b, ft.device);
    if IsPad(o, p) && Owner(o.components, ft.device).Some? && Owner(o.components, ft.device).value.0 == p.0 {
      var (ci, suffix) := Owner(o.components, ft.device).value;
      var c, d := o.components[ci], b.components[ci];
      assert SamePart(c, d);
      if NetAt(b, p).Some? {
        var net := NetAt(b, p).value;
        StandsForSame(o, s, base, id, b, netNodes, net, ft.was);
        if p !in s && StandsFor(o.nets, netNodes, net, ft.was) {
          SeveringRegroups(o, s, base, id, b, netNodes, pads, es, k, ci);
          LeftApart(o, s, base, id, b, p);
          assert RolesStayOn(pads, c, d, RoleName(ft.role) + suffix);
        }
      }
    }
  }

  /** The terminal has a pad that no earlier entry severed. */
  ghost predicate PadLeft(o: Extracted, netNodes: map<string, Node>, pads: RolePads, es: seq<Entry>, k: nat, ft: FloatedTerminal)
    requires k <= |es|
  {
    exists p :: PadOf(o, netNodes, pads, ft, p) && !TracedBy(o, netNodes, pads, es, k, p)
  }

  ghost function LeftRefs(o: Extracted, netNodes: map<string, Node>, pads: RolePads, es: seq<Entry>, k: nat): set<string>
    requires k < |es|
  {
    set ft | ft in es[k].terminals && !PadLeft(o, netNodes, pads, es, k, ft) :: PartOf(o, ft)
  }

  ghost function LeftNets(o: Extracted, netNodes: map<string, Node>, pads: RolePads, es: seq<Entry>, k: nat): set<string>
    requires k < |es|
  {
    set ft, n | ft in es[k].terminals && !PadLeft(o, netNodes, pads, es, k, ft)
                && n in o.nets && StandsFor(o.nets, netNodes, n.id, ft.was) :: n.name
  }

  /** What entry `k` leaves as designed: one listing, or none. */
  ghost function LeftBy(o: Extracted, netNodes: map<string, Node>, pads: RolePads, es: seq<Entry>, k: nat): seq<Unapplied>
    requires k < |es|
  {
    var refs := LeftRefs(o, netNodes, pads, es, k);
    if refs == {} then [] else [Unapplied(es[k].name, refs, LeftNets(o, netNodes, pads, es, k))]
  }

  ghost function Listings(o: Extracted, netNodes: map<string, Node>, pads: RolePads, es: seq<Entry>, k: nat)
    : (r: seq<seq<Unapplied>>)
    requires k <= |es|
    ensures |r| == k && forall i :: 0 <= i < k ==> r[i] == LeftBy(o, netNodes, pads, es, i)
  {
    seq(k, i requires 0 <= i < k => LeftBy(o, netNodes, pads, es, i))
  }

  /** What the first `k` entries leave as designed, read off the design alone. */
  ghost function LeftAsDesigned(o: Extracted, netNodes: map<string, Node>, pads: RolePads, es: seq<Entry>, k: nat): seq<Unapplied>
    requires k <= |es|
  {
    Flat(Listings(o, netNodes, pads, es, k))
  }

  lemma TracedByMore(o: Extracted, netNodes: map<string, Node>, pads: RolePads, es: seq<Entry>, k: nat, p: Pad)
    requires k < |es|
    ensures TracedBy(o, netNodes, pads, es, k + 1, p) <==>
            TracedBy(o, netNodes, pads, es, k, p) || EntryPad(o, netNodes, pads, es[k].terminals, p)
  {
  }

  /** The pads and misses of entry `k` on the board it meets are those read off the design. */
  lemma EntryOnDesign(o: Extracted, s: set<Pad>, base: int, id: int, b: Extracted, netNodes: map<string, Node>, pads: RolePads,
                      es: seq<Entry>, k: nat)
    requires Severed(o, s, base, id, b) && NamesApart(netNodes) && RolesStay(pads, o) && OneNetPerNumber(o)
    requires k < |es| && SeveredBy(o, netNodes, pads, es, k, s)
    ensures forall p :: p in s || EntryPad(b, netNodes, pads, es[k].terminals, p) <==> TracedBy(o, netNodes, pads, es, k + 1, p)
    ensures forall ft :: HasPad(b, netNodes, pads, ft) <==> PadLeft(o, netNodes, pads, es, k, ft)
  {
    forall ft, p
      ensures PadOf(b, netNodes, pads, ft, p) <==> PadOf(o, netNodes, pads, ft, p) && p !in s
    {
      PadOfSame(o, s, base, id, b, netNodes, pads, es, k, ft, p);
    }
    forall p
      ensures p in s || EntryPad(b, netNodes, pads, es[k].terminals, p) <==> TracedBy(o, netNodes, pads, es, k + 1, p)
    {
      TracedByMore(o, netNodes, pads, es, k, p);
    }
  }

  lemma MissesOnDesign(o: Extracted, s: set<Pad>, base: int, id: int, b: Extracted, netNodes: map<string, Node>, pads: RolePads,
                       es: seq<Entry>, k: nat)
    requires Severed(o, s, base, id, b) && NamesApart(netNodes) && k < |es|
    requires forall ft :: HasPad(b, netNodes, pads, ft) <==> PadLeft(o, netNodes, pads, es, k, ft)
    ensures MissedRefs(b, netNodes, pads, es[k].terminals) == LeftRefs(o, netNodes, pads, es, k)
    ensures MissedNets(b, netNodes, pads, es[k].terminals) == LeftNets(o, netNodes, pads, es, k)
  {
    forall ft | ft in es[k].terminals
      ensures PartOf(b, ft) == PartOf(o, ft)
      ensures forall n :: n in b.nets && StandsFor(b.nets, netNodes, n.id, ft.was) <==>
                          n in o.nets && StandsFor(o.nets, netNodes, n.id, ft.was)
    {
      PartOfSame(o, b, ft);
      forall n
        ensures n in b.nets && StandsFor(b.nets, netNodes, n.id, ft.was) <==>
                n in o.nets && StandsFor(o.nets, netNodes, n.id, ft.was)
      {
        StandsForSame(o, s, base, id, b, netNodes, n.id, ft.was);
        if n in b.nets {
          assert OldOrFresh(o, base, id, n);
        }
      }
    }
  }

  lemma LeftGrows(o: Extracted, netNodes: map<string, Node>, pads: RolePads, es: seq<Entry>, k: nat)
    requires k < |es|
    ensures LeftAsDesigned(o, netNodes, pads, es, k + 1) == LeftAsDesigned(o, netNodes, pads, es, k) + LeftBy(o, netNodes, pads, es, k)
  {
    assert Listings(o, netNodes, pads, es, k + 1)[..k] == Listings(o, netNodes, pads, es, k);
  }

  lemma {:induction false} SeverFromTraces(o: Extracted, s: set<Pad>, base: int, id: int, b: Extracted,
                                           netNodes: map<string, Node>, pads: RolePads, es: seq<Entry>, k: nat)
    returns (s': set<Pad>)
    requires Severed(o, s, base, id, b) && NamesApart(netNodes) && RolesStay(pads, o) && OneNetPerNumber(o)
    requires k <= |es| && SeveredBy(o, netNodes, pads, es, k, s)
    ensures var r := SeverFrom(b, netNodes, pads, es[k..], id, LeftAsDesigned(o, netNodes, pads, es, k));
            && Severed(o, s', base, r.1, r.0) && SeveredBy(o, netNodes, pads, es, |es|, s')
            && r.2 == LeftAsDesigned(o, netNodes, pads, es, |es|)
    decreases |es| - k
  {
    if k == |es| {
      s' := s;
    } else {
      var step := SeverEntry(b, netNodes, pads, es[k], id);
      var s1 := EntrySevers(o, s, base, id, b, netNodes, pads, es[k]);
      EntryOnDesign(o, s, base, id, b, netNodes, pads, es, k);
      MissesOnDesign(o, s, base, id, b, netNodes, pads, es, k);
      LeftGrows(o, netNodes, pads, es, k);
      s' := SeverFromTraces(o, s1, base, step.1, step.0, netNodes, pads, es, k + 1);
      assert es[k..][1..] == es[k + 1..];
    }
  }

  lemma {:induction false} SeverFromSevers(o: Extracted, s: set<Pad>, base: int, id: int, b: Extracted,
                                           netNodes: map<string, Node>, pads: RolePads, es: seq<Entry>, u: seq<Unapplied>)
    returns (s': set<Pad>)
    requires Severed(o, s, base, id, b)
    ensures var r := SeverFrom(b, netNodes, pads, es, id, u); Severed(o, s', base, r.1, r.0)
    decreases |es|
  {
    if es == [] {
      s' := s;
    } else {
      var step := SeverEntry(b, netNodes, pads, es[0], id);
      var s1 := EntrySevers(o, s, base, id, b, netNodes, pads, es[0]);
      s' := SeverFromSevers(o, s1, base, step.1, step.0, netNodes, pads, es[1..], u + step.2);
    }
  }

  lemma NothingSevered(o: Extracted)
    ensures Severed(o, {}, FirstFreeId(o.nets), FirstFreeId(o.nets), o)
  {
  }

  /**
    Severing moves exactly the pads, on the design, of the terminals recorded, each onto a listed net
    of its own; every other pad keeps its net; and an entry lists exactly the parts of its terminals
    that have no pad left to sever.
   */
  lemma SeveringIsFaithful(o: Extracted, netNodes: map<string, Node>, pads: RolePads, es: seq<Entry>)
    returns (s: set<Pad>)
    requires NamesApart(netNodes) && RolesStay(pads, o) && OneNetPerNumber(o)
    ensures var r := SeverFrom(o, netNodes, pads, es, FirstFreeId(o.nets), []);
            && Severed(o, s, FirstFreeId(o.nets), r.1, r.0)
            && SeveredBy(o, netNodes, pads, es, |es|, s)
            && r.2 == LeftAsDesigned(o, netNodes, pads, es, |es|)
  {
    var base := FirstFreeId(o.nets);
    NothingSevered(o);
    s := SeverFromTraces(o, {}, base, base, o, netNodes, pads, es, 0);
    assert es[0..] == es;
  }

  // ---------------------------------------------------------------------------------------------
  // Alone on its net
  // ---------------------------------------------------------------------------------------------

  /** A pin severing left alone is on an id of the range handed out. */
  ghost predicate PinInRange(o: Extracted, s: set<Pad>, base: int, id: int) {
    exists q: Pad :: IsPad(o, q) && q !in s && NetAt(o, q).Some? && base <= NetAt(o, q).value < id
  }

  /** Every severed pad is the only pad on its net. */
  ghost predicate EachAlone(s: set<Pad>, b: Extracted) {
    forall p: Pad, q: Pad :: p in s && IsPad(b, p) && IsPad(b, q) && p != q ==> NetAt(b, p) != NetAt(b, q)
  }

  ghost function IdsHeld(o: Extracted, s: set<Pad>, base: int, id: int, b: Extracted): set<int>
    requires Severed(o, s, base, id, b)
  {
    set p | p in s :: NetAt(b, p).value
  }

  lemma {:induction false} IdsHeldCount(o: Extracted, s: set<Pad>, b: Extracted, left: set<Pad>, ids: set<int>)
    requires left <= s && forall p :: p in left ==> IsPad(b, p) && NetAt(b, p).Some?
    requires forall p, q :: p in left && q in left && NetAt(b, p) == NetAt(b, q) ==> p == q
    requires ids == set p | p in left :: NetAt(b, p).value
    ensures |ids| == |left|
    decreases left
  {
    if left != {} {
      var p :| p in left;
      var rest := left - {p};
      var restIds := set q | q in rest :: NetAt(b, q).value;
      assert ids == restIds + {NetAt(b, p).value};
      IdsHeldCount(o, s, b, rest, restIds);
    }
  }

  lemma {:induction false} RangeCount(base: int, n: nat) returns (range: set<int>)
    ensures |range| == n && forall x :: x in range <==> base <= x < base + n
    decreases n
  {
    if n == 0 {
      range := {};
    } else {
      var rest := RangeCount(base, n - 1);
      range := rest + {base + n - 1};
    }
  }

  /** Moving each pad once hands out no id that no pad holds. */
  lemma EveryIdHeld(o: Extracted, s: set<Pad>, base: int, id: int, b: Extracted, x: int)
    requires Severed(o, s, base, id, b) && id - base == |s| && base <= x < id
    ensures exists p :: p in s && NetAt(b, p) == Some(x)
  {
    var ids := IdsHeld(o, s, base, id, b);
    IdsHeldCount(o, s, b, s, ids);
    var range := RangeCount(base, |s|);
    assert ids <= range;
    if x !in ids {
      SubsetSize(ids, range - {x});
      assert false;
    }
  }

  /**
    The severed pads stand alone when no pin left as it was carries an id handed out, and, each pad
    having been moved once, only then.
   */
  lemma AloneIff(o: Extracted, s: set<Pad>, base: int, id: int, b: Extracted)
    requires Severed(o, s, base, id, b)
    ensures !PinInRange(o, s, base, id) ==> EachAlone(s, b)
    ensures id - base == |s| ==> (EachAlone(s, b) <==> !PinInRange(o, s, base, id))
  {
    if q: Pad :| IsPad(o, q) && q !in s && NetAt(o, q).Some? && base <= NetAt(o, q).value < id && id - base == |s| {
      EveryIdHeld(o, s, base, id, b, NetAt(o, q).value);
      var p :| p in s && NetAt(b, p) == NetAt(o, q);
      assert IsPad(b, p) && IsPad(b, q) && NetAt(b, q) == NetAt(o, q);
    }
  }

  // ---------------------------------------------------------------------------------------------
  // From the overlay's cuts and lifts to the severed pads
  // ---------------------------------------------------------------------------------------------

  ghost predicate TerminalPad(o: Extracted, d: Board, pads: RolePads, t: Terminal, p: Pad) {
    && IsTerminal(d, t)
    && exists role :: Slot(role) == t.1
                      && PadOf(o, d.netNodes, pads, FloatedTerminal(d.devices[t.0].name, role, NodeAt(d, t)), p)
  }

  /** An entry lists the part of the terminal's transistor. */
  ghost predicate PartListed(o: Extracted, d: Board, t: Terminal, u: seq<Unapplied>)
    requires IsTerminal(d, t)
  {
    exists x, role :: x in u && PartOf(o, FloatedTerminal(d.devices[t.0].name, role, NodeAt(d, t))) in x.refs
  }

  lemma PadlessIsLeft(o: Extracted, netNodes: map<string, Node>, pads: RolePads, es: seq<Entry>, k: nat, ft: FloatedTerminal)
    requires k < |es| && ft in es[k].terminals && !HasPad(o, netNodes, pads, ft)
    ensures PartOf(o, ft) in LeftRefs(o, netNodes, pads, es, k)
  {
    assert !PadLeft(o, netNodes, pads, es, k, ft);
  }

  /** A recorded terminal without a pad on the design is listed under its entry. */
  lemma PadlessIsListed(o: Extracted, netNodes: map<string, Node>, pads: RolePads, es: seq<Entry>, k: nat, ft: FloatedTerminal)
    requires k < |es| && ft in es[k].terminals && !HasPad(o, netNodes, pads, ft)
    ensures exists x :: x in LeftAsDesigned(o, netNodes, pads, es, |es|) && x.entry == es[k].name && PartOf(o, ft) in x.refs
  {
    PadlessIsLeft(o, netNodes, pads, es, k, ft);
    var x := Unapplied(es[k].name, LeftRefs(o, netNodes, pads, es, k), LeftNets(o, netNodes, pads, es, k));
    assert x in LeftBy(o, netNodes, pads, es, k);
    FlatHolds(Listings(o, netNodes, pads, es, |es|), k, x);
  }

  lemma RecordedPad(o: Extracted, d: Board, pads: RolePads, ft: FloatedTerminal, t: Terminal, p: Pad)
    requires Records(d, ft, t)
    ensures PadOf(o, d.netNodes, pads, ft, p) <==> TerminalPad(o, d, pads, t, p)
  {
    assert ft == FloatedTerminal(d.devices[t.0].name, ft.role, NodeAt(d, t));
    forall role | Slot(role) == t.1
      ensures role == ft.role
    {
    }
  }

  /** What a terminal floated a second time left is no net's node, so that record traces to no pad. */
  lemma FloatHasNoPad(o: Extracted, d: Board, pads: RolePads, ft: FloatedTerminal, t: Terminal, p: Pad)
    requires RecordsAgain(d, ft, t) && NodesBelowBase(d)
    ensures !PadOf(o, d.netNodes, pads, ft, p)
  {
  }

  lemma RecordIsOfFloat(o: Extracted, d: Board, pads: RolePads, e: Entry, f: set<Terminal>, p: Pad) returns (t: Terminal)
    requires EntryWithin(d, e, f) && NodesBelowBase(d) && EntryPad(o, d.netNodes, pads, e.terminals, p)
    ensures t in f && TerminalPad(o, d, pads, t, p)
  {
    var ft :| ft in e.terminals && PadOf(o, d.netNodes, pads, ft, p);
    assert SpeaksOfOne(d, f, ft);
    t :| t in f && (Records(d, ft, t) || RecordsAgain(d, ft, t));
    if !Records(d, ft, t) {
      FloatHasNoPad(o, d, pads, ft, t, p);
    }
    RecordedPad(o, d, pads, ft, t, p);
  }

  lemma FloatIsRecorded(o: Extracted, d: Board, pads: RolePads, es: seq<Entry>, t: Terminal, p: Pad)
    requires Recorded(d, es, t) && TerminalPad(o, d, pads, t, p)
    ensures TracedBy(o, d.netNodes, pads, es, |es|, p)
  {
    var e :| e in es && EntryRecords(d, e, t);
    var ft :| ft in e.terminals && Records(d, ft, t);
    RecordedPad(o, d, pads, ft, t, p);
    assert EntryPad(o, d.netNodes, pads, e.terminals, p);
    var i :| 0 <= i < |es| && es[i] == e;
  }

  /** The recorded terminals' pads are those of the terminals the bound board floats. */
  lemma RecordedPads(o: Extracted, d: Board, pads: RolePads, es: seq<Entry>, f: set<Terminal>, p: Pad)
    requires RecordsExactly(d, es, f) && NodesBelowBase(d)
    ensures TracedBy(o, d.netNodes, pads, es, |es|, p) <==> exists t :: t in f && TerminalPad(o, d, pads, t, p)
  {
    if TracedBy(o, d.netNodes, pads, es, |es|, p) {
      var i :| 0 <= i < |es| && EntryPad(o, d.netNodes, pads, es[i].terminals, p);
      assert es[i] in es;
      var t := RecordIsOfFloat(o, d, pads, es[i], f, p);
    }
    if t :| t in f && TerminalPad(o, d, pads, t, p) {
      FloatIsRecorded(o, d, pads, es, t, p);
    }
  }

  lemma UntracedIsListed(o: Extracted, d: Board, pads: RolePads, es: seq<Entry>, f: set<Terminal>, t: Terminal)
    requires RecordsExactly(d, es, f) && t in f && IsTerminal(d, t) && forall p :: !TerminalPad(o, d, pads, t, p)
    ensures PartListed(o, d, t, LeftAsDesigned(o, d.netNodes, pads, es, |es|))
  {
    assert Recorded(d, es, t);
    var e :| e in es && EntryRecords(d, e, t);
    var ft :| ft in e.terminals && Records(d, ft, t);
    var k :| 0 <= k < |es| && es[k] == e;
    forall p
      ensures !PadOf(o, d.netNodes, pads, ft, p)
    {
      RecordedPad(o, d, pads, ft, t, p);
    }
    PadlessIsListed(o, d.netNodes, pads, es, k, ft);
    assert ft == FloatedTerminal(d.devices[t.0].name, ft.role, NodeAt(d, t));
  }

  lemma RecordedAreSevered(o: Extracted, d: Board, pads: RolePads, es: seq<Entry>, f: set<Terminal>, s: set<Pad>)
    requires RecordsExactly(d, es, f) && NodesBelowBase(d) && SeveredBy(o, d.netNodes, pads, es, |es|, s)
    ensures forall p :: p in s <==> exists t :: t in f && TerminalPad(o, d, pads, t, p)
    ensures forall t :: t in f && (forall p :: !TerminalPad(o, d, pads, t, p)) ==>
      IsTerminal(d, t) && PartListed(o, d, t, LeftAsDesigned(o, d.netNodes, pads, es, |es|))
  {
    forall p
      ensures p in s <==> exists t :: t in f && TerminalPad(o, d, pads, t, p)
    {
      RecordedPads(o, d, pads, es, f, p);
    }
    forall t | t in f && (forall p :: !TerminalPad(o, d, pads, t, p))
      ensures IsTerminal(d, t) && PartListed(o, d, t, LeftAsDesigned(o, d.netNodes, pads, es, |es|))
    {
      assert Recorded(d, es, t);
      UntracedIsListed(o, d, pads, es, f, t);
    }
  }

  /**
    The whole way: the pads severed on the static board are exactly the pads of the terminals the
    overlay's cuts and lifts float on the bound board, and a floated terminal without a pad has its
    part listed.
   */
  lemma FloatedPadsAreSevered(o: Extracted, d: Board, ov: Overlay, pads: RolePads) returns (s: set<Pad>)
    requires FloatedSpec(d, ov).Ok? && NamesApart(d.netNodes) && RolesStay(pads, o) && OneNetPerNumber(o)
    ensures var base := FirstFreeId(o.nets);
            var r := SeverFrom(o, d.netNodes, pads, FloatedSpec(d, ov).value, base, []);
            && Severed(o, s, base, r.1, r.0)
            && (forall p :: p in s <==> exists t :: t in FloatSet(d, ov) && TerminalPad(o, d, pads, t, p))
            && (forall t :: t in FloatSet(d, ov) && (forall p :: !TerminalPad(o, d, pads, t, p)) ==>
                  IsTerminal(d, t) && PartListed(o, d, t, r.2))
  {
    var es, f := FloatedSpec(d, ov).value, FloatSet(d, ov);
    EntriesRecordFloats(d, ov);
    s := SeveringIsFaithful(o, d.netNodes, pads, es);
    if ov.cuts == [] && ov.lifts == [] {
      assert f == {} && es == [];
    } else {
      UnusedSpaceIsBelowBase(d);
      RecordedAreSevered(o, d, pads, es, f, s);
    }
  }

  // ---------------------------------------------------------------------------------------------
  // Where a pin's id, or a net's name, gets in the way
  // ---------------------------------------------------------------------------------------------

  const Q1: Component := Component("Q1", "", "", [Pin("1", Some(1))])
  const R1: Component := Component("R1", "", "", [Pin("1", Some(2))])
  const ONE_PAD: RolePads := (_, _) => {"1"}

  /** One terminal, traced to the one pad its part has. */
  lemma OnePadEntry(b: Extracted, netNodes: map<string, Node>, e: Entry, ft: FloatedTerminal, id: int)
    requires e.terminals == [ft] && PadOf(b, netNodes, ONE_PAD, ft, (0, 0))
    requires |b.components[0].pins| == 1
    ensures SeverEntry(b, netNodes, ONE_PAD, e, id)
            == (MovePad(b, (0, 0), id, SeverName(e.op, b.components[0], b.components[0].pins[0])), id + 1, [])
  {
    TraceIs(b, netNodes, ONE_PAD, ft, (0, 0));
    var c := b.components[0];
    var was := WasNets(b.nets, netNodes, ft.was);
    assert PinsUpTo(c, {"1"}, was, 0, 0) == [];
    assert Trace(b, netNodes, ONE_PAD, ft) == [(0, 0)];
    var fs := Finds(b, netNodes, ONE_PAD, e.terminals);
    assert fs == [FindOf(b, netNodes, ONE_PAD, ft)];
    assert fs[..0] == [];
    assert PlanOf(fs[..0]) == Plan([], {}, {});
    assert PlanOf(fs) == Plan([(0, 0)], {}, {});
    assert SeverUpTo(b, e.op, [(0, 0)], id, 0) == b;
  }

  /** A pin on an unlisted net id shares the fresh net of a severed pad. */
  lemma UnlistedNetExample()
    ensures var o := Extracted([Net(1, "N")], [Q1, R1]);
            var es := [Entry("cut N", "cut", [FloatedTerminal("Q1", Base, 9)])];
            var r := SeverFrom(o, map["N" := 9], ONE_PAD, es, FirstFreeId(o.nets), []);
            && PinInRange(o, {(0, 0)}, FirstFreeId(o.nets), r.1)
            && IsPad(r.0, (0, 0)) && IsPad(r.0, (1, 0)) && NetAt(r.0, (0, 0)) == NetAt(r.0, (1, 0)) == Some(2)
  {
    var n := Net(1, "N");
    var o := Extracted([n], [Q1, R1]);
    var ft := FloatedTerminal("Q1", Base, 9);
    var e := Entry("cut N", "cut", [ft]);
    assert n in o.nets;
    assert o.components[..1] == [Q1];
    assert Owner(o.components, "Q1") == Some((0, ""));
    assert StandsFor(o.nets, map["N" := 9], 1, 9);
    OnePadEntry(o, map["N" := 9], e, ft, 2);
    assert [e][1..] == [];
    assert NetAt(o, (1, 0)) == Some(2);
  }

  const LONE: Extracted := Extracted([Net(1, "N")], [Q1])
  const OWN_NAME: string := "asbuilt-cut-(Q1-Pad1)"
  const ALIASED: map<string, Node> := map["N" := 9, OWN_NAME := 7]
  const ON_N: FloatedTerminal := FloatedTerminal("Q1", Base, 9)
  const ON_OWN: FloatedTerminal := FloatedTerminal("Q1", Collector, 7)
  const TWO_CUTS: seq<Entry> := [Entry("cut N", "cut", [ON_N]), Entry("cut X", "cut", [ON_OWN])]

  lemma LoneOwner()
    ensures Owner(LONE.components, "Q1") == Some((0, ""))
  {
  }

  lemma TwoEntries(b: Extracted, netNodes: map<string, Node>, pads: RolePads, es: seq<Entry>, id: int)
    requires |es| == 2
    ensures var step := SeverEntry(b, netNodes, pads, es[0], id);
            var next := SeverEntry(step.0, netNodes, pads, es[1], step.1);
            SeverFrom(b, netNodes, pads, es, id, []) == (next.0, next.1, step.2 + next.2)
  {
    var step := SeverEntry(b, netNodes, pads, es[0], id);
    var rest := es[1..];
    assert rest == [es[1]] && rest[1..] == [];
    var next := SeverEntry(step.0, netNodes, pads, rest[0], step.1);
    var u := step.2 + next.2;
    assert [] + step.2 == step.2;
    assert SeverFrom(step.0, netNodes, pads, rest, step.1, step.2) == SeverFrom(next.0, netNodes, pads, [], next.1, u);
    assert SeverFrom(next.0, netNodes, pads, [], next.1, u) == (next.0, next.1, u);
  }

  lemma OwnName()
    ensures SeverName("cut", Q1, Q1.pins[0]) == OWN_NAME
  {
  }

  lemma FirstCut()
    ensures SeverEntry(LONE, ALIASED, ONE_PAD, TWO_CUTS[0], 2) == (MovePad(LONE, (0, 0), 2, OWN_NAME), 3, [])
  {
    LoneOwner();
    assert Net(1, "N") in LONE.nets;
    assert StandsFor(LONE.nets, ALIASED, 1, 9);
    OnePadEntry(LONE, ALIASED, TWO_CUTS[0], ON_N, 2);
    OwnName();
  }

  lemma SecondCut()
    ensures SeverEntry(MovePad(LONE, (0, 0), 2, OWN_NAME), ALIASED, ONE_PAD, TWO_CUTS[1], 3).2 == []
  {
    var b := MovePad(LONE, (0, 0), 2, OWN_NAME);
    MovePadPart(LONE, (0, 0), 2, OWN_NAME);
    LoneOwner();
    OwnerSame(LONE, b, "Q1");
    assert Net(2, OWN_NAME) in b.nets;
    assert StandsFor(b.nets, ALIASED, 2, 7);
    OnePadEntry(b, ALIASED, TWO_CUTS[1], ON_OWN, 3);
  }

  lemma NoPadOnDesign()
    ensures LeftBy(LONE, ALIASED, ONE_PAD, TWO_CUTS, 1) != []
  {
    LoneOwner();
    forall p
      ensures !PadOf(LONE, ALIASED, ONE_PAD, ON_OWN, p)
    {
    }
    assert TWO_CUTS[1].terminals[0] == ON_OWN;
    PadlessIsLeft(LONE, ALIASED, ONE_PAD, TWO_CUTS, 1, ON_OWN);
  }

  lemma OnePadStays()
    ensures !NamesApart(ALIASED) && RolesStay(ONE_PAD, LONE) && OneNetPerNumber(LONE)
  {
    assert OWN_NAME in ALIASED && OWN_NAME[..8] == MARK;
  }

  /**
    With a bound net named like a severed pad's own, the pad is found a second time for a terminal it
    is no pad of on the design, whose part then goes unlisted.
   */
  lemma SeverNameExample()
    ensures !NamesApart(ALIASED) && RolesStay(ONE_PAD, LONE) && OneNetPerNumber(LONE)
    ensures SeverFrom(LONE, ALIASED, ONE_PAD, TWO_CUTS, 2, []).2 == [] && FirstFreeId(LONE.nets) == 2
    ensures LeftBy(LONE, ALIASED, ONE_PAD, TWO_CUTS, 1) != []
  {
    OnePadStays();
    FirstCut();
    SecondCut();
    NoPadOnDesign();
    TwoEntries(LONE, ALIASED, ONE_PAD, TWO_CUTS, 2);
  }
}
