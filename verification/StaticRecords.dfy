/** What the bound board floats, as the entries handed to the static board record it. */
module StaticRecords {
  import opened Wrappers
  import opened Connectivity
  import opened Circuit
  import opened Bound
  import opened AsBuilt
  import opened AsBuiltProofs
  import opened StaticBoard

  // ---------------------------------------------------------------------------------------------
  // The entries carry exactly the floated terminals
  // ---------------------------------------------------------------------------------------------

  /** The record names that terminal's transistor and role. */
  ghost predicate Places(o: Board, ft: FloatedTerminal, t: Terminal) {
    && IsTerminal(o, t) && o.devices[t.0].Bjt?
    && ft.device == o.devices[t.0].name && Slot(ft.role) == t.1
  }

  /** The record speaks of terminal `t` and of the node it has on the design. */
  ghost predicate Records(o: Board, ft: FloatedTerminal, t: Terminal) {
    Places(o, ft, t) && ft.was == NodeAt(o, t)
  }

  /** A terminal floated once more: what it left is a float id of its own, the node of no net. */
  ghost predicate RecordsAgain(o: Board, ft: FloatedTerminal, t: Terminal) {
    Places(o, ft, t) && ft.was >= FLOAT_NODE_BASE
  }

  /** The entry's list speaks of `t`. */
  ghost predicate EntryRecords(o: Board, e: Entry, t: Terminal) {
    exists ft :: ft in e.terminals && Records(o, ft, t)
  }

  ghost predicate SpeaksOfOne(o: Board, f: set<Terminal>, ft: FloatedTerminal) {
    exists t :: t in f && (Records(o, ft, t) || RecordsAgain(o, ft, t))
  }

  /** The entry's list speaks of nothing but terminals of `f`. */
  ghost predicate EntryWithin(o: Board, e: Entry, f: set<Terminal>) {
    forall ft :: ft in e.terminals ==> SpeaksOfOne(o, f, ft)
  }

  ghost predicate Recorded(o: Board, es: seq<Entry>, t: Terminal) {
    exists e :: e in es && EntryRecords(o, e, t)
  }

  /** The entries speak of every terminal of `f`, and of no other. */
  ghost predicate RecordsExactly(o: Board, es: seq<Entry>, f: set<Terminal>) {
    && (forall t :: t in f ==> Recorded(o, es, t))
    && (forall e :: e in es ==> EntryWithin(o, e, f))
  }

  lemma {:induction false} MovedRolesAre(d: Device, d': Device, k: nat)
    requires d.Bjt? && d'.Bjt? && d'.name == d.name && k <= |ROLES|
    ensures forall ft :: ft in MovedRoles(d, d', k) <==>
      exists r: Role :: r in ROLES[..k] && RoleNode(d, r) != RoleNode(d', r) && ft == FloatedTerminal(d.name, r, RoleNode(d, r))
  {
    if k > 0 {
      MovedRolesAre(d, d', k - 1);
      assert ROLES[..k] == ROLES[..k - 1] + [ROLES[k - 1]];
    }
  }

  /** A terminal before device `k` that the record names moved. */
  ghost predicate MovedBefore(o: Board, b: Board, c: Board, k: nat, ft: FloatedTerminal) {
    exists t: Terminal :: t.0 < k && MovedThere(o, b, c, t, ft)
  }

  ghost predicate MovedAt(o: Board, b: Board, c: Board, i: nat, ft: FloatedTerminal) {
    exists t: Terminal :: t.0 == i && MovedThere(o, b, c, t, ft)
  }

  ghost predicate MovedThere(o: Board, b: Board, c: Board, t: Terminal, ft: FloatedTerminal) {
    && |b.devices| == |c.devices| == |o.devices| && SameParts(o, b) && SameParts(o, c)
    && Places(o, ft, t) && NodeAt(b, t) != NodeAt(c, t) && ft.was == NodeAt(b, t)
  }

  lemma {:induction false} MovedUpToAt(o: Board, b: Board, c: Board, k: nat, ft: FloatedTerminal)
    requires |b.devices| == |c.devices| == |o.devices| && k <= |o.devices|
    requires SameParts(o, b) && SameParts(o, c)
    ensures ft in MovedUpTo(b.devices, c.devices, k) <==> MovedBefore(o, b, c, k, ft)
  {
    if k > 0 {
      MovedUpToAt(o, b, c, k - 1, ft);
      MovedHere(o, b, c, k, ft);
      MovedBeforeStep(o, b, c, k, ft);
    } else {
      NoneMovedBefore(o, b, c, ft);
    }
  }

  lemma NoneMovedBefore(o: Board, b: Board, c: Board, ft: FloatedTerminal)
    ensures !MovedBefore(o, b, c, 0, ft)
  {
  }

  lemma MovedBeforeStep(o: Board, b: Board, c: Board, k: nat, ft: FloatedTerminal)
    requires k > 0
    ensures MovedBefore(o, b, c, k, ft) <==>
            MovedBefore(o, b, c, k - 1, ft) || MovedAt(o, b, c, k - 1, ft)
  {
  }

  lemma MovedUpToAre(o: Board, b: Board, c: Board, k: nat)
    requires |b.devices| == |c.devices| == |o.devices| && k <= |o.devices|
    requires SameParts(o, b) && SameParts(o, c)
    ensures forall ft :: ft in MovedUpTo(b.devices, c.devices, k) <==>
      exists t: Terminal :: t.0 < k && Places(o, ft, t) && NodeAt(b, t) != NodeAt(c, t) && ft.was == NodeAt(b, t)
  {
    forall ft
      ensures ft in MovedUpTo(b.devices, c.devices, k) <==>
        exists t: Terminal :: t.0 < k && Places(o, ft, t) && NodeAt(b, t) != NodeAt(c, t) && ft.was == NodeAt(b, t)
    {
      MovedUpToAt(o, b, c, k, ft);
    }
  }

  /** What the last device adds: an entry for each of its own moved terminals. */
  lemma MovedHere(o: Board, b: Board, c: Board, k: nat, ft: FloatedTerminal)
    requires |b.devices| == |c.devices| == |o.devices| && 0 < k <= |o.devices|
    requires SameParts(o, b) && SameParts(o, c)
    ensures ft in MovedUpTo(b.devices, c.devices, k) <==>
            ft in MovedUpTo(b.devices, c.devices, k - 1) || MovedAt(o, b, c, k - 1, ft)
  {
    var i := k - 1;
    if b.devices[i].Bjt? {
      MovedRolesAre(b.devices[i], c.devices[i], |ROLES|);
      assert ROLES[..|ROLES|] == ROLES;
      MovedDevice(o, b, c, i, ft);
    }
  }

  lemma MovedDevice(o: Board, b: Board, c: Board, i: nat, ft: FloatedTerminal)
    requires |b.devices| == |c.devices| == |o.devices| && i < |o.devices|
    requires SameParts(o, b) && SameParts(o, c) && b.devices[i].Bjt?
    ensures (exists r: Role :: r in ROLES && RoleNode(b.devices[i], r) != RoleNode(c.devices[i], r)
               && ft == FloatedTerminal(b.devices[i].name, r, RoleNode(b.devices[i], r)))
            <==> exists t: Terminal :: t.0 == i && Places(o, ft, t) && NodeAt(b, t) != NodeAt(c, t) && ft.was == NodeAt(b, t)
  {
    var t: Terminal := (i, Slot(ft.role));
    SetRoleMovesOneTerminal(b.devices[i], ft.role, 0);
    SetRoleMovesOneTerminal(c.devices[i], ft.role, 0);
    assert ft.role in ROLES by {
      match ft.role
      case Base => assert ROLES[0] == Base;
      case Collector => assert ROLES[1] == Collector;
      case Emitter => assert ROLES[2] == Emitter;
    }
    assert IsTerminal(o, t) && NodeAt(b, t) == RoleNode(b.devices[i], ft.role) && NodeAt(c, t) == RoleNode(c.devices[i], ft.role);
  }

  /** A step moves exactly the terminals it takes: its ids are above every node in use. */
  lemma StepMoves(o: Board, f: set<Terminal>, next: Node, b: Board, s: Selector, role: Role)
    requires Floated(o, f, next, b) && NodesBelowBase(o)
    ensures var c := b.(devices := FloatDevices(b.devices, s, role, next));
            forall t: Terminal :: IsTerminal(o, t) ==>
              IsTerminal(b, t) && IsTerminal(c, t) && (NodeAt(b, t) != NodeAt(c, t) <==> t in Taken(b, s, role))
  {
    forall t: Terminal | IsTerminal(o, t) {
      FloatStepAt(o, f, next, b, s, role, t);
    }
  }

  /** The record of one step speaks of exactly the terminals the step took. */
  lemma StepRecords(o: Board, f: set<Terminal>, next: Node, b: Board, s: Selector, role: Role, e: Entry)
    requires Floated(o, f, next, b) && NodesBelowBase(o)
    requires e.terminals == MovedUpTo(b.devices, FloatDevices(b.devices, s, role, next), |b.devices|)
    ensures forall t :: t in Taken(b, s, role) && t !in f ==> EntryRecords(o, e, t)
    ensures EntryWithin(o, e, Taken(b, s, role))
  {
    var c := b.(devices := FloatDevices(b.devices, s, role, next));
    StepMoves(o, f, next, b, s, role);
    FloatStepParts(o, f, next, b, s, role);
    MovedUpToAre(o, b, c, |o.devices|);
    forall t | t in Taken(b, s, role) && t !in f
      ensures EntryRecords(o, e, t)
    {
      TakenAreTerminals(b, s, role);
      var ft := FloatedTerminal(o.devices[t.0].name, role, NodeAt(b, t));
      assert Places(o, ft, t);
      assert Records(o, ft, t);
    }
    forall ft | ft in e.terminals
      ensures SpeaksOfOne(o, Taken(b, s, role), ft)
    {
      var t: Terminal :| t.0 < |o.devices| && Places(o, ft, t) && NodeAt(b, t) != NodeAt(c, t) && ft.was == NodeAt(b, t);
      assert t in Taken(b, s, role) && (Records(o, ft, t) || RecordsAgain(o, ft, t));
    }
  }

  lemma EntryWithinMore(o: Board, e: Entry, f: set<Terminal>, g: set<Terminal>)
    requires EntryWithin(o, e, f) && f <= g
    ensures EntryWithin(o, e, g)
  {
    forall ft | ft in e.terminals
      ensures SpeaksOfOne(o, g, ft)
    {
      assert SpeaksOfOne(o, f, ft);
      var t :| t in f && (Records(o, ft, t) || RecordsAgain(o, ft, t));
      assert t in g;
    }
  }

  /** Noting a step that took `taken` keeps the record exact. */
  lemma NoteStep(o: Board, es: seq<Entry>, e: Entry, f: set<Terminal>, taken: set<Terminal>)
    requires RecordsExactly(o, es, f)
    requires forall t :: t in taken && t !in f ==> EntryRecords(o, e, t)
    requires EntryWithin(o, e, taken)
    ensures RecordsExactly(o, es + [e], f + taken)
  {
    var es' := es + [e];
    forall t | t in f + taken
      ensures Recorded(o, es', t)
    {
      if t in f {
        var x :| x in es && EntryRecords(o, x, t);
        assert x in es';
      } else {
        assert e in es';
      }
    }
    forall x | x in es'
      ensures EntryWithin(o, x, f + taken)
    {
      if x in es {
        EntryWithinMore(o, x, f, f + taken);
      } else {
        EntryWithinMore(o, e, taken, f + taken);
      }
    }
  }

  lemma CutStepRecord(o: Board, f: set<Terminal>, next: Node, b: Board, c: Cut, es: seq<Entry>)
    requires Floated(o, f, next, b) && NodesBelowBase(o) && RecordsExactly(o, es, f) && CutSpec(b, c, next).Ok?
    ensures RecordsExactly(o, es + [CutEntry(b, c, CutSpec(b, c, next).value.0)], f + CutSet(o, [c]))
  {
    var s, e := OnNodes(MatchedNodes(b.netNodes, c.netGlob)), CutEntry(b, c, CutSpec(b, c, next).value.0);
    StepRecords(o, f, next, b, s, c.role, e);
    NoteStep(o, es, e, f, Taken(b, s, c.role));
    CutTakes(o, f, next, b, c);
  }

  lemma LiftStepRecord(o: Board, f: set<Terminal>, next: Node, b: Board, l: Lift, es: seq<Entry>)
    requires Floated(o, f, next, b) && NodesBelowBase(o) && RecordsExactly(o, es, f) && LiftSpec(b, l, next).Ok?
    ensures RecordsExactly(o, es + [LiftEntry(b, l, LiftSpec(b, l, next).value.0)], f + LiftSet(o, [l]))
  {
    var s, e := Named(l.reference), LiftEntry(b, l, LiftSpec(b, l, next).value.0);
    StepRecords(o, f, next, b, s, l.role, e);
    NoteStep(o, es, e, f, Taken(b, s, l.role));
    LiftTakes(o, f, next, b, l);
  }

  lemma CutStepFloats(o: Board, f: set<Terminal>, next: Node, b: Board, c: Cut)
    requires Floated(o, f, next, b) && NodesBelowBase(o) && CutSpec(b, c, next).Ok?
    ensures Floated(o, f + CutSet(o, [c]), CutSpec(b, c, next).value.1, CutSpec(b, c, next).value.0)
  {
    var s := OnNodes(MatchedNodes(b.netNodes, c.netGlob));
    FloatStep(o, f, next, b, s, c.role);
    CutTakes(o, f, next, b, c);
  }

  lemma LiftStepFloats(o: Board, f: set<Terminal>, next: Node, b: Board, l: Lift)
    requires Floated(o, f, next, b) && LiftSpec(b, l, next).Ok?
    ensures Floated(o, f + LiftSet(o, [l]), LiftSpec(b, l, next).value.1, LiftSpec(b, l, next).value.0)
  {
    FloatStep(o, f, next, b, Named(l.reference), l.role);
    LiftTakes(o, f, next, b, l);
  }

  lemma CutSetJoins(o: Board, f: set<Terminal>, cs: seq<Cut>)
    requires cs != []
    ensures f + CutSet(o, [cs[0]]) + CutSet(o, cs[1..]) == f + CutSet(o, cs)
  {
    CutSetSplits(o, cs);
  }

  lemma LiftSetJoins(o: Board, f: set<Terminal>, ls: seq<Lift>)
    requires ls != []
    ensures f + LiftSet(o, [ls[0]]) + LiftSet(o, ls[1..]) == f + LiftSet(o, ls)
  {
    LiftSetSplits(o, ls);
  }

  lemma {:induction false} CutEntriesRecord(o: Board, f: set<Terminal>, next: Node, b: Board, cs: seq<Cut>, es: seq<Entry>)
    requires Floated(o, f, next, b) && NodesBelowBase(o) && RecordsExactly(o, es, f)
    requires CutEntries(b, cs, next, es).Ok?
    ensures RecordsExactly(o, CutEntries(b, cs, next, es).value.2, f + CutSet(o, cs))
    decreases |cs|
  {
    if cs == [] {
      assert f + CutSet(o, cs) == f;
    } else {
      var c, v, f1 := cs[0], CutSpec(b, cs[0], next).value, f + CutSet(o, [cs[0]]);
      var es1 := es + [CutEntry(b, c, v.0)];
      CutSetJoins(o, f, cs);
      assert Floated(o, f1, v.1, v.0) by { CutStepFloats(o, f, next, b, c); }
      assert RecordsExactly(o, es1, f1) by { CutStepRecord(o, f, next, b, c, es); }
      CutEntriesRecord(o, f1, v.1, v.0, cs[1..], es1);
    }
  }

  lemma {:induction false} LiftEntriesRecord(o: Board, f: set<Terminal>, next: Node, b: Board, ls: seq<Lift>, es: seq<Entry>)
    requires Floated(o, f, next, b) && NodesBelowBase(o) && RecordsExactly(o, es, f)
    requires LiftEntries(b, ls, next, es).Ok?
    ensures RecordsExactly(o, LiftEntries(b, ls, next, es).value.2, f + LiftSet(o, ls))
    decreases |ls|
  {
    if ls == [] {
      assert f + LiftSet(o, ls) == f;
    } else {
      var l, v, f1 := ls[0], LiftSpec(b, ls[0], next).value, f + LiftSet(o, [ls[0]]);
      var es1 := es + [LiftEntry(b, l, v.0)];
      LiftSetJoins(o, f, ls);
      assert Floated(o, f1, v.1, v.0) by { LiftStepFloats(o, f, next, b, l); }
      assert RecordsExactly(o, es1, f1) by { LiftStepRecord(o, f, next, b, l, es); }
      LiftEntriesRecord(o, f1, v.1, v.0, ls[1..], es1);
    }
  }

  lemma {:induction false} CutEntriesAgree(b: Board, cs: seq<Cut>, next: Node, es: seq<Entry>)
    requires CutEntries(b, cs, next, es).Ok?
    ensures var v := CutEntries(b, cs, next, es).value; CutsFrom(b, cs, next) == Ok((v.0, v.1))
    decreases |cs|
  {
    if cs != [] {
      var v := CutSpec(b, cs[0], next).value;
      CutEntriesAgree(v.0, cs[1..], v.1, es + [CutEntry(b, cs[0], v.0)]);
    }
  }

  lemma CutsThenLiftsRecord(o: Board, cs: seq<Cut>, ls: seq<Lift>, b: Board, next: Node, es: seq<Entry>)
    requires NodesBelowBase(o) && CutEntries(o, cs, FLOAT_NODE_BASE, []) == Ok((b, next, es))
    requires LiftEntries(b, ls, next, es).Ok?
    ensures RecordsExactly(o, LiftEntries(b, ls, next, es).value.2, CutSet(o, cs) + LiftSet(o, ls))
  {
    var f := CutSet(o, cs);
    assert {} + f == f;
    assert Floated(o, {}, FLOAT_NODE_BASE, o) && RecordsExactly(o, [], {}) by { NothingFloated(o); }
    assert RecordsExactly(o, es, f) by { CutEntriesRecord(o, {}, FLOAT_NODE_BASE, o, cs, []); }
    assert Floated(o, f, next, b) by {
      CutEntriesAgree(o, cs, FLOAT_NODE_BASE, []);
      CutsFloat(o, {}, FLOAT_NODE_BASE, o, cs);
    }
    LiftEntriesRecord(o, f, next, b, ls, es);
  }

  /** The entries handed to the static board speak of exactly the terminals the bound board floats. */
  lemma EntriesRecordFloats(o: Board, ov: Overlay)
    requires FloatedSpec(o, ov).Ok?
    ensures RecordsExactly(o, FloatedSpec(o, ov).value, FloatSet(o, ov))
  {
    if ov.cuts == [] && ov.lifts == [] {
      assert FloatSet(o, ov) == {};
    } else {
      UnusedSpaceIsBelowBase(o);
      var v2 := CutEntries(o, ov.cuts, FLOAT_NODE_BASE, []).value;
      CutsThenLiftsRecord(o, ov.cuts, ov.lifts, v2.0, v2.1, v2.2);
    }
  }

  lemma NothingFloated(o: Board)
    ensures Floated(o, {}, FLOAT_NODE_BASE, o) && RecordsExactly(o, [], {})
  {
  }
}
