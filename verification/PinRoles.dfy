/** The pads a part's pin roles give a role, and when severing whole roles leaves the other pads theirs. */
module PinRoles {
  import opened Wrappers
  import opened Circuit
  import opened Connectivity
  import opened Bound
  import opened AsBuilt
  import opened AsBuiltProofs
  import opened StaticBoard
  import opened StaticProofs

  // ---------------------------------------------------------------------------------------------
  // The rule
  // ---------------------------------------------------------------------------------------------

  /** What names a part's pads: all of it but the nets its pins are on. */
  datatype Part = Part(reference: string, value: string, libId: string, numbers: seq<string>)

  /**
    The role each naming source gives a pin, by the source's rank: the pin's function, the card's pads,
    an electrode letter, an ordinal, and last the pin-rule table; and whether the part is left open, or
    has no model, with those pins connected.
   */
  datatype Reading = Reading(source: (Part, nat, nat) -> Option<string>, leftOpen: (Part, seq<bool>) -> bool)

  const RULE_TABLE := 4
  const SOURCES := 5

  function PartOfComponent(c: Component): Part {
    Part(c.reference, c.value, c.libId, seq(|c.pins|, i requires 0 <= i < |c.pins| => c.pins[i].number))
  }

  /** Net ids start at 1; a pin on none, or on id 0, has no node. */
  predicate Connected(c: Component, i: nat)
    requires i < |c.pins|
  {
    c.pins[i].net.Some? && c.pins[i].net.value > 0
  }

  function Connections(c: Component): seq<bool> {
    seq(|c.pins|, i requires 0 <= i < |c.pins| => Connected(c, i))
  }

  /** What the first source from `k` on that names the pin calls it. */
  function NameFrom(source: (Part, nat, nat) -> Option<string>, part: Part, i: nat, k: nat): Option<string>
    requires k <= SOURCES
    decreases SOURCES - k
  {
    if k == SOURCES then None
    else if source(part, i, k).Some? then source(part, i, k)
    else NameFrom(source, part, i, k + 1)
  }

  /** A pin's own role. */
  function OwnRole(rd: Reading, c: Component, i: nat): Option<string> {
    NameFrom(rd.source, PartOfComponent(c), i, 0)
  }

  /** The source binds the pin to the role; the rule table speaks only of pins no other source names. */
  predicate Gives(rd: Reading, c: Component, i: nat, k: nat, role: string) {
    && rd.source(PartOfComponent(c), i, k) == Some(role)
    && (k == RULE_TABLE ==> forall j: nat :: j < RULE_TABLE ==> rd.source(PartOfComponent(c), i, j).None?)
  }

  /** The first connected pin, from `i` on, that the source gives the role. */
  function FirstPin(rd: Reading, c: Component, k: nat, role: string, i: nat): (r: Option<nat>)
    requires i <= |c.pins|
    ensures r.Some? ==> r.value < |c.pins| && Connected(c, r.value)
    decreases |c.pins| - i
  {
    if i == |c.pins| then None
    else if Connected(c, i) && Gives(rd, c, i, k, role) then Some(i)
    else FirstPin(rd, c, k, role, i + 1)
  }

  /** The pin whose net the role is bound to: each source visits all pins before the next source does. */
  function BindingPin(rd: Reading, c: Component, role: string, k: nat): (r: Option<nat>)
    requires k <= SOURCES
    ensures r.Some? ==> r.value < |c.pins| && Connected(c, r.value)
    decreases SOURCES - k
  {
    if k == SOURCES then None
    else if FirstPin(rd, c, k, role, 0).Some? then FirstPin(rd, c, k, role, 0)
    else BindingPin(rd, c, role, k + 1)
  }

  /** The pin is on the net the role is bound to, and the role is its own. */
  predicate HasRole(rd: Reading, c: Component, i: nat, role: string)
    requires i < |c.pins|
  {
    && BindingPin(rd, c, role, 0).Some?
    && c.pins[i].net == c.pins[BindingPin(rd, c, role, 0).value].net
    && OwnRole(rd, c, i) == Some(role)
  }

  /** The pads of a role: none on a part left open. */
  function PadsOfRole(rd: Reading, c: Component, role: string): set<string> {
    if rd.leftOpen(PartOfComponent(c), Connections(c)) then {}
    else set i | 0 <= i < |c.pins| && HasRole(rd, c, i, role) :: c.pins[i].number
  }

  function RuleOf(rd: Reading): RolePads {
    (c, role) => PadsOfRole(rd, c, role)
  }

  // ---------------------------------------------------------------------------------------------
  // What a change of nets leaves
  // ---------------------------------------------------------------------------------------------

  /** The same part, with the same pins connected. */
  predicate SameReading(c: Component, d: Component) {
    PartOfComponent(c) == PartOfComponent(d) && Connections(c) == Connections(d)
  }

  lemma {:induction false} SameFirstPin(rd: Reading, c: Component, d: Component, k: nat, role: string, i: nat)
    requires SameReading(c, d) && |c.pins| == |d.pins| && i <= |c.pins|
    ensures FirstPin(rd, c, k, role, i) == FirstPin(rd, d, k, role, i)
    decreases |c.pins| - i
  {
    if i < |c.pins| {
      assert Connections(c)[i] == Connections(d)[i];
      SameFirstPin(rd, c, d, k, role, i + 1);
    }
  }

  /** The binding pin depends on the nets only through which pins are connected. */
  lemma {:induction false} SameBindingPin(rd: Reading, c: Component, d: Component, role: string, k: nat)
    requires SameReading(c, d) && |c.pins| == |d.pins| && k <= SOURCES
    ensures BindingPin(rd, c, role, k) == BindingPin(rd, d, role, k)
    decreases SOURCES - k
  {
    if k < SOURCES {
      SameFirstPin(rd, c, d, k, role, 0);
      SameBindingPin(rd, c, d, role, k + 1);
    }
  }

  /** Pins of one number have one own role. */
  predicate OneRoleEach(rd: Reading, c: Component) {
    forall i: nat, j: nat :: i < |c.pins| && j < |c.pins| && c.pins[i].number == c.pins[j].number ==>
      OwnRole(rd, c, i) == OwnRole(rd, c, j)
  }

  /** A number is a pad of the role exactly when its pins, one for all, have the role. */
  lemma PadIff(rd: Reading, c: Component, role: string, i: nat)
    requires OneNetEach(c) && OneRoleEach(rd, c) && i < |c.pins|
    ensures c.pins[i].number in PadsOfRole(rd, c, role) <==>
            !rd.leftOpen(PartOfComponent(c), Connections(c)) && HasRole(rd, c, i, role)
  {
    if c.pins[i].number in PadsOfRole(rd, c, role) {
      var j: nat :| j < |c.pins| && HasRole(rd, c, j, role) && c.pins[j].number == c.pins[i].number;
      assert OwnRole(rd, c, i) == OwnRole(rd, c, j);
    }
  }

  // ---------------------------------------------------------------------------------------------
  // When roles stay
  // ---------------------------------------------------------------------------------------------

  /** The role's binding pin is no pad of another role, its own, with pads of the role beside it. */
  predicate Settled(rd: Reading, c: Component, role: string) {
    BindingPin(rd, c, role, 0).Some? ==>
      var p := BindingPin(rd, c, role, 0).value;
      || OwnRole(rd, c, p) == Some(role)
      || PadsOfRole(rd, c, role) == {}
      || (OwnRole(rd, c, p).Some? ==> c.pins[p].number !in PadsOfRole(rd, c, OwnRole(rd, c, p).value))
  }

  ghost predicate AllSettled(rd: Reading, c: Component) {
    forall role :: Settled(rd, c, role)
  }

  lemma RegroupedReading(rd: Reading, c: Component, d: Component)
    requires Regrouped(RuleOf(rd), c, d) && OneRoleEach(rd, c)
    ensures SameReading(c, d)
  {
    forall i: nat | i < |c.pins|
      ensures c.pins[i].number == d.pins[i].number && Connected(c, i) == Connected(d, i)
    {
      if PinMoved(c, d, i) {
        assert MovedWhole(RuleOf(rd), c, d, i);
        var role :| WholeRole(RuleOf(rd), c, d, i, role);
        PadIff(rd, c, role, i);
      }
    }
  }

  /** Pins of one number are moved together. */
  lemma MovedTogether(rd: Reading, c: Component, d: Component, i: nat, j: nat)
    requires Regrouped(RuleOf(rd), c, d) && i < |c.pins| && j < |c.pins| && c.pins[i].number == c.pins[j].number
    ensures PinMoved(c, d, i) <==> PinMoved(c, d, j)
  {
    assert c.pins[i].net == c.pins[j].net;
    if PinMoved(c, d, i) {
      var role :| WholeRole(RuleOf(rd), c, d, i, role);
      assert PinMoved(c, d, j);
    }
    if PinMoved(c, d, j) {
      var role :| WholeRole(RuleOf(rd), c, d, j, role);
      assert PinMoved(c, d, i);
    }
  }

  /** No pad of the role stays when its binding pin is moved. */
  lemma NoneStays(rd: Reading, c: Component, d: Component, role: string, i: nat)
    requires Regrouped(RuleOf(rd), c, d) && OneRoleEach(rd, c) && Settled(rd, c, role)
    requires i < |c.pins| && !PinMoved(c, d, i)
    requires BindingPin(rd, c, role, 0).Some? && PinMoved(c, d, BindingPin(rd, c, role, 0).value)
    ensures c.pins[i].number !in PadsOfRole(rd, c, role)
  {
    var p := BindingPin(rd, c, role, 0).value;
    var other :| WholeRole(RuleOf(rd), c, d, p, other);
    PadIff(rd, c, other, p);
    PadIff(rd, c, role, i);
    assert OwnRole(rd, c, p) == Some(other);
  }

  /** A pin left on its net, apart from the moved ones, keeps its roles. */
  lemma RoleStays(rd: Reading, c: Component, d: Component, role: string, i: nat)
    requires Regrouped(RuleOf(rd), c, d) && OneRoleEach(rd, c) && Settled(rd, c, role)
    requires i < |c.pins| && !PinMoved(c, d, i) && ApartFromMoved(c, d, i)
    ensures c.pins[i].number in PadsOfRole(rd, c, role) <==> c.pins[i].number in PadsOfRole(rd, d, role)
  {
    RegroupedReading(rd, c, d);
    SameBindingPin(rd, c, d, role, 0);
    PadIff(rd, c, role, i);
    if BindingPin(rd, c, role, 0).Some? && PinMoved(c, d, BindingPin(rd, c, role, 0).value) {
      NoneStays(rd, c, d, role, i);
    }
    if c.pins[i].number in PadsOfRole(rd, d, role) {
      var j: nat :| j < |d.pins| && HasRole(rd, d, j, role) && d.pins[j].number == d.pins[i].number;
      assert PartOfComponent(c).numbers[i] == c.pins[i].number && PartOfComponent(c).numbers[j] == c.pins[j].number;
      MovedTogether(rd, c, d, i, j);
    }
    if c.pins[i].number in PadsOfRole(rd, c, role) {
      assert HasRole(rd, d, i, role);
    }
  }

  /** Above every net of the first `k` pins. */
  function Above(c: Component, k: nat): (r: int)
    requires k <= |c.pins|
    ensures forall i :: 0 <= i < k && c.pins[i].net.Some? ==> c.pins[i].net.value < r
  {
    if k == 0 then 1
    else
      var rest, net := Above(c, k - 1), c.pins[k - 1].net;
      if net.Some? && net.value >= rest then net.value + 1 else rest
  }

  /** The part with those numbers' pins on that net moved to one above all. */
  function MoveUp(c: Component, numbers: set<string>, net: Option<int>): Component {
    Component(c.reference, c.value, c.libId,
              seq(|c.pins|, i requires 0 <= i < |c.pins| =>
                if c.pins[i].number in numbers && c.pins[i].net == net then Pin(c.pins[i].number, Some(Above(c, |c.pins|)))
                else c.pins[i]))
  }

  lemma MoveUpRegroups(rd: Reading, c: Component, role: string, net: Option<int>)
    requires OneNetEach(c) && net.Some?
    ensures var d := MoveUp(c, PadsOfRole(rd, c, role), net);
            Regrouped(RuleOf(rd), c, d)
  {
    var d := MoveUp(c, PadsOfRole(rd, c, role), net);
    assert SamePart(c, d);
    forall i | 0 <= i < |c.pins| && PinMoved(c, d, i)
      ensures MovedWhole(RuleOf(rd), c, d, i)
    {
      assert WholeRole(RuleOf(rd), c, d, i, role);
    }
  }

  /** A role that is not settled loses a pad when the pads beside it are moved off. */
  lemma UnsettledLoses(rd: Reading, c: Component, role: string) returns (d: Component, i: nat)
    requires OneNetEach(c) && OneRoleEach(rd, c) && !Settled(rd, c, role)
    ensures Regrouped(RuleOf(rd), c, d) && i < |c.pins| && !PinMoved(c, d, i) && ApartFromMoved(c, d, i)
    ensures c.pins[i].number in PadsOfRole(rd, c, role) && c.pins[i].number !in PadsOfRole(rd, d, role)
  {
    var p := BindingPin(rd, c, role, 0).value;
    var other, net := OwnRole(rd, c, p).value, c.pins[p].net;
    d := MoveUp(c, PadsOfRole(rd, c, other), net);
    MoveUpRegroups(rd, c, other, net);
    RegroupedReading(rd, c, d);
    SameBindingPin(rd, c, d, role, 0);
    var number :| number in PadsOfRole(rd, c, role);
    i :| 0 <= i < |c.pins| && HasRole(rd, c, i, role) && c.pins[i].number == number;
    PadIff(rd, c, other, i);
    PadLost(rd, c, d, role, other, p, i);
  }

  lemma PadLost(rd: Reading, c: Component, d: Component, role: string, other: string, p: nat, i: nat)
    requires OneNetEach(c) && OneRoleEach(rd, c) && other != role && p < |c.pins| && i < |c.pins|
    requires d == MoveUp(c, PadsOfRole(rd, c, other), c.pins[p].net) && c.pins[p].net.Some?
    requires PartOfComponent(c) == PartOfComponent(d) && BindingPin(rd, d, role, 0) == Some(p)
    requires c.pins[p].number in PadsOfRole(rd, c, other)
    ensures c.pins[i].number !in PadsOfRole(rd, d, role)
  {
    forall j: nat | j < |d.pins| && OwnRole(rd, d, j) == Some(role)
      ensures d.pins[j].net != d.pins[p].net
    {
      PadIff(rd, c, other, j);
    }
  }

  // ---------------------------------------------------------------------------------------------
  // The rule and severing
  // ---------------------------------------------------------------------------------------------

  /** Pins of one number of a part have one own role, on the whole design. */
  predicate OneRolePerNumber(rd: Reading, o: Extracted) {
    forall i :: 0 <= i < |o.components| ==> OneRoleEach(rd, o.components[i])
  }

  ghost predicate RolesSettled(rd: Reading, o: Extracted) {
    forall i :: 0 <= i < |o.components| ==> AllSettled(rd, o.components[i])
  }

  lemma SettledStays(rd: Reading, c: Component, d: Component, role: string)
    requires Regrouped(RuleOf(rd), c, d) && OneRoleEach(rd, c) && Settled(rd, c, role)
    ensures RolesStayOn(RuleOf(rd), c, d, role)
  {
    forall i | 0 <= i < |c.pins| && !PinMoved(c, d, i) && ApartFromMoved(c, d, i)
      ensures c.pins[i].number in RuleOf(rd)(c, role) <==> c.pins[i].number in RuleOf(rd)(d, role)
    {
      RoleStays(rd, c, d, role, i);
    }
  }

  /**
    The rule keeps the roles of pads that stay exactly when every role of every part is settled on the
    design.
   */
  lemma RuleStaysIff(rd: Reading, o: Extracted)
    requires OneNetPerNumber(o) && OneRolePerNumber(rd, o)
    ensures RolesStay(RuleOf(rd), o) <==> RolesSettled(rd, o)
  {
    if RolesSettled(rd, o) {
      forall i, d: Component, role: string | 0 <= i < |o.components| && Regrouped(RuleOf(rd), o.components[i], d)
        ensures RolesStayOn(RuleOf(rd), o.components[i], d, role)
      {
        assert AllSettled(rd, o.components[i]);
        SettledStays(rd, o.components[i], d, role);
      }
    }
    if i, role :| 0 <= i < |o.components| && !Settled(rd, o.components[i], role) {
      var c := o.components[i];
      var d, k := UnsettledLoses(rd, c, role);
      assert c.pins[k].number in RuleOf(rd)(c, role) && c.pins[k].number !in RuleOf(rd)(d, role);
      assert !RolesStayOn(RuleOf(rd), c, d, role);
    }
  }

  /** No two sources name one pin differently. */
  predicate SourcesAgree(rd: Reading, c: Component) {
    forall i: nat, j: nat, k: nat | i < |c.pins| && j < k < SOURCES ::
      var first, second := rd.source(PartOfComponent(c), i, j), rd.source(PartOfComponent(c), i, k);
      first.Some? && second.Some? ==> first == second
  }

  lemma {:induction false} FirstPinGiven(rd: Reading, c: Component, k: nat, role: string, i: nat)
    requires i <= |c.pins| && FirstPin(rd, c, k, role, i).Some?
    ensures rd.source(PartOfComponent(c), FirstPin(rd, c, k, role, i).value, k) == Some(role)
    decreases |c.pins| - i
  {
    if !(Connected(c, i) && Gives(rd, c, i, k, role)) {
      FirstPinGiven(rd, c, k, role, i + 1);
    }
  }

  lemma {:induction false} BindingSource(rd: Reading, c: Component, role: string, k: nat) returns (j: nat)
    requires k <= SOURCES && BindingPin(rd, c, role, k).Some?
    ensures k <= j < SOURCES && rd.source(PartOfComponent(c), BindingPin(rd, c, role, k).value, j) == Some(role)
    decreases SOURCES - k
  {
    if FirstPin(rd, c, k, role, 0).Some? {
      j := k;
      FirstPinGiven(rd, c, k, role, 0);
    } else {
      j := BindingSource(rd, c, role, k + 1);
    }
  }

  lemma {:induction false} NameIsGiven(rd: Reading, c: Component, i: nat, j: nat, k: nat)
    requires SourcesAgree(rd, c) && i < |c.pins| && k <= j < SOURCES && rd.source(PartOfComponent(c), i, j).Some?
    ensures NameFrom(rd.source, PartOfComponent(c), i, k) == rd.source(PartOfComponent(c), i, j)
    decreases SOURCES - k
  {
    if k < j && rd.source(PartOfComponent(c), i, k).None? {
      NameIsGiven(rd, c, i, j, k + 1);
    }
  }

  /** Where no two sources name one pin differently, every role is settled. */
  lemma AgreeingIsSettled(rd: Reading, c: Component)
    requires SourcesAgree(rd, c)
    ensures AllSettled(rd, c)
  {
    forall role | BindingPin(rd, c, role, 0).Some?
      ensures Settled(rd, c, role)
    {
      var j := BindingSource(rd, c, role, 0);
      NameIsGiven(rd, c, BindingPin(rd, c, role, 0).value, j, 0);
    }
  }

  /** With the source's own rule the severed pads are those of the floated terminals, on any design so settled. */
  lemma RulePadsAreSevered(o: Extracted, d: Board, ov: Overlay, rd: Reading) returns (s: set<Pad>)
    requires FloatedSpec(d, ov).Ok? && NamesApart(d.netNodes)
    requires OneNetPerNumber(o) && OneRolePerNumber(rd, o) && RolesSettled(rd, o)
    ensures var base := FirstFreeId(o.nets);
            var r := SeverFrom(o, d.netNodes, RuleOf(rd), FloatedSpec(d, ov).value, base, []);
            && Severed(o, s, base, r.1, r.0)
            && (forall p :: p in s <==> exists t :: t in FloatSet(d, ov) && TerminalPad(o, d, RuleOf(rd), t, p))
            && (forall t :: t in FloatSet(d, ov) && (forall p :: !TerminalPad(o, d, RuleOf(rd), t, p)) ==>
                  IsTerminal(d, t) && PartListed(o, d, t, r.2))
  {
    RuleStaysIff(rd, o);
    s := FloatedPadsAreSevered(o, d, ov, RuleOf(rd));
  }

  // ---------------------------------------------------------------------------------------------
  // A terminal of two pads, and sources that disagree
  // ---------------------------------------------------------------------------------------------

  /** A transistor whose collector is a lead and a tab of another number, on one net. */
  const TABBED: Component := Component("Q1", "", "", [Pin("1", Some(1)), Pin("2", Some(2)), Pin("3", Some(3)), Pin("4", Some(2))])
  const TABBED_BOARD: Extracted := Extracted([Net(1, "B"), Net(2, "C"), Net(3, "E")], [TABBED])
  const TABBED_NODES: map<string, Node> := map["B" := 1, "C" := 2, "E" := 3]
  const TABBED_ROLES: seq<string> := ["base", "collector", "emitter", "collector"]

  /** A card that names each pad, and no other source. */
  const CARDED: Reading :=
    Reading((_: Part, i: nat, k: nat) => if k == 1 && i < |TABBED_ROLES| then Some(TABBED_ROLES[i]) else None,
            (_: Part, _: seq<bool>) => false)

  const CUT_COLLECTOR: FloatedTerminal := FloatedTerminal("Q1", Collector, 2)
  const COLLECTOR_CUT: Entry := Entry("cut C", "cut", [CUT_COLLECTOR])

  lemma TabbedPads()
    ensures PadsOfRole(CARDED, TABBED, "collector") == {"2", "4"}
  {
    assert FirstPin(CARDED, TABBED, 1, "collector", 0) == Some(1);
    assert FirstPin(CARDED, TABBED, 0, "collector", 0).None?;
    assert BindingPin(CARDED, TABBED, "collector", 0) == Some(1);
    assert HasRole(CARDED, TABBED, 1, "collector") && HasRole(CARDED, TABBED, 3, "collector");
    assert TABBED.pins[1].number == "2" && TABBED.pins[3].number == "4";
  }

  lemma TabbedTerminal(p: Pad)
    ensures PadOf(TABBED_BOARD, TABBED_NODES, RuleOf(CARDED), CUT_COLLECTOR, p) <==> p == (0, 1) || p == (0, 3)
  {
    TabbedPads();
    assert Owner(TABBED_BOARD.components, "Q1") == Some((0, ""));
    assert "collector" + "" == "collector";
    assert Net(2, "C") in TABBED_BOARD.nets;
    assert StandsFor(TABBED_BOARD.nets, TABBED_NODES, 2, 2);
    assert forall i :: 0 <= i < 4 ==> (TABBED.pins[i].number in {"2", "4"} <==> i == 1 || i == 3);
  }

  lemma OneTerminalSevered(o: Extracted, netNodes: map<string, Node>, pads: RolePads, e: Entry, ft: FloatedTerminal)
    returns (s: set<Pad>)
    requires NamesApart(netNodes) && RolesStay(pads, o) && OneNetPerNumber(o) && e.terminals == [ft]
    ensures SeveredByOne(o, netNodes, pads, e, s) && forall p :: p in s <==> PadOf(o, netNodes, pads, ft, p)
  {
    s := SeveringIsFaithful(o, netNodes, pads, [e]);
    forall p
      ensures p in s <==> PadOf(o, netNodes, pads, ft, p)
    {
      assert ft in [e][0].terminals;
      assert p in s <==> TracedBy(o, netNodes, pads, [e], 1, p);
    }
  }

  lemma TabbedFits()
    ensures NamesApart(TABBED_NODES) && OneNetPerNumber(TABBED_BOARD) && OneRolePerNumber(CARDED, TABBED_BOARD)
    ensures RolesSettled(CARDED, TABBED_BOARD)
  {
    AgreeingIsSettled(CARDED, TABBED);
  }

  lemma TabbedStays()
    ensures RolesStay(RuleOf(CARDED), TABBED_BOARD)
  {
    TabbedFits();
    RuleStaysIff(CARDED, TABBED_BOARD);
  }

  /** The severing of one cut, with the board and the rule as given. */
  ghost predicate SeveredByOne(o: Extracted, netNodes: map<string, Node>, pads: RolePads, e: Entry, s: set<Pad>) {
    var r := SeverFrom(o, netNodes, pads, [e], FirstFreeId(o.nets), []);
    Severed(o, s, FirstFreeId(o.nets), r.1, r.0)
  }

  lemma TabbedSevers() returns (s: set<Pad>)
    ensures SeveredByOne(TABBED_BOARD, TABBED_NODES, RuleOf(CARDED), COLLECTOR_CUT, s)
    ensures forall p :: p in s <==> PadOf(TABBED_BOARD, TABBED_NODES, RuleOf(CARDED), CUT_COLLECTOR, p)
  {
    TabbedFits();
    TabbedStays();
    s := OneTerminalSevered(TABBED_BOARD, TABBED_NODES, RuleOf(CARDED), COLLECTOR_CUT, CUT_COLLECTOR);
  }

  lemma TabbedSet(s: set<Pad>)
    requires forall p :: p in s <==> PadOf(TABBED_BOARD, TABBED_NODES, RuleOf(CARDED), CUT_COLLECTOR, p)
    ensures s == {(0, 1), (0, 3)}
  {
    forall p
      ensures p in s <==> p == (0, 1) || p == (0, 3)
    {
      TabbedTerminal(p);
    }
  }

  /** Cutting the collector severs both its pads, each onto a net of its own. */
  lemma TabbedExample() returns (s: set<Pad>)
    ensures RolesSettled(CARDED, TABBED_BOARD)
    ensures SeveredByOne(TABBED_BOARD, TABBED_NODES, RuleOf(CARDED), COLLECTOR_CUT, s) && s == {(0, 1), (0, 3)}
  {
    s := TabbedSevers();
    TabbedSet(s);
    TabbedFits();
  }

  /** A part whose card calls the first pad collector, and its function base; the other pad is a `C`. */
  const MIXED: Component := Component("Q1", "", "", [Pin("1", Some(1)), Pin("C", Some(1))])
  const MIXED_BOARD: Extracted := Extracted([Net(1, "N")], [MIXED])
  const MIXED_NODES: map<string, Node> := map["N" := 9]

  const DISAGREEING: Reading :=
    Reading((_: Part, i: nat, k: nat) =>
              if i == 0 && k == 0 then Some("base")
              else if (i == 0 && k == 1) || (i == 1 && k == 2) then Some("collector")
              else None,
            (_: Part, _: seq<bool>) => false)

  const CUT_MIXED_BASE: FloatedTerminal := FloatedTerminal("Q1", Base, 9)
  const CUT_MIXED_COLLECTOR: FloatedTerminal := FloatedTerminal("Q1", Collector, 9)
  const MIXED_CUTS: seq<Entry> := [Entry("cut N", "cut", [CUT_MIXED_BASE]), Entry("lift Q1", "lift", [CUT_MIXED_COLLECTOR])]

  /** The base is the first pad; the collector is the other one while both are on one net, and no pad after. */
  lemma MixedPads(c: Component)
    requires SamePart(MIXED, c) && Connected(c, 0) && Connected(c, 1)
    ensures PadsOfRole(DISAGREEING, c, "base") == {"1"}
    ensures PadsOfRole(DISAGREEING, c, "collector") == if c.pins[0].net == c.pins[1].net then {"C"} else {}
  {
    assert MIXED.pins[0].number == c.pins[0].number && MIXED.pins[1].number == c.pins[1].number;
    assert FirstPin(DISAGREEING, c, 0, "base", 0) == Some(0);
    assert FirstPin(DISAGREEING, c, 0, "collector", 2).None? && FirstPin(DISAGREEING, c, 0, "collector", 1).None?;
    assert FirstPin(DISAGREEING, c, 1, "collector", 0) == Some(0);
    assert OwnRole(DISAGREEING, c, 0) == Some("base") && OwnRole(DISAGREEING, c, 1) == Some("collector");
    assert HasRole(DISAGREEING, c, 0, "base");
    assert HasRole(DISAGREEING, c, 1, "collector") <==> c.pins[0].net == c.pins[1].net;
  }

  /** On the design both terminals have a pad, and the two are different ones. */
  lemma MixedTerminals(p: Pad)
    ensures PadOf(MIXED_BOARD, MIXED_NODES, RuleOf(DISAGREEING), CUT_MIXED_BASE, p) <==> p == (0, 0)
    ensures PadOf(MIXED_BOARD, MIXED_NODES, RuleOf(DISAGREEING), CUT_MIXED_COLLECTOR, p) <==> p == (0, 1)
  {
    assert SamePart(MIXED, MIXED);
    MixedPads(MIXED);
    MixedOwner();
    assert "collector" + "" == "collector" && "base" + "" == "base";
    assert Net(1, "N") in MIXED_BOARD.nets;
    assert StandsFor(MIXED_BOARD.nets, MIXED_NODES, 1, 9);
    assert MIXED.pins[0].number == "1" && MIXED.pins[1].number == "C" && "1" != "C";
  }

  lemma MixedOwner()
    ensures Owner(MIXED_BOARD.components, "Q1") == Some((0, ""))
  {
  }

  /** With the base's pad severed the collector has none. */
  lemma NoCollectorLeft(s: set<Pad>, id: int, b: Extracted)
    requires Severed(MIXED_BOARD, s, 2, id, b) && s == {(0, 0)}
    ensures !HasPad(b, MIXED_NODES, RuleOf(DISAGREEING), CUT_MIXED_COLLECTOR)
  {
    OwnerSame(MIXED_BOARD, b, "Q1");
    MixedOwner();
    var p: Pad, q: Pad := (0, 0), (0, 1);
    assert SamePart(MIXED_BOARD.components[0], b.components[0]) && IsPad(MIXED_BOARD, p) && IsPad(MIXED_BOARD, q);
    assert NetAt(b, p).Some? && NetAt(b, p).value >= 2 && NetAt(b, q) == NetAt(MIXED_BOARD, q) == Some(1);
    MixedPads(b.components[0]);
    assert "collector" + "" == "collector";
  }

  /** An entry of a terminal without a pad lists it, and severs nothing. */
  lemma EntryMisses(o: Extracted, s: set<Pad>, base: int, id: int, b: Extracted, netNodes: map<string, Node>, pads: RolePads,
                    e: Entry, ft: FloatedTerminal)
    requires Severed(o, s, base, id, b) && e.terminals == [ft] && !HasPad(b, netNodes, pads, ft)
    ensures var step := SeverEntry(b, netNodes, pads, e, id);
            step.2 != [] && Severed(o, s, base, step.1, step.0)
  {
    var s' := EntrySevers(o, s, base, id, b, netNodes, pads, e);
    assert ft in e.terminals;
    assert PartOf(b, ft) in MissedRefs(b, netNodes, pads, e.terminals);
    assert s' == s;
  }

  /** A terminal that has no pad once the first entry is through is listed by the second, which severs nothing. */
  lemma SecondMisses(o: Extracted, netNodes: map<string, Node>, pads: RolePads, es: seq<Entry>, s: set<Pad>, base: int,
                     ft: FloatedTerminal)
    requires |es| == 2 && es[1].terminals == [ft]
    requires var step := SeverEntry(o, netNodes, pads, es[0], base);
             Severed(o, s, base, step.1, step.0) && !HasPad(step.0, netNodes, pads, ft)
    ensures var r := SeverFrom(o, netNodes, pads, es, base, []);
            r.2 != [] && Severed(o, s, base, r.1, r.0)
  {
    var step := SeverEntry(o, netNodes, pads, es[0], base);
    EntryMisses(o, s, base, step.1, step.0, netNodes, pads, es[1], ft);
    TwoEntries(o, netNodes, pads, es, base);
  }

  /** The collector's own pad was on the design, so nothing is to be left by the second entry. */
  lemma MixedLeavesNothing()
    ensures LeftBy(MIXED_BOARD, MIXED_NODES, RuleOf(DISAGREEING), MIXED_CUTS, 1) == []
  {
    var p: Pad := (0, 1);
    MixedTerminals(p);
    assert !TracedBy(MIXED_BOARD, MIXED_NODES, RuleOf(DISAGREEING), MIXED_CUTS, 1, p);
    assert PadLeft(MIXED_BOARD, MIXED_NODES, RuleOf(DISAGREEING), MIXED_CUTS, 1, CUT_MIXED_COLLECTOR);
    assert LeftRefs(MIXED_BOARD, MIXED_NODES, RuleOf(DISAGREEING), MIXED_CUTS, 1) == {};
  }

  lemma MixedFirst() returns (s: set<Pad>)
    ensures var step := SeverEntry(MIXED_BOARD, MIXED_NODES, RuleOf(DISAGREEING), MIXED_CUTS[0], 2);
            Severed(MIXED_BOARD, s, 2, step.1, step.0) && s == {(0, 0)}
  {
    NothingSevered(MIXED_BOARD);
    s := EntrySevers(MIXED_BOARD, {}, 2, 2, MIXED_BOARD, MIXED_NODES, RuleOf(DISAGREEING), MIXED_CUTS[0]);
    forall p
      ensures p in s <==> p == (0, 0)
    {
      MixedTerminals(p);
      assert CUT_MIXED_BASE in MIXED_CUTS[0].terminals;
    }
  }

  lemma MixedUnsettled()
    ensures !Settled(DISAGREEING, MIXED, "collector")
  {
    MixedPads(MIXED);
    assert BindingPin(DISAGREEING, MIXED, "collector", 0) == Some(0);
  }

  lemma MixedMisses()
    ensures var r := SeverFrom(MIXED_BOARD, MIXED_NODES, RuleOf(DISAGREEING), MIXED_CUTS, 2, []);
            r.2 != [] && IsPad(r.0, (0, 1)) && NetAt(r.0, (0, 1)) == Some(1)
  {
    var s := MixedFirst();
    var step := SeverEntry(MIXED_BOARD, MIXED_NODES, RuleOf(DISAGREEING), MIXED_CUTS[0], 2);
    NoCollectorLeft(s, step.1, step.0);
    SecondMisses(MIXED_BOARD, MIXED_NODES, RuleOf(DISAGREEING), MIXED_CUTS, s, 2, CUT_MIXED_COLLECTOR);
    var r := SeverFrom(MIXED_BOARD, MIXED_NODES, RuleOf(DISAGREEING), MIXED_CUTS, 2, []);
    OtherPadStays(s, r.1, r.0);
  }

  lemma OtherPadStays(s: set<Pad>, id: int, b: Extracted)
    requires Severed(MIXED_BOARD, s, 2, id, b) && s == {(0, 0)}
    ensures IsPad(b, (0, 1)) && NetAt(b, (0, 1)) == Some(1)
  {
    var q: Pad := (0, 1);
    assert SamePart(MIXED_BOARD.components[0], b.components[0]) && IsPad(MIXED_BOARD, q);
    assert NetAt(b, q) == NetAt(MIXED_BOARD, q);
  }

  lemma MixedFits()
    ensures NamesApart(MIXED_NODES) && OneNetPerNumber(MIXED_BOARD) && OneRolePerNumber(DISAGREEING, MIXED_BOARD)
    ensures FirstFreeId(MIXED_BOARD.nets) == 2
  {
  }

  /**
    With sources that disagree, severing the base's pad takes the collector's binding along, and the
    collector's pad, which the design has, is neither severed nor found.
   */
  lemma DisagreeingExample()
    ensures NamesApart(MIXED_NODES) && OneNetPerNumber(MIXED_BOARD) && OneRolePerNumber(DISAGREEING, MIXED_BOARD)
    ensures !RolesSettled(DISAGREEING, MIXED_BOARD)
    ensures FirstFreeId(MIXED_BOARD.nets) == 2
    ensures var r := SeverFrom(MIXED_BOARD, MIXED_NODES, RuleOf(DISAGREEING), MIXED_CUTS, 2, []);
            r.2 != [] && IsPad(r.0, (0, 1)) && NetAt(r.0, (0, 1)) == Some(1)
    ensures LeftBy(MIXED_BOARD, MIXED_NODES, RuleOf(DISAGREEING), MIXED_CUTS, 1) == []
  {
    MixedUnsettled();
    MixedFits();
    MixedLeavesNothing();
    MixedMisses();
  }
}
