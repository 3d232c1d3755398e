/** When each entry of an overlay is accepted, which refusal it meets otherwise, and what becomes of the parts' values. */
module AsBuiltOutcomes {
  import opened Wrappers
  import opened Sequences
  import opened Connectivity
  import opened Circuit
  import opened Bound
  import opened Text
  import opened AsBuilt
  import opened AsBuiltProofs

  // ---------------------------------------------------------------------------------------------
  // Counting
  // ---------------------------------------------------------------------------------------------

  /** The listed indices are those of the devices that qualify ... */
  lemma {:induction false} IndicesAre(ds: seq<Device>, k: nat, p: Device -> bool)
    requires k <= |ds|
    ensures forall i: nat :: i in Indices(ds, k, p) <==> i < k && p(ds[i])
  {
    if k > 0 {
      IndicesAre(ds, k - 1, p);
    }
  }

  /** ... in order, each once. */
  lemma {:induction false} IndicesAscend(ds: seq<Device>, k: nat, p: Device -> bool)
    requires k <= |ds|
    ensures forall i, j :: 0 <= i < j < |Indices(ds, k, p)| ==> Indices(ds, k, p)[i] < Indices(ds, k, p)[j]
  {
    if k > 0 {
      IndicesAscend(ds, k - 1, p);
      var rest := Indices(ds, k - 1, p);
      forall i | 0 <= i < |rest|
        ensures rest[i] < k - 1
      {
        IndicesAre(ds, k - 1, p);
        assert rest[i] in rest;
      }
    }
  }

  /** As many indices as devices that qualify. */
  lemma IndicesCount(ds: seq<Device>, p: Device -> bool, s: set<nat>)
    requires forall i: nat :: i in s <==> i < |ds| && p(ds[i])
    ensures |Indices(ds, |ds|, p)| == |s|
    ensures forall i :: i in Indices(ds, |ds|, p) <==> i in s
  {
    IndicesAre(ds, |ds|, p);
    IndicesAscend(ds, |ds|, p);
    DistinctLength(Indices(ds, |ds|, p), s);
  }

  // ---------------------------------------------------------------------------------------------
  // replace
  // ---------------------------------------------------------------------------------------------

  /** The reference stands somewhere in the name. */
  ghost predicate NameHolds(d: Device, reference: string) {
    exists before: string, after: string :: d.name == before + reference + after
  }

  lemma NameHoldsIff(d: Device, reference: string)
    ensures Contains(d.name, reference) <==> NameHolds(d, reference)
  {
    ContainsIff(d.name, reference);
  }

  /** Less than a hundredth of the declared value away. */
  predicate Within(declared: real, actual: real) {
    if declared >= 0.0 then 0.99 * declared < actual < 1.01 * declared else 1.01 * declared < actual < 0.99 * declared
  }

  /** The device is named and, where the entry says what was there, has those values. */
  ghost predicate Meant(rep: Replace, d: Device) {
    && NameHolds(d, rep.reference)
    && (rep.was.Some? ==>
          && (rep.was.value.ohms.Some? ==> d.Resistor? && Within(rep.was.value.ohms.value, d.ohms))
          && (rep.was.value.farads.Some? ==> d.Capacitor? && Within(rep.was.value.farads.value, d.farads))
          && (rep.was.value.von.Some? ==> d.VSwitch? && Within(rep.was.value.von.value, d.von))
          && (rep.was.value.voff.Some? ==> d.VSwitch? && Within(rep.was.value.voff.value, d.voff)))
  }

  lemma MeantIff(rep: Replace, d: Device)
    ensures ReplaceHits(rep, d) <==> Meant(rep, d)
  {
    NameHoldsIff(d, rep.reference);
  }

  /** The device has every value the set declares. */
  predicate Takes(d: Device, v: SetValues, k: Key) {
    match k
    case Ohms => v.ohms.Some? ==> d.Resistor?
    case Farads => v.farads.Some? ==> d.Capacitor?
    case Von => v.von.Some? ==> d.VSwitch?
    case Voff => v.voff.Some? ==> d.VSwitch?
  }

  predicate TakesAll(d: Device, v: SetValues) {
    Takes(d, v, Ohms) && Takes(d, v, Farads) && Takes(d, v, Von) && Takes(d, v, Voff)
  }

  /** The first declared value the device has not. */
  predicate FirstLacking(d: Device, v: SetValues, k: Key) {
    && !Takes(d, v, k)
    && (k != Ohms ==> Takes(d, v, Ohms))
    && (k == Von || k == Voff ==> Takes(d, v, Farads))
    && (k == Voff ==> Takes(d, v, Von))
  }

  /** The declared value where there is one, else the old. */
  predicate NewOr(declared: Option<real>, was: real, now: real) {
    now == if declared.Some? then declared.value else was
  }

  /** `d'` is `d` with the declared values, each in its own field, and the others as they were. */
  predicate SetTo(d: Device, d': Device, v: SetValues) {
    match d
    case Resistor(name, a, b, ohms) =>
      d'.Resistor? && d'.name == name && d'.a == a && d'.b == b && NewOr(v.ohms, ohms, d'.ohms)
    case Capacitor(name, a, b, farads) =>
      d'.Capacitor? && d'.name == name && d'.a == a && d'.b == b && NewOr(v.farads, farads, d'.farads)
    case VSwitch(name, a, b, ctrlP, ctrlN, von, voff) =>
      && d'.VSwitch? && d'.name == name && d'.a == a && d'.b == b && d'.ctrlP == ctrlP && d'.ctrlN == ctrlN
      && NewOr(v.von, von, d'.von) && NewOr(v.voff, voff, d'.voff)
    case _ => d' == d
  }

  lemma SetDeviceIs(d: Device, v: SetValues)
    ensures SetDevice(d, v).Ok? <==> TakesAll(d, v)
    ensures SetDevice(d, v).Ok? ==> SetTo(d, SetDevice(d, v).value, v)
    ensures SetDevice(d, v).Err? ==> exists k :: SetDevice(d, v).error == KeyVariantMismatch(k) && FirstLacking(d, v, k)
  {
    if SetDevice(d, v).Err? {
      var k := SetDevice(d, v).error.key;
      assert FirstLacking(d, v, k);
    }
  }

  ghost predicate Refuses(ds: seq<Device>, hits: seq<nat>, v: SetValues, h: nat, k: Key) {
    && h < |hits| && hits[h] < |ds| && FirstLacking(ds[hits[h]], v, k)
    && forall g :: 0 <= g < h && hits[g] < |ds| ==> TakesAll(ds[hits[g]], v)
  }

  /** Setting distinct devices one after another. */
  lemma {:induction false} SetHitsIs(ds: seq<Device>, hits: seq<nat>, v: SetValues)
    requires forall h :: h in hits ==> h < |ds|
    requires forall i, j :: 0 <= i < j < |hits| ==> hits[i] != hits[j]
    ensures SetHits(ds, hits, v).Ok? <==> forall h :: h in hits ==> TakesAll(ds[h], v)
    ensures SetHits(ds, hits, v).Ok? ==>
      var ds' := SetHits(ds, hits, v).value;
      && |ds'| == |ds|
      && forall i :: 0 <= i < |ds| ==> if i in hits then SetTo(ds[i], ds'[i], v) else ds'[i] == ds[i]
    ensures SetHits(ds, hits, v).Err? ==>
      exists h, k :: Refuses(ds, hits, v, h, k) && SetHits(ds, hits, v).error == KeyVariantMismatch(k)
    decreases |hits|
  {
    if hits != [] {
      assert hits[0] in hits;
      SetDeviceIs(ds[hits[0]], v);
      var first := SetDevice(ds[hits[0]], v);
      if first.Ok? {
        var rest, ds1 := hits[1..], ds[hits[0] := first.value];
        assert forall h :: h in rest ==> h in hits && h != hits[0];
        SetHitsIs(ds1, rest, v);
        assert forall h :: h in hits <==> h == hits[0] || h in rest;
        if SetHits(ds1, rest, v).Err? {
          var h, k :| Refuses(ds1, rest, v, h, k) && SetHits(ds1, rest, v).error == KeyVariantMismatch(k);
          RefusesLater(ds, hits, v, ds1, h, k);
        }
      } else {
        var k :| first.error == KeyVariantMismatch(k) && FirstLacking(ds[hits[0]], v, k);
        assert Refuses(ds, hits, v, 0, k);
      }
    }
  }

  lemma RefusesLater(ds: seq<Device>, hits: seq<nat>, v: SetValues, ds1: seq<Device>, h: nat, k: Key)
    requires hits != [] && forall x :: x in hits ==> x < |ds|
    requires forall i, j :: 0 <= i < j < |hits| ==> hits[i] != hits[j]
    requires |ds1| == |ds| && forall i :: 0 <= i < |ds| && i != hits[0] ==> ds1[i] == ds[i]
    requires hits[0] < |ds| && TakesAll(ds[hits[0]], v) && Refuses(ds1, hits[1..], v, h, k)
    ensures Refuses(ds, hits, v, h + 1, k)
  {
    assert hits[1..][h] == hits[h + 1];
    forall g | 0 <= g < h + 1 && hits[g] < |ds|
      ensures TakesAll(ds[hits[g]], v)
    {
      if g > 0 {
        assert hits[g] == hits[1..][g - 1];
      }
    }
  }

  ghost function MeantDevices(o: Board, rep: Replace): set<nat> {
    set i: nat | i < |o.devices| && Meant(rep, o.devices[i])
  }

  ghost function NamedDevices(o: Board, reference: string): set<nat> {
    set i: nat | i < |o.devices| && NameHolds(o.devices[i], reference)
  }

  lemma HitsAreMeant(o: Board, rep: Replace)
    ensures var hits := Indices(o.devices, |o.devices|, (d: Device) => ReplaceHits(rep, d));
            && |hits| == |MeantDevices(o, rep)| && (forall i :: i in hits <==> i in MeantDevices(o, rep))
            && (forall i, j :: 0 <= i < j < |hits| ==> hits[i] < hits[j])
  {
    var p := (d: Device) => ReplaceHits(rep, d);
    forall i: nat
      ensures i in MeantDevices(o, rep) <==> i < |o.devices| && p(o.devices[i])
    {
      if i < |o.devices| {
        MeantIff(rep, o.devices[i]);
      }
    }
    IndicesCount(o.devices, p, MeantDevices(o, rep));
    IndicesAscend(o.devices, |o.devices|, p);
  }

  lemma NamedCount(o: Board, reference: string)
    ensures |Indices(o.devices, |o.devices|, (d: Device) => Contains(d.name, reference))| == |NamedDevices(o, reference)|
  {
    var p := (d: Device) => Contains(d.name, reference);
    forall i: nat
      ensures i in NamedDevices(o, reference) <==> i < |o.devices| && p(o.devices[i])
    {
      if i < |o.devices| {
        NameHoldsIff(o.devices[i], reference);
      }
    }
    IndicesCount(o.devices, p, NamedDevices(o, reference));
  }

  /** A value set on some of the devices, and nothing else. */
  ghost predicate Replaced(o: Board, rep: Replace, c: Board) {
    && c == o.(devices := c.devices) && |c.devices| == |o.devices|
    && forall i :: 0 <= i < |o.devices| ==>
         if Meant(rep, o.devices[i]) then SetTo(o.devices[i], c.devices[i], rep.fitted) else c.devices[i] == o.devices[i]
  }

  predicate NothingDeclared(v: SetValues) {
    v == SetValues(None, None, None, None)
  }

  /** How many devices the entry says it hits. */
  function Expected(n: Option<nat>): nat {
    match n
    case Some(k) => k
    case None => 1
  }

  /** The first meant device that lacks a declared value. */
  ghost predicate FirstUnfit(o: Board, rep: Replace, i: nat, k: Key) {
    && i in MeantDevices(o, rep) && FirstLacking(o.devices[i], rep.fitted, k)
    && forall j :: j in MeantDevices(o, rep) && j < i ==> TakesAll(o.devices[j], rep.fitted)
  }

  /** What a refused entry is told. */
  ghost predicate ReplaceRefused(o: Board, rep: Replace, e: Error) {
    var hits := MeantDevices(o, rep);
    if NothingDeclared(rep.fitted) then e == EmptySet
    else if hits == {} then e == UnknownRef(|NamedDevices(o, rep.reference)|)
    else if |hits| != Expected(rep.expectMatches) then e == MatchCount(Expected(rep.expectMatches), |hits|)
    else exists i, k :: FirstUnfit(o, rep, i, k) && e == KeyVariantMismatch(k)
  }

  /**
    A replace succeeds exactly when it declares something, hits as many devices as it says, one at
    least, and each has every value declared; then exactly those devices have exactly those values.
   */
  lemma ReplaceSetsExactly(o: Board, rep: Replace)
    ensures ReplaceSpec(o, rep).Ok? <==>
            && !NothingDeclared(rep.fitted) && MeantDevices(o, rep) != {}
            && |MeantDevices(o, rep)| == Expected(rep.expectMatches)
            && forall i :: i in MeantDevices(o, rep) ==> TakesAll(o.devices[i], rep.fitted)
    ensures ReplaceSpec(o, rep).Ok? ==> Replaced(o, rep, ReplaceSpec(o, rep).value)
    ensures ReplaceSpec(o, rep).Err? ==> ReplaceRefused(o, rep, ReplaceSpec(o, rep).error)
  {
    var hits := Indices(o.devices, |o.devices|, (d: Device) => ReplaceHits(rep, d));
    HitsAreMeant(o, rep);
    NamedCount(o, rep.reference);
    ReplaceByHits(o, rep, hits);
    SetHitsIs(o.devices, hits, rep.fitted);
    assert hits == [] <==> MeantDevices(o, rep) == {};
    if ReplaceSpec(o, rep).Err? && SetHits(o.devices, hits, rep.fitted).Err? {
      UnfitIsFirst(o, rep, hits);
    }
  }

  /** The entry's outcome over the devices it hits. */
  lemma ReplaceByHits(o: Board, rep: Replace, hits: seq<nat>)
    requires hits == Indices(o.devices, |o.devices|, (d: Device) => ReplaceHits(rep, d))
    ensures var set1 := SetHits(o.devices, hits, rep.fitted);
            ReplaceSpec(o, rep) ==
            if NothingDeclared(rep.fitted) then Err(EmptySet)
            else if hits == [] then Err(UnknownRef(|Indices(o.devices, |o.devices|, (d: Device) => Contains(d.name, rep.reference))|))
            else if |hits| != Expected(rep.expectMatches) then Err(MatchCount(Expected(rep.expectMatches), |hits|))
            else if set1.Err? then Err(set1.error) else Ok(o.(devices := set1.value))
  {
  }

  lemma UnfitIsFirst(o: Board, rep: Replace, hits: seq<nat>)
    requires forall i :: i in hits <==> i in MeantDevices(o, rep)
    requires forall i, j :: 0 <= i < j < |hits| ==> hits[i] < hits[j]
    requires SetHits(o.devices, hits, rep.fitted).Err?
    ensures exists i, k :: FirstUnfit(o, rep, i, k) && SetHits(o.devices, hits, rep.fitted).error == KeyVariantMismatch(k)
  {
    SetHitsIs(o.devices, hits, rep.fitted);
    var h, k :| Refuses(o.devices, hits, rep.fitted, h, k)
                && SetHits(o.devices, hits, rep.fitted).error == KeyVariantMismatch(k);
    RefusedIsFirst(o, rep, hits, h, k);
  }

  lemma RefusedIsFirst(o: Board, rep: Replace, hits: seq<nat>, h: nat, k: Key)
    requires forall i :: i in hits <==> i in MeantDevices(o, rep)
    requires forall i, j :: 0 <= i < j < |hits| ==> hits[i] < hits[j]
    requires Refuses(o.devices, hits, rep.fitted, h, k)
    ensures FirstUnfit(o, rep, hits[h], k)
  {
    assert hits[h] in hits;
    forall j | j in MeantDevices(o, rep) && j < hits[h]
      ensures TakesAll(o.devices[j], rep.fitted)
    {
      assert j in hits;
      var g :| 0 <= g < |hits| && hits[g] == j;
      assert g < h;
    }
  }

  /** Each replace on what the ones before it left. */
  ghost predicate ReplacedInTurn(o: Board, rs: seq<Replace>, c: Board)
    decreases |rs|
  {
    if rs == [] then c == o else exists b :: Replaced(o, rs[0], b) && ReplacedInTurn(b, rs[1..], c)
  }

  lemma {:induction false} ReplacesInTurn(o: Board, rs: seq<Replace>)
    requires ReplacesFrom(o, rs).Ok?
    ensures ReplacedInTurn(o, rs, ReplacesFrom(o, rs).value)
    decreases |rs|
  {
    if rs != [] {
      ReplaceSetsExactly(o, rs[0]);
      ReplacesInTurn(ReplaceSpec(o, rs[0]).value, rs[1..]);
    }
  }

  // ---------------------------------------------------------------------------------------------
  // cut and lift
  // ---------------------------------------------------------------------------------------------

  /** The transistor with the pin of that role, and no other, on node `n`. */
  predicate PinMoved(d: Device, d': Device, role: Role, n: Node) {
    && d.Bjt? && d'.Bjt? && d'.name == d.name
    && d'.b == (if role == Base then n else d.b)
    && d'.c == (if role == Collector then n else d.c)
    && d'.e == (if role == Emitter then n else d.e)
  }

  /** The pin of that role is on one of the nodes. */
  predicate PinOn(d: Device, role: Role, nodes: set<Node>) {
    && d.Bjt?
    && (role == Base ==> d.b in nodes) && (role == Collector ==> d.c in nodes) && (role == Emitter ==> d.e in nodes)
  }

  ghost function Below(hits: set<nat>, i: nat): set<nat> {
    set j | j in hits && j < i
  }

  /** The hit transistors' pins on ids of their own, numbered from `next` in device order; all else as it was. */
  ghost predicate FloatsExactly(b: Board, hits: set<nat>, role: Role, next: Node, c: Board) {
    && c == b.(devices := c.devices) && |c.devices| == |b.devices|
    && forall i: nat :: i < |b.devices| ==>
         if i in hits then PinMoved(b.devices[i], c.devices[i], role, next + |Below(hits, i)|)
         else c.devices[i] == b.devices[i]
  }

  lemma FloatsHit(ds: seq<Device>, s: Selector, role: Role, next: Node, hits: set<nat>, i: nat)
    requires i in hits && forall j: nat :: j in hits <==> j < |ds| && Hits(s, role, ds[j])
    ensures PinMoved(ds[i], FloatDevices(ds, s, role, next)[i], role, next + |Below(hits, i)|)
  {
    NextIdCounts(ds, i, s, role, next);
    assert HitDevices(ds, i, s, role) == Below(hits, i);
  }

  lemma FloatsHits(b: Board, s: Selector, role: Role, next: Node, hits: set<nat>)
    requires forall i: nat :: i in hits <==> i < |b.devices| && Hits(s, role, b.devices[i])
    ensures FloatsExactly(b, hits, role, next, b.(devices := FloatDevices(b.devices, s, role, next)))
    ensures NextId(b.devices, |b.devices|, s, role, next) - next == |hits|
  {
    forall i: nat | i in hits
      ensures PinMoved(b.devices[i], FloatDevices(b.devices, s, role, next)[i], role, next + |Below(hits, i)|)
    {
      FloatsHit(b.devices, s, role, next, hits, i);
    }
    NextIdCounts(b.devices, |b.devices|, s, role, next);
    assert HitDevices(b.devices, |b.devices|, s, role) == hits;
  }

  /** The nodes of the nets whose name the pattern spells, its stars filled in. */
  ghost function GlobNodes(b: Board, glob: string): set<Node> {
    set name | name in b.netNodes && SpelledBy(glob, name) :: b.netNodes[name]
  }

  ghost predicate SpelledBy(glob: string, name: string) {
    exists fills :: |fills| == Stars(glob) && Expand(glob, fills) == name
  }

  lemma GlobNodesAre(b: Board, glob: string)
    ensures GlobNodes(b, glob) == MatchedNodes(b.netNodes, glob)
  {
    forall name | name in b.netNodes
      ensures SpelledBy(glob, name) <==> GlobMatch(glob, name)
    {
      GlobMatchIffExpansion(glob, name);
    }
  }

  ghost function CutDevices(b: Board, cut: Cut): set<nat> {
    set i: nat | i < |b.devices| && PinOn(b.devices[i], cut.role, GlobNodes(b, cut.netGlob))
  }

  /**
    A cut succeeds exactly when its pattern matches a net and it takes as many transistors as it says;
    then those pins float, and the ids go on from there.
   */
  lemma CutTakesExactly(b: Board, cut: Cut, next: Node)
    ensures var hits := CutDevices(b, cut);
            if GlobNodes(b, cut.netGlob) == {} then CutSpec(b, cut, next) == Err(UnknownNet)
            else if |hits| != Expected(cut.expectMatches)
            then CutSpec(b, cut, next) == Err(MatchCount(Expected(cut.expectMatches), |hits|))
            else
              && CutSpec(b, cut, next).Ok? && CutSpec(b, cut, next).value.1 == next + |hits|
              && FloatsExactly(b, hits, cut.role, next, CutSpec(b, cut, next).value.0)
  {
    GlobNodesAre(b, cut.netGlob);
    var s := OnNodes(MatchedNodes(b.netNodes, cut.netGlob));
    forall i: nat
      ensures i in CutDevices(b, cut) <==> i < |b.devices| && Hits(s, cut.role, b.devices[i])
    {
    }
    FloatsHits(b, s, cut.role, next, CutDevices(b, cut));
  }

  ghost function LiftDevices(b: Board, lift: Lift): set<nat> {
    set i: nat | i < |b.devices| && NameHolds(b.devices[i], lift.reference) && b.devices[i].Bjt?
  }

  /** A lift succeeds exactly when its reference names one transistor; then its pin floats. */
  lemma LiftTakesExactly(b: Board, lift: Lift, next: Node)
    ensures var hits := LiftDevices(b, lift);
            if NamedDevices(b, lift.reference) == {} then LiftSpec(b, lift, next) == Err(UnknownRef(0))
            else if |hits| != 1 then LiftSpec(b, lift, next) == Err(MatchCount(1, |hits|))
            else
              && LiftSpec(b, lift, next).Ok? && LiftSpec(b, lift, next).value.1 == next + 1
              && FloatsExactly(b, hits, lift.role, next, LiftSpec(b, lift, next).value.0)
  {
    var s := Named(lift.reference);
    forall i: nat
      ensures i in LiftDevices(b, lift) <==> i < |b.devices| && Hits(s, lift.role, b.devices[i])
    {
      if i < |b.devices| {
        NameHoldsIff(b.devices[i], lift.reference);
      }
    }
    NamedCount(b, lift.reference);
    FloatsHits(b, s, lift.role, next, LiftDevices(b, lift));
  }

  // ---------------------------------------------------------------------------------------------
  // fit
  // ---------------------------------------------------------------------------------------------

  /** A fit succeeds exactly under a new name, between two different known nets, with one value. */
  lemma FitOutcome(b: Board, f: Fit)
    ensures var r := FitSpec(b, f);
            if exists i :: 0 <= i < |b.devices| && b.devices[i].name == f.reference then r == Err(FitRefCollision)
            else if f.from !in b.netNodes || f.to !in b.netNodes then r == Err(UnknownNet)
            else if b.netNodes[f.from] == b.netNodes[f.to] then r == Err(FitSelf)
            else if f.ohms.Some? == f.farads.Some? then r == Err(FitValue)
            else r.Ok? && FittedOnto(b, [f], r.value)
  {
    assert (exists d :: d in b.devices && d.name == f.reference)
           <==> exists i :: 0 <= i < |b.devices| && b.devices[i].name == f.reference;
    if FitSpec(b, f).Ok? {
      FitAppends(b, f);
    }
  }

  // ---------------------------------------------------------------------------------------------
  // The values of the finished board
  // ---------------------------------------------------------------------------------------------

  /** The same part with the same values, whatever nodes it is on. */
  predicate SameValues(d: Device, d': Device) {
    && d'.name == d.name
    && (d.Resistor? ==> d'.Resistor? && d'.ohms == d.ohms)
    && (d.Capacitor? ==> d'.Capacitor? && d'.farads == d.farads)
    && (d.VSwitch? ==> d'.VSwitch? && d'.von == d.von && d'.voff == d.voff)
    && (d.Vsource? ==> d'.Vsource? && d'.volts == d.volts)
    && (d.Isource? ==> d'.Isource? && d'.amps == d.amps)
    && (d.Behavioral? ==> d'.Behavioral? && d'.voltage == d.voltage && |d'.deps| == |d.deps|)
    && (d.Cccs? ==> d'.Cccs? && d'.ctrlSrc == d.ctrlSrc) && (d.Ccvs? ==> d'.Ccvs? && d'.ctrlSrc == d.ctrlSrc)
    && SameKind(d, d')
  }

  /** The kinds that have no value here. */
  predicate SameKind(d: Device, d': Device) {
    && (d.Inductor? ==> d'.Inductor?) && (d.Diode? ==> d'.Diode?) && (d.Bjt? ==> d'.Bjt?) && (d.Mosfet? ==> d'.Mosfet?)
    && (d.OpAmp? ==> d'.OpAmp?) && (d.Comparator? ==> d'.Comparator?) && (d.Vcvs? ==> d'.Vcvs?) && (d.Vccs? ==> d'.Vccs?)
    && (d.Coupling? ==> d' == d)
  }

  ghost predicate ValuesKept(b: Board, c: Board) {
    |c.devices| == |b.devices| && forall i :: 0 <= i < |b.devices| ==> SameValues(b.devices[i], c.devices[i])
  }

  lemma ValuesKeptTrans(b: Board, c: Board, d: Board)
    requires ValuesKept(b, c) && ValuesKept(c, d)
    ensures ValuesKept(b, d)
  {
    forall i | 0 <= i < |b.devices|
      ensures SameValues(b.devices[i], d.devices[i])
    {
      SameValuesTrans(b.devices[i], c.devices[i], d.devices[i]);
    }
  }

  lemma SameValuesTrans(d: Device, e: Device, f: Device)
    requires SameValues(d, e) && SameValues(e, f)
    ensures SameValues(d, f)
  {
  }

  lemma RenamingKeepsValues(to: Node, from: Node, d: Device)
    ensures SameValues(d, MapNodes(to, from, d))
  {
  }

  lemma FloatingKeepsValues(b: Board, s: Selector, role: Role, next: Node)
    ensures ValuesKept(b, b.(devices := FloatDevices(b.devices, s, role, next)))
  {
  }

  lemma {:induction false} CutsKeepValues(b: Board, cs: seq<Cut>, next: Node)
    requires CutsFrom(b, cs, next).Ok?
    ensures ValuesKept(b, CutsFrom(b, cs, next).value.0)
    decreases |cs|
  {
    if cs != [] {
      var v := CutSpec(b, cs[0], next).value;
      FloatingKeepsValues(b, OnNodes(MatchedNodes(b.netNodes, cs[0].netGlob)), cs[0].role, next);
      CutsKeepValues(v.0, cs[1..], v.1);
      ValuesKeptTrans(b, v.0, CutsFrom(b, cs, next).value.0);
    }
  }

  lemma {:induction false} LiftsKeepValues(b: Board, ls: seq<Lift>, next: Node)
    requires LiftsFrom(b, ls, next).Ok?
    ensures ValuesKept(b, LiftsFrom(b, ls, next).value.0)
    decreases |ls|
  {
    if ls != [] {
      var v := LiftSpec(b, ls[0], next).value;
      FloatingKeepsValues(b, Named(ls[0].reference), ls[0].role, next);
      LiftsKeepValues(v.0, ls[1..], v.1);
      ValuesKeptTrans(b, v.0, LiftsFrom(b, ls, next).value.0);
    }
  }

  lemma JumperKeepsValues(b: Board, j: Jumper)
    requires JumperSpec(b, j).Ok?
    ensures ValuesKept(b, JumperSpec(b, j).value)
  {
    forall i | 0 <= i < |b.devices|
      ensures SameValues(b.devices[i], JumperSpec(b, j).value.devices[i])
    {
      RenamingKeepsValues(b.netNodes[j.to], b.netNodes[j.from], b.devices[i]);
    }
  }

  lemma {:induction false} JumpersKeepValues(b: Board, js: seq<Jumper>)
    requires JumpersFrom(b, js).Ok?
    ensures ValuesKept(b, JumpersFrom(b, js).value)
    decreases |js|
  {
    if js != [] {
      JumperKeepsValues(b, js[0]);
      JumpersKeepValues(JumperSpec(b, js[0]).value, js[1..]);
      ValuesKeptTrans(b, JumperSpec(b, js[0]).value, JumpersFrom(b, js).value);
    }
  }

  /** The finished board's parts: those the replaces left, with their values, and after them one for each fit. */
  ghost predicate PartsAndValues(o1: Board, fs: seq<Fit>, c: Board) {
    && |c.devices| == |o1.devices| + |fs|
    && (forall i :: 0 <= i < |o1.devices| ==> SameValues(o1.devices[i], c.devices[i]))
    && (forall k :: 0 <= k < |fs| ==> IsFitted(c, fs[k], c.devices[|o1.devices| + k]))
  }

  /**
    The values of the finished board: replaced in turn, each entry on the values it meets, then carried
    through cuts, lifts, jumpers and fits.
   */
  lemma AppliedValues(o: Board, ov: Overlay) returns (o1: Board)
    requires ApplySpec(o, ov).Ok?
    ensures ReplacedInTurn(o, ov.swaps, o1) && PartsAndValues(o1, ov.fits, ApplySpec(o, ov).value)
  {
    var v2, v3, b4;
    o1, v2, v3, b4 := Stages(o, ov);
    ReplacesInTurn(o, ov.swaps);
    CutsKeepValues(o1, ov.cuts, FLOAT_NODE_BASE);
    LiftsKeepValues(v2.0, ov.lifts, v2.1);
    JumpersKeepValues(v3.0, ov.jumpers);
    ValuesKeptTrans(o1, v2.0, v3.0);
    ValuesKeptTrans(o1, v3.0, b4);
    FitsAppend(b4, ov.fits);
    FittedValues(o1, b4, ov.fits, ApplySpec(o, ov).value);
  }

  lemma FittedValues(o1: Board, b4: Board, fs: seq<Fit>, c: Board)
    requires ValuesKept(o1, b4) && FittedOnto(b4, fs, c)
    ensures PartsAndValues(o1, fs, c)
  {
    forall i | 0 <= i < |o1.devices|
      ensures SameValues(o1.devices[i], c.devices[i])
    {
      assert c.devices[i] == c.devices[..|b4.devices|][i] == b4.devices[i];
    }
    forall k | 0 <= k < |fs|
      ensures IsFitted(c, fs[k], c.devices[|o1.devices| + k])
    {
      FittedAlike(c, b4, fs[k], c.devices[|o1.devices| + k]);
    }
  }

  // ---------------------------------------------------------------------------------------------
  // Room for the floating ids
  // ---------------------------------------------------------------------------------------------

  /** A device, a rail off ground, or a net name is on the node. */
  ghost predicate InUse(b: Board, n: Node) {
    || (exists t: Terminal :: IsTerminal(b, t) && NodeAt(b, t) == n)
    || (n != GROUND && exists d :: d in b.devices && n in RailPins(d))
    || (exists name :: name in b.netNodes && b.netNodes[name] == n)
  }

  lemma UsedIff(b: Board, n: Node)
    ensures n in UsedNodes(b) <==> InUse(b, n)
  {
    if n in UsedNodes(b) && n !in b.netNodes.Values {
      var d :| d in b.devices && n in NodesOf(d);
      var i: nat :| i < |b.devices| && b.devices[i] == d;
      if n in Terminals(d) {
        var k: nat :| k < |Terminals(d)| && Terminals(d)[k] == n;
        assert IsTerminal(b, (i, k)) && NodeAt(b, (i, k)) == n;
      }
    }
    if t: Terminal :| IsTerminal(b, t) && NodeAt(b, t) == n {
      assert b.devices[t.0] in b.devices && n in NodesOf(b.devices[t.0]);
    }
    if d :| d in b.devices && n in RailPins(d) && n != GROUND {
      assert n in NodesOf(d);
    }
    if name :| name in b.netNodes && b.netNodes[name] == n {
      assert n in b.netNodes.Values;
    }
  }

  /**
    An overlay that cuts or lifts is refused for want of room exactly when a node in use reaches 800,000,
    and is told the largest one.
   */
  lemma NodeSpaceOutcome(o: Board, ov: Overlay)
    requires ReplacesFrom(o, ov.swaps).Ok?
    ensures var b, r := ReplacesFrom(o, ov.swaps).value, ApplySpec(o, ov);
            (ov.cuts != [] || ov.lifts != []) && (exists n: Node :: InUse(b, n) && n >= 800_000) ==>
              && r.Err? && r.error.NodeSpace? && InUse(b, r.error.maxSeen)
              && forall n: Node :: InUse(b, n) ==> n <= r.error.maxSeen
    ensures (ov.cuts == [] && ov.lifts == []) || (forall n: Node :: InUse(ReplacesFrom(o, ov.swaps).value, n) ==> n < 800_000) ==>
      NodeSpaceFree(ReplacesFrom(o, ov.swaps).value, ov)
  {
    var b := ReplacesFrom(o, ov.swaps).value;
    forall n: Node
      ensures n in UsedNodes(b) <==> InUse(b, n)
    {
      UsedIff(b, n);
    }
  }
}
