/** The value grade of one browser journey, and what each grade promises. */
module Grading {
  import opened Wrappers
  import opened GerberFacts
  import opened NativeFacts
  import opened Unlocks

  const PARTFUL: set<string> := {"kicad_pcb", "kicad_sch", "eagle_brd", "altium_pcbdoc", "ipc_2581", "odb_archive"}
  const COPPER: set<string> := {"gerber_archive", "gerber_bundle"}
  const NETLISTS: set<string> := {"ipc_356"}

  const MIN_NETS_FOR_A_LAYOUT: nat := 2
  const MIN_CHECK_SECTIONS: nat := 2

  const STRUCTURAL_UNLOCK := "supply the original native layout"
  const UNANCHORED_UNLOCK := "publish the input placement count"

  // ---------------------------------------------------------------------------------------------
  // What is graded
  // ---------------------------------------------------------------------------------------------

  datatype Section = NotASection | Section(title: string, verdict: string)

  /** `bound` is set only for a part that has a model. */
  datatype OpenPart = OpenPart(reference: string, bound: bool, activeIc: bool)

  datatype Assumption = Assumption(kind: string, replacement: string)

  datatype Cosim = Cosim(ran: bool, seconds: Option<real>, analogValid: Option<bool>)

  /** A successful report; lists are present only when the report published one, and texts are stripped. */
  datatype Report = Report(
    components: int,
    nets: int,
    sections: Option<seq<Section>>,
    critical: Option<(nat, nat)>,
    listedParts: Option<seq<Option<string>>>,
    netNames: Option<seq<string>>,
    openParts: seq<OpenPart>,
    assumptions: seq<Assumption>,
    cosim: Option<Cosim>,
    statedRefusals: seq<string>)

  datatype Firmware = NotStaged | Staged(loaded: bool, detail: string, pinsRendered: Option<bool>, pinActivity: bool)

  datatype Journey = Journey(
    report: Option<Report>, before: Option<real>, after: Option<real>, liveStarted: bool, firmware: Firmware)

  /** Facts the gate takes from the input's own bytes. */
  datatype InputFacts =
    | Films(package: PackageFacts)
    | Native(placements: Option<int>, declaredNets: Option<int>, exact: bool, netNames: Option<set<string>>,
             references: Option<set<string>>)

  datatype Verdict = Delivered | Degraded | Failed | RefusedHonest

  datatype Reason =
    | NoReport
    | NoChecks
    | TooFewChecks
    | ClockStill
    | NoInventory(field: string)
    | NetsRepeat
    | PartsRepeat
    | MorePartsListed
    | FewerNetsNamed
    | BadSection(index: nat)
    | MalformedBinding
    | OpenActiveIcs
    | PackageUnreadable
    | MoreNetsThanFlashes
    | Collapsed
    | NoConnectivity
    | NetlistTooSmall
    | NothingExtracted
    | PartsInvented
    | ExtractionCollapsed
    | LayoutTooSmall
    | NetsInvented
    | MoreNetsThanDeclared
    | ConnectivityCollapsed
    | NothingRecovered
    | NoBindingSummary
    | UncoveredParts(parts: seq<string>)
    | UnnamedUnbound
    | FirmwareFault(what: string)

  /** Absent until a branch that can check it sets it. */
  datatype Signals = Signals(
    placementVerified: Option<bool>, netVerified: Option<bool>, netIdentity: bool, bindingUnverified: bool)

  datatype Grade = Grade(verdict: Verdict, reasons: seq<Reason>, unlocks: seq<string>, signals: Option<Signals>)

  /** What grading takes from outside: whether an unlock names a part, a sentence's shape, and two sentences. */
  datatype Wording = Wording(
    names: (string, string) -> bool, shape: string -> string, note: nat -> string, openPins: seq<string> -> string)

  // ---------------------------------------------------------------------------------------------
  // Facts about the input
  // ---------------------------------------------------------------------------------------------

  predicate Countable(format: string) {
    format == "kicad_pcb" || format == "eagle_brd"
  }

  /** Designators are relied on only where every placement counted carried one. */
  function NativeOf(format: string, s: NativeScan, found: set<string>, hits: nat): InputFacts {
    Native(Some(s.placements), Some(DeclaredNets(format, s)), DeclaredExactly(format, s), NetNames(format, s),
           if s.placements > 0 && hits == s.placements then Some(found) else None)
  }

  function FactsFor(format: string, members: seq<Option<Member>>, scan: Option<NativeScan>): InputFacts {
    if format in COPPER then Films(FactsOf(members))
    else if scan.None? || !Countable(format) then Native(None, None, true, None, None)
    else
      var s := scan.value;
      NativeOf(format, s, Designators(s, |s.records|), NamedRecords(s, |s.records|))
  }

  /** What the gate takes from the input, before any report is read. */
  method InputFactsFor(format: string, members: seq<Option<Member>>, scan: Option<NativeScan>) returns (f: InputFacts)
    ensures f == FactsFor(format, members, scan)
  {
    if format in COPPER {
      var package := GerberInputFacts(members);
      return Films(package);
    }
    if scan.None? || !Countable(format) {
      return Native(None, None, true, None, None);
    }
    var found, hits := ReferenceDesignators(scan.value);
    f := NativeOf(format, scan.value, found, hits);
  }

  function PlacementsOf(f: InputFacts): int {
    match f
    case Films(_) => 0
    case Native(p, _, _, _, _) => if p.Some? then p.value else 0
  }

  function DeclaredOf(f: InputFacts): int {
    match f
    case Films(_) => 0
    case Native(_, d, _, _, _) => if d.Some? then d.value else 0
  }

  predicate ExactOf(f: InputFacts) {
    f.Native? ==> f.exact
  }

  // ---------------------------------------------------------------------------------------------
  // Reading the report
  // ---------------------------------------------------------------------------------------------

  function Distinct(s: seq<string>): nat {
    |set x | x in s|
  }

  /** The listed references that are not blank. */
  function NamedParts(listed: seq<Option<string>>): seq<string> {
    if listed == [] then []
    else if listed[0].Some? && Strip(listed[0].value) != "" then [listed[0].value] + NamedParts(listed[1..])
    else NamedParts(listed[1..])
  }

  function ActiveIcs(ps: seq<OpenPart>): seq<string> {
    if ps == [] then [] else (if ps[0].activeIc then [ps[0].reference] else []) + ActiveIcs(ps[1..])
  }

  /** The references left open for want of a model, blank ones kept. */
  function OpenRefs(ps: seq<OpenPart>): seq<string> {
    if ps == [] then [] else (if !ps[0].bound then [ps[0].reference] else []) + OpenRefs(ps[1..])
  }

  function ResolvedOpen(ps: seq<OpenPart>): seq<string> {
    if ps == [] then []
    else (if ps[0].bound then [if ps[0].reference == "" then "(unnamed)" else ps[0].reference] else []) + ResolvedOpen(ps[1..])
  }

  function NonBlank(refs: seq<string>): seq<string> {
    if refs == [] then [] else (if refs[0] != "" then [refs[0]] else []) + NonBlank(refs[1..])
  }

  const MODEL_KINDS: set<string> := {"open_part", "inferred_pin_role"}
  const READER_KINDS: set<string> := {"reduced_fidelity"}

  /** The distinct instructions of those kinds, or of any kind. */
  function UnlocksOf(found: seq<string>, as_: seq<Assumption>, kinds: Option<set<string>>): seq<string>
    decreases |as_|
  {
    if as_ == [] then found
    else
      var a := as_[0];
      var wanted := (kinds.Some? ==> a.kind in kinds.value) && a.replacement != "" && a.replacement !in found;
      UnlocksOf(if wanted then found + [a.replacement] else found, as_[1..], kinds)
  }

  function ModelUnlocks(r: Report): seq<string> {
    UnlocksOf([], r.assumptions, Some(MODEL_KINDS))
  }

  /** The references no sentence names. */
  function Uncovered(w: Wording, refs: seq<string>, texts: seq<string>): seq<string> {
    if refs == [] then []
    else (if exists t :: t in texts && w.names(refs[0], t) then [] else [refs[0]]) + Uncovered(w, refs[1..], texts)
  }

  function Merge(primary: seq<string>, rest: seq<string>): (r: seq<string>)
    ensures |primary| <= |r|
    decreases |rest|
  {
    if rest == [] then primary
    else Merge(if rest[0] in primary then primary else primary + [rest[0]], rest[1..])
  }

  function Lacking(extra: seq<string>, texts: seq<string>): seq<string> {
    if extra == [] then [] else (if extra[0] in texts then [] else [extra[0]]) + Lacking(extra[1..], texts)
  }

  predicate SimAdvanced(j: Journey) {
    j.before.Some? && j.after.Some? && j.liveStarted && j.after.value > j.before.value
  }

  function SectionCount(r: Report): nat {
    if r.sections.Some? then |r.sections.value| else 0
  }

  predicate SectionOk(s: Section) {
    s.Section? && s.title != "" && s.verdict != ""
  }

  // ---------------------------------------------------------------------------------------------
  // What each part of the grade asks
  // ---------------------------------------------------------------------------------------------

  /** The report agrees with itself. */
  predicate SelfConsistent(r: Report) {
    && r.listedParts.Some? && r.netNames.Some?
    && Distinct(r.netNames.value) == |r.netNames.value|
    && Distinct(NamedParts(r.listedParts.value)) == |NamedParts(r.listedParts.value)|
    && |r.listedParts.value| <= r.components && r.nets <= |r.netNames.value|
    && (r.sections.Some? ==> forall s :: s in r.sections.value ==> SectionOk(s))
  }

  predicate BasicOk(j: Journey, r: Report) {
    && SectionCount(r) >= MIN_CHECK_SECTIONS && SimAdvanced(j) && SelfConsistent(r)
    && (r.critical.Some? ==> r.critical.value.0 <= r.critical.value.1)
    && (r.critical.Some? && r.critical.value.1 == 0 ==> ActiveIcs(r.openParts) == [])
  }

  function Ceiling(p: PackageFacts): nat {
    if p.copperClassified then p.apertureFlashes else p.totalFlashes
  }

  /** A readable package with no more nets than flashes and no fewer than its floor. */
  predicate CopperOk(f: InputFacts, axes: seq<string>, nets: int) {
    && f.Films? && f.package.readable
    && (Ceiling(f.package) >= MIN_FLASHES_FOR_FLOOR ==> nets <= Ceiling(f.package))
    && (match ExpectedMinNets(f.package, axes)
        case Some(floor) => nets >= floor
        case None => nets != 0)
  }

  /** How many of the input's placements the report accounts for. */
  function Recovered(r: Report): int {
    if r.listedParts.None? then 0
    else
      var parts := DistinctParts(NamedParts(r.listedParts.value));
      if r.components < parts then r.components else parts
  }

  predicate PartsKnown(f: InputFacts, r: Report) {
    f.Native? && f.references.Some? && r.listedParts.Some? ==>
      forall p :: p in NamedParts(r.listedParts.value) ==> BaseDesignator(p) in f.references.value
  }

  predicate NetsKnown(f: InputFacts, r: Report) {
    f.Native? && f.netNames.Some? && r.netNames.Some? ==> forall n :: n in r.netNames.value ==> n in f.netNames.value
  }

  /** Half of what the file names, rounded up, and nothing it does not name. */
  predicate LayoutOk(format: string, f: InputFacts, r: Report) {
    && (format in NETLISTS ==> r.nets >= MIN_NETS_FOR_A_LAYOUT)
    && (format in PARTFUL ==>
          && r.components != 0 && r.nets >= MIN_NETS_FOR_A_LAYOUT
          && (PlacementsOf(f) > 0 ==> PartsKnown(f, r) && 2 * Recovered(r) >= PlacementsOf(f))
          && (DeclaredOf(f) > 0 ==>
                && NetsKnown(f, r) && (ExactOf(f) ==> r.nets <= DeclaredOf(f)) && r.nets >= (DeclaredOf(f) + 1) / 2))
    && (format !in PARTFUL ==> r.components != 0 || r.nets != 0)
  }

  predicate Unbound(r: Report) {
    r.critical.Some? && r.critical.value.1 > r.critical.value.0
  }

  /** Every part left open can be looked up, and something is offered for what is not named. */
  predicate BindingOk(w: Wording, format: string, r: Report) {
    var open, model := OpenRefs(r.openParts), ModelUnlocks(r);
    && !(r.critical.None? && format in PARTFUL)
    && (if open != [] then Uncovered(w, NonBlank(open), model) == [] && (|NonBlank(open)| < |open| ==> model != [])
        else Unbound(r) ==> model != [])
  }

  /** Something is unbound or undriven. */
  predicate BindingShort(r: Report) {
    OpenRefs(r.openParts) != [] || ResolvedOpen(r.openParts) != [] || Unbound(r)
  }

  predicate Ran(r: Report) {
    r.cosim.Some? && r.cosim.value.ran
  }

  /** A load-only image that did not run must say why; any other must drive pins for a stated analog verdict. */
  predicate FirmwareOk(fw: Firmware, r: Report, expectation: string) {
    && fw.Staged? && fw.loaded
    && (if expectation == "load-only" && !Ran(r) then fw.detail != "" && r.statedRefusals != []
        else
          && Ran(r) && r.cosim.value.seconds.Some? && r.cosim.value.seconds.value > 0.0
          && fw.pinsRendered != Some(false) && fw.pinActivity && r.cosim.value.analogValid.Some?
          && (!r.cosim.value.analogValid.value ==> ModelUnlocks(r) != []))
  }

  /** It ran nothing, or its analog answers do not hold. */
  predicate FirmwareShort(r: Report, expectation: string) {
    if expectation == "load-only" && !Ran(r) then true else Ran(r) && r.cosim.value.analogValid == Some(false)
  }

  /** What the firmware adds to the unlocks: why it did not run, or what would make its analog answers hold. */
  function FirmwareExtra(fw: Firmware, r: Report, expectation: string): seq<string> {
    if !fw.Staged? || !fw.loaded then []
    else if expectation == "load-only" && !Ran(r) then r.statedRefusals
    else if !Ran(r) || r.cosim.value.seconds.None? || r.cosim.value.seconds.value <= 0.0 || !fw.pinActivity then []
    else if r.cosim.value.analogValid == Some(false) then ModelUnlocks(r)
    else []
  }

  /** The unlocks the binding leaves: an instruction for open pins, the model uploads, then everything else offered. */
  function BindingUnlocks(w: Wording, format: string, r: Report, given: seq<string>): seq<string> {
    if r.critical.None? && format in PARTFUL then given
    else
      var open, resolved, model := OpenRefs(r.openParts), ResolvedOpen(r.openParts), ModelUnlocks(r);
      var driven := if resolved != [] then Merge([w.openPins(resolved)], given) else given;
      if if open != [] then BindingOk(w, format, r) else Unbound(r) && model != [] then Merge(model, driven) else driven
  }

  /** The unlocks before the firmware is looked at. */
  function InputUnlocks(w: Wording, r: Report, format: string, f: InputFacts): seq<string> {
    if format in COPPER then
      var reader := UnlocksOf([], r.assumptions, Some(READER_KINDS));
      if reader != [] then reader else [STRUCTURAL_UNLOCK]
    else
      BindingUnlocks(w, format, r, UnlocksOf([], r.assumptions, None))
      + if Unanchored(format, f) then [UNANCHORED_UNLOCK] else []
  }

  /** All the unlocks of a graded board, before the list is thinned. */
  function AllUnlocks(w: Wording, j: Journey, r: Report, format: string, f: InputFacts, firmwareExpect: Option<string>): seq<string> {
    var unlocks := InputUnlocks(w, r, format, f);
    if firmwareExpect.None? then unlocks
    else unlocks + Lacking(FirmwareExtra(j.firmware, r, firmwareExpect.value), unlocks)
  }

  /** What the grade discloses as checked against the input, or not. */
  function SignalsOf(r: Report, format: string, f: InputFacts): Signals {
    if format in COPPER then Signals(None, None, false, false)
    else
      var parted, netted := format in PARTFUL && PlacementsOf(f) > 0, format in PARTFUL && DeclaredOf(f) > 0;
      Signals(Some(parted), Some(netted && ExactOf(f)), netted && f.Native? && f.netNames.Some?,
              r.critical.None? || OpenRefs(r.openParts) == [])
  }

  /** Neither count could be checked against the input's own bytes. */
  predicate Unanchored(format: string, f: InputFacts) {
    format !in COPPER && !(format in PARTFUL && (PlacementsOf(f) > 0 || (DeclaredOf(f) > 0 && ExactOf(f))))
  }

  /** What the input format asks of the report. */
  predicate InputOk(w: Wording, r: Report, format: string, f: InputFacts, axes: seq<string>) {
    if format in COPPER then CopperOk(f, axes, r.nets) else LayoutOk(format, f, r) && BindingOk(w, format, r)
  }

  predicate InputShort(r: Report, format: string, f: InputFacts) {
    format in COPPER || BindingShort(r) || Unanchored(format, f)
  }

  /** Nothing to hold against the board. */
  predicate Passes(w: Wording, j: Journey, r: Report, format: string, f: InputFacts, firmwareExpect: Option<string>,
                   axes: seq<string>)
  {
    && BasicOk(j, r) && InputOk(w, r, format, f, axes)
    && (firmwareExpect.Some? ==> FirmwareOk(j.firmware, r, firmwareExpect.value))
  }

  /** Something a bench would miss. */
  predicate Short(r: Report, format: string, f: InputFacts, firmwareExpect: Option<string>) {
    InputShort(r, format, f) || (firmwareExpect.Some? && FirmwareShort(r, firmwareExpect.value))
  }

  /** The grade of a journey with a report. */
  function VerdictFor(w: Wording, j: Journey, r: Report, format: string, f: InputFacts, firmwareExpect: Option<string>,
                      axes: seq<string>): Verdict
  {
    if !Passes(w, j, r, format, f, firmwareExpect, axes) then Failed
    else if Short(r, format, f, firmwareExpect) then Degraded
    else Delivered
  }

  // ---------------------------------------------------------------------------------------------
  // What is held against a board, in order
  // ---------------------------------------------------------------------------------------------

  function Noted(reasons: seq<Reason>, holds: bool, x: Reason): seq<Reason> {
    if holds then reasons + [x] else reasons
  }

  function SectionFaults(given: seq<Reason>, ss: seq<Section>, k: nat): seq<Reason>
    requires k <= |ss|
  {
    if k == 0 then given else Noted(SectionFaults(given, ss, k - 1), !SectionOk(ss[k - 1]), BadSection(k - 1))
  }

  function InventoryFaults(r: Report): seq<Reason> {
    var f1 := Noted([], r.listedParts.None?, NoInventory("components"));
    var f2 := Noted(f1, r.netNames.None?, NoInventory("nets"));
    var f3 := Noted(f2, r.netNames.Some? && Distinct(r.netNames.value) != |r.netNames.value|, NetsRepeat);
    var f4 := Noted(f3, r.listedParts.Some? && Distinct(NamedParts(r.listedParts.value)) != |NamedParts(r.listedParts.value)|,
                    PartsRepeat);
    var f5 := Noted(f4, r.listedParts.Some? && |r.listedParts.value| > r.components, MorePartsListed);
    Noted(f5, r.netNames.Some? && |r.netNames.value| < r.nets, FewerNetsNamed)
  }

  function SelfFaults(r: Report): seq<Reason> {
    if r.sections.Some? then SectionFaults(InventoryFaults(r), r.sections.value, |r.sections.value|) else InventoryFaults(r)
  }

  function ClockFaults(j: Journey, r: Report): seq<Reason> {
    Noted(if SectionCount(r) == 0 then [NoChecks] else if SectionCount(r) < MIN_CHECK_SECTIONS then [TooFewChecks] else [],
          !SimAdvanced(j), ClockStill)
  }

  function BasicFaults(j: Journey, r: Report): seq<Reason> {
    Noted(Noted(ClockFaults(j, r) + SelfFaults(r), r.critical.Some? && r.critical.value.0 > r.critical.value.1, MalformedBinding),
          r.critical.Some? && r.critical.value.1 == 0 && ActiveIcs(r.openParts) != [], OpenActiveIcs)
  }

  function CopperFaults(f: InputFacts, axes: seq<string>, nets: int): seq<Reason> {
    if !f.Films? || !f.package.readable then [PackageUnreadable]
    else
      var floor, ceiling := ExpectedMinNets(f.package, axes), Ceiling(f.package);
      Noted(Noted(Noted([], ceiling >= MIN_FLASHES_FOR_FLOOR && nets > ceiling, MoreNetsThanFlashes),
                  floor.Some? && nets < floor.value, Collapsed),
            floor.None? && nets == 0, NoConnectivity)
  }

  function PlacementFaults(given: seq<Reason>, f: InputFacts, r: Report): seq<Reason> {
    if PlacementsOf(f) <= 0 then given
    else Noted(Noted(given, !PartsKnown(f, r), PartsInvented), 2 * Recovered(r) < PlacementsOf(f), ExtractionCollapsed)
  }

  function NetFaults(given: seq<Reason>, f: InputFacts, r: Report): seq<Reason> {
    if DeclaredOf(f) <= 0 then given
    else
      Noted(Noted(Noted(given, !NetsKnown(f, r), NetsInvented), r.nets > DeclaredOf(f) && ExactOf(f), MoreNetsThanDeclared),
            r.nets < (DeclaredOf(f) + 1) / 2, ConnectivityCollapsed)
  }

  function UpToNets(format: string, f: InputFacts, r: Report): seq<Reason> {
    var first := Noted([], format in NETLISTS && r.nets < MIN_NETS_FOR_A_LAYOUT, NetlistTooSmall);
    Noted(PlacementFaults(Noted(first, r.components == 0, NothingExtracted), f, r), r.nets < MIN_NETS_FOR_A_LAYOUT, LayoutTooSmall)
  }

  function LayoutFaults(format: string, f: InputFacts, r: Report): seq<Reason> {
    if format in PARTFUL then NetFaults(UpToNets(format, f, r), f, r)
    else
      Noted(Noted([], format in NETLISTS && r.nets < MIN_NETS_FOR_A_LAYOUT, NetlistTooSmall),
            r.components == 0 && r.nets == 0, NothingRecovered)
  }

  /** The open parts no upload names, or a word for them when none has a name either. */
  function LeftUncovered(w: Wording, r: Report): seq<string> {
    var open, model := OpenRefs(r.openParts), ModelUnlocks(r);
    var uncovered := Uncovered(w, NonBlank(open), model);
    if uncovered == [] && |NonBlank(open)| < |open| && model == [] then ["(an unnamed open part)"] else uncovered
  }

  function BindingFaults(w: Wording, format: string, r: Report): seq<Reason> {
    if r.critical.None? && format in PARTFUL then [NoBindingSummary]
    else if OpenRefs(r.openParts) != [] then Noted([], LeftUncovered(w, r) != [], UncoveredParts(LeftUncovered(w, r)))
    else Noted([], Unbound(r) && ModelUnlocks(r) == [], UnnamedUnbound)
  }

  function LoadOnlyFaults(fw: Firmware, r: Report): seq<Reason>
    requires fw.Staged?
  {
    Noted(Noted([], fw.detail == "", FirmwareFault("image not described")), r.statedRefusals == [], FirmwareFault("no reason given"))
  }

  function RunFaults(fw: Firmware, r: Report): seq<Reason>
    requires fw.Staged?
  {
    if !Ran(r) then [FirmwareFault("nothing co-simulated")]
    else if r.cosim.value.seconds.None? || r.cosim.value.seconds.value <= 0.0 then [FirmwareFault("zero seconds")]
    else
      var pins, valid := Noted([], fw.pinsRendered == Some(false), FirmwareFault("pins not rendered")), r.cosim.value.analogValid;
      if !fw.pinActivity then pins + [FirmwareFault("no pin driven")]
      else if valid.None? then pins + [FirmwareFault("no analog verdict")]
      else Noted(pins, !valid.value && ModelUnlocks(r) == [], FirmwareFault("analog invalid"))
  }

  function FirmwareFaults(fw: Firmware, r: Report, expectation: string): seq<Reason> {
    if !fw.Staged? then [FirmwareFault("none staged")]
    else if !fw.loaded then [FirmwareFault("never loaded")]
    else if expectation == "load-only" && !Ran(r) then LoadOnlyFaults(fw, r)
    else RunFaults(fw, r)
  }

  function InputFaults(w: Wording, r: Report, format: string, f: InputFacts, axes: seq<string>): seq<Reason> {
    if format in COPPER then CopperFaults(f, axes, r.nets) else LayoutFaults(format, f, r) + BindingFaults(w, format, r)
  }

  function Faults(w: Wording, j: Journey, r: Report, format: string, f: InputFacts, firmwareExpect: Option<string>, axes: seq<string>)
    : seq<Reason>
  {
    BasicFaults(j, r) + InputFaults(w, r, format, f, axes)
    + if firmwareExpect.Some? then FirmwareFaults(j.firmware, r, firmwareExpect.value) else []
  }

  // ---------------------------------------------------------------------------------------------
  // The grade, part by part
  // ---------------------------------------------------------------------------------------------

  method SelfConsistencyFailures(r: Report) returns (failures: seq<Reason>)
    ensures failures == SelfFaults(r) && (failures == [] <==> SelfConsistent(r))
  {
    failures := [];
    if r.listedParts.None? {
      failures := failures + [NoInventory("components")];
    }
    if r.netNames.None? {
      failures := failures + [NoInventory("nets")];
    }
    if r.netNames.Some? && Distinct(r.netNames.value) != |r.netNames.value| {
      failures := failures + [NetsRepeat];
    }
    if r.listedParts.Some? {
      var named := NamedParts(r.listedParts.value);
      if Distinct(named) != |named| {
        failures := failures + [PartsRepeat];
      }
    }
    if r.listedParts.Some? && |r.listedParts.value| > r.components {
      failures := failures + [MorePartsListed];
    }
    if r.netNames.Some? && |r.netNames.value| < r.nets {
      failures := failures + [FewerNetsNamed];
    }
    if r.sections.Some? {
      for i := 0 to |r.sections.value|
        invariant failures == SectionFaults(InventoryFaults(r), r.sections.value, i)
        invariant failures == [] <==> InventoryFaults(r) == [] && forall k :: 0 <= k < i ==> SectionOk(r.sections.value[k])
      {
        if !SectionOk(r.sections.value[i]) {
          failures := failures + [BadSection(i)];
        }
      }
      assert forall s :: s in r.sections.value <==> exists k :: 0 <= k < |r.sections.value| && r.sections.value[k] == s;
    }
  }

  lemma BasicFaultless(j: Journey, r: Report)
    requires SelfFaults(r) == [] <==> SelfConsistent(r)
    ensures BasicFaults(j, r) == [] <==> BasicOk(j, r)
  {
    var first := ClockFaults(j, r);
    assert first == [] <==> SectionCount(r) >= MIN_CHECK_SECTIONS && SimAdvanced(j);
    assert first + SelfFaults(r) == [] <==> first == [] && SelfFaults(r) == [];
  }

  lemma LayoutFaultless(format: string, f: InputFacts, r: Report)
    ensures LayoutFaults(format, f, r) == [] <==> LayoutOk(format, f, r)
  {
    if format in PARTFUL {
      var first := Noted([], format in NETLISTS && r.nets < MIN_NETS_FOR_A_LAYOUT, NetlistTooSmall);
      var parts := PlacementFaults(Noted(first, r.components == 0, NothingExtracted), f, r);
      assert parts == [] <==> first == [] && r.components != 0
                              && (PlacementsOf(f) > 0 ==> PartsKnown(f, r) && 2 * Recovered(r) >= PlacementsOf(f));
    }
  }

  method BasicReasons(j: Journey, r: Report) returns (reasons: seq<Reason>)
    ensures reasons == BasicFaults(j, r) && (reasons == [] <==> BasicOk(j, r))
  {
    reasons := [];
    if SectionCount(r) == 0 {
      reasons := reasons + [NoChecks];
    } else if SectionCount(r) < MIN_CHECK_SECTIONS {
      reasons := reasons + [TooFewChecks];
    }
    if !SimAdvanced(j) {
      reasons := reasons + [ClockStill];
    }
    assert reasons == ClockFaults(j, r);
    var failures := SelfConsistencyFailures(r);
    reasons := reasons + failures;
    assert reasons == ClockFaults(j, r) + SelfFaults(r);
    if r.critical.Some? && r.critical.value.0 > r.critical.value.1 {
      reasons := reasons + [MalformedBinding];
    }
    if r.critical.Some? && r.critical.value.1 == 0 && ActiveIcs(r.openParts) != [] {
      reasons := reasons + [OpenActiveIcs];
    }
    BasicFaultless(j, r);
  }

  method CopperReasons(f: InputFacts, axes: seq<string>, nets: int) returns (reasons: seq<Reason>)
    ensures reasons == CopperFaults(f, axes, nets) && (reasons == [] <==> CopperOk(f, axes, nets))
  {
    reasons := [];
    if !f.Films? || !f.package.readable {
      return [PackageUnreadable];
    }
    var floor, ceiling := ExpectedMinNets(f.package, axes), Ceiling(f.package);
    if ceiling >= MIN_FLASHES_FOR_FLOOR && nets > ceiling {
      reasons := reasons + [MoreNetsThanFlashes];
    }
    if floor.Some? && nets < floor.value {
      reasons := reasons + [Collapsed];
    }
    if floor.None? && nets == 0 {
      reasons := reasons + [NoConnectivity];
    }
  }

  method LayoutReasons(format: string, f: InputFacts, r: Report, given: Signals) returns (reasons: seq<Reason>, signals: Signals)
    ensures reasons == LayoutFaults(format, f, r)
    ensures signals.placementVerified == if format in PARTFUL then Some(PlacementsOf(f) > 0) else given.placementVerified
    ensures signals.netVerified == if format in PARTFUL then Some(DeclaredOf(f) > 0 && ExactOf(f)) else given.netVerified
    ensures format !in PARTFUL ==> signals == given
    ensures signals.bindingUnverified == given.bindingUnverified
    ensures format in PARTFUL ==> signals.netIdentity == (DeclaredOf(f) > 0 && f.Native? && f.netNames.Some?)
  {
    reasons, signals := [], given;
    if format in NETLISTS && r.nets < MIN_NETS_FOR_A_LAYOUT {
      reasons := reasons + [NetlistTooSmall];
    }
    if format in PARTFUL {
      if r.components == 0 {
        reasons := reasons + [NothingExtracted];
      }
      if PlacementsOf(f) <= 0 {
        signals := signals.(placementVerified := Some(false));
      } else {
        if !PartsKnown(f, r) {
          reasons := reasons + [PartsInvented];
        }
        signals := signals.(placementVerified := Some(true));
        if 2 * Recovered(r) < PlacementsOf(f) {
          reasons := reasons + [ExtractionCollapsed];
        }
      }
      if r.nets < MIN_NETS_FOR_A_LAYOUT {
        reasons := reasons + [LayoutTooSmall];
      }
      signals := signals.(netIdentity := false);
      ghost var before := reasons;
      assert before == UpToNets(format, f, r);
      var declared := DeclaredOf(f);
      if declared <= 0 {
        signals := signals.(netVerified := Some(false));
      } else {
        signals := signals.(netVerified := Some(ExactOf(f)), netIdentity := f.Native? && f.netNames.Some?);
        if !NetsKnown(f, r) {
          reasons := reasons + [NetsInvented];
        }
        if r.nets > declared && ExactOf(f) {
          reasons := reasons + [MoreNetsThanDeclared];
        }
        if r.nets < (declared + 1) / 2 {
          reasons := reasons + [ConnectivityCollapsed];
        }
      }
      assert reasons == NetFaults(before, f, r);
    } else if r.components == 0 && r.nets == 0 {
      reasons := reasons + [NothingRecovered];
    }
  }

  lemma {:induction false} UncoveredByNothing(w: Wording, refs: seq<string>)
    ensures Uncovered(w, refs, []) == refs
  {
    if refs != [] {
      UncoveredByNothing(w, refs[1..]);
      assert refs == [refs[0]] + refs[1..];
    }
  }

  method BindingReasons(w: Wording, format: string, r: Report, given: seq<string>)
    returns (reasons: seq<Reason>, degraded: bool, unlocks: seq<string>)
    ensures reasons == BindingFaults(w, format, r) && (reasons == [] <==> BindingOk(w, format, r))
    ensures reasons == [] ==> degraded == BindingShort(r)
    ensures degraded ==> unlocks != []
    ensures unlocks == BindingUnlocks(w, format, r, given)
  {
    reasons, degraded, unlocks := [], false, given;
    var model := ModelUnlocks(r);
    if r.critical.None? && format in PARTFUL {
      return [NoBindingSummary], false, given;
    }
    var open := OpenRefs(r.openParts);
    var named := NonBlank(open);
    var uncovered := Uncovered(w, named, model);
    var resolved := ResolvedOpen(r.openParts);
    if resolved != [] {
      degraded := true;
      unlocks := Merge([w.openPins(resolved)], unlocks);
    }
    if open != [] {
      if |named| < |open| && model == [] {
        uncovered := if uncovered != [] then uncovered else ["(an unnamed open part)"];
      }
      if uncovered != [] {
        reasons := reasons + [UncoveredParts(uncovered)];
      } else {
        if model == [] {
          UncoveredByNothing(w, named);
        }
        degraded := true;
        unlocks := Merge(model, unlocks);
      }
    } else if Unbound(r) {
      if model != [] {
        degraded := true;
        unlocks := Merge(model, unlocks);
      } else {
        reasons := reasons + [UnnamedUnbound];
      }
    }
  }

  method GradeFirmware(fw: Firmware, r: Report, expectation: string) returns (reasons: seq<Reason>, extra: seq<string>)
    ensures reasons == FirmwareFaults(fw, r, expectation) && (reasons == [] <==> FirmwareOk(fw, r, expectation))
    ensures reasons == [] ==> (extra != [] <==> FirmwareShort(r, expectation))
    ensures extra == FirmwareExtra(fw, r, expectation)
  {
    reasons := [];
    if !fw.Staged? {
      return [FirmwareFault("none staged")], [];
    }
    if !fw.loaded {
      return [FirmwareFault("never loaded")], [];
    }
    if expectation == "load-only" && !Ran(r) {
      if fw.detail == "" {
        reasons := reasons + [FirmwareFault("image not described")];
      }
      if r.statedRefusals == [] {
        return reasons + [FirmwareFault("no reason given")], [];
      }
      return reasons, r.statedRefusals;
    }
    if !Ran(r) {
      return [FirmwareFault("nothing co-simulated")], [];
    }
    var cosim := r.cosim.value;
    if cosim.seconds.None? || cosim.seconds.value <= 0.0 {
      return [FirmwareFault("zero seconds")], [];
    }
    if fw.pinsRendered == Some(false) {
      reasons := reasons + [FirmwareFault("pins not rendered")];
    }
    if !fw.pinActivity {
      return reasons + [FirmwareFault("no pin driven")], [];
    }
    if cosim.analogValid.None? {
      return reasons + [FirmwareFault("no analog verdict")], [];
    }
    if !cosim.analogValid.value {
      var model := ModelUnlocks(r);
      if model == [] {
        return reasons + [FirmwareFault("analog invalid")], [];
      }
      return reasons, model;
    }
    extra := [];
  }

  lemma {:induction false} NothingLacking(extra: seq<string>)
    ensures Lacking(extra, []) == extra
  {
    if extra != [] {
      NothingLacking(extra[1..]);
      assert extra == [extra[0]] + extra[1..];
    }
  }

  /** The part of the grade that depends on the input's format. */
  method GradeInput(w: Wording, r: Report, format: string, f: InputFacts, axes: seq<string>)
    returns (reasons: seq<Reason>, degraded: bool, structural: bool, unlocks: seq<string>, signals: Signals)
    ensures reasons == InputFaults(w, r, format, f, axes) && (reasons == [] <==> InputOk(w, r, format, f, axes))
    ensures reasons == [] ==> degraded == InputShort(r, format, f)
    ensures degraded ==> unlocks != []
    ensures format in COPPER || Unanchored(format, f) ==> structural
    ensures unlocks == InputUnlocks(w, r, format, f) && signals == SignalsOf(r, format, f)
  {
    signals := Signals(None, None, false, false);
    if format in COPPER {
      var readerUnlocks := UnlocksOf([], r.assumptions, Some(READER_KINDS));
      reasons := CopperReasons(f, axes, r.nets);
      unlocks := if readerUnlocks != [] then readerUnlocks else [STRUCTURAL_UNLOCK];
      return reasons, true, true, unlocks, signals;
    }
    var layoutReasons, checked := LayoutReasons(format, f, r, signals);
    LayoutFaultless(format, f, r);
    signals := checked.(bindingUnverified := r.critical.None? || OpenRefs(r.openParts) == []);
    var bindingReasons, short, offered := BindingReasons(w, format, r, UnlocksOf([], r.assumptions, None));
    reasons, degraded, structural, unlocks := layoutReasons + bindingReasons, short, false, offered;
    if signals.placementVerified.None? {
      signals := signals.(placementVerified := Some(false));
    }
    if signals.netVerified.None? {
      signals := signals.(netVerified := Some(false));
    }
    if signals.placementVerified == Some(false) && signals.netVerified == Some(false) {
      degraded, structural := true, true;
      unlocks := unlocks + [UNANCHORED_UNLOCK];
    }
  }

  /** The whole list when it is short; else eight of it, every shape first, and a note of the rest. */
  ghost predicate Capped(shown: seq<string>, all: seq<string>, w: Wording) {
    if |all| <= MAX_UNLOCKS then shown == all
    else
      && |shown| == MAX_UNLOCKS + 1 && shown[MAX_UNLOCKS] == w.note(|all| - MAX_UNLOCKS)
      && Thinned(shown[..MAX_UNLOCKS], all, w.shape)
  }

  /** Everything that is held against the board, and everything offered to it. */
  method GradeReport(w: Wording, j: Journey, r: Report, format: string, f: InputFacts, firmwareExpect: Option<string>,
                     axes: seq<string>)
    returns (reasons: seq<Reason>, degraded: bool, structural: bool, unlocks: seq<string>, signals: Signals)
    ensures reasons == Faults(w, j, r, format, f, firmwareExpect, axes)
    ensures reasons == [] <==> Passes(w, j, r, format, f, firmwareExpect, axes)
    ensures reasons == [] ==> degraded == Short(r, format, f, firmwareExpect)
    ensures degraded ==> unlocks != []
    ensures unlocks == AllUnlocks(w, j, r, format, f, firmwareExpect) && signals == SignalsOf(r, format, f)
  {
    reasons := BasicReasons(j, r);
    var inputReasons;
    inputReasons, degraded, structural, unlocks, signals := GradeInput(w, r, format, f, axes);
    reasons := reasons + inputReasons;
    if firmwareExpect.Some? {
      var firmwareReasons, extra := GradeFirmware(j.firmware, r, firmwareExpect.value);
      reasons := reasons + firmwareReasons;
      if extra != [] {
        degraded := true;
        if unlocks == [] {
          NothingLacking(extra);
        }
      }
      unlocks := unlocks + Lacking(extra, unlocks);
    }
  }

  method CapFor(w: Wording, unlocks: seq<string>) returns (shown: seq<string>)
    ensures Capped(shown, unlocks, w) && (unlocks != [] ==> shown != [])
  {
    shown := CapUnlocks(unlocks, w.shape, w.note);
  }

  /** The grade of one journey. */
  method GradeBoard(w: Wording, j: Journey, format: string, expectsRefusal: bool, f: InputFacts, firmwareExpect: Option<string>,
                    axes: seq<string>)
    returns (g: Grade)
    ensures g.verdict == RefusedHonest <==> expectsRefusal
    ensures !expectsRefusal && j.report.None? ==> g.verdict == Failed
    ensures !expectsRefusal && j.report.Some? ==>
      g.verdict == VerdictFor(w, j, j.report.value, format, f, firmwareExpect, axes)
    ensures g.verdict == Degraded ==> g.unlocks != []
    ensures g.verdict == Failed <==> g.reasons != []
    ensures g.reasons == if expectsRefusal then [] else if j.report.None? then [NoReport]
                         else Faults(w, j, j.report.value, format, f, firmwareExpect, axes)
    ensures !expectsRefusal && j.report.Some? ==>
      && g.signals == Some(SignalsOf(j.report.value, format, f))
      && Capped(g.unlocks, AllUnlocks(w, j, j.report.value, format, f, firmwareExpect), w)
  {
    if expectsRefusal {
      return Grade(RefusedHonest, [], [], None);
    }
    if j.report.None? {
      return Grade(Failed, [NoReport], [], None);
    }
    var reasons, degraded, structural, unlocks, signals :=
      GradeReport(w, j, j.report.value, format, f, firmwareExpect, axes);
    var capped := CapFor(w, unlocks);
    if reasons != [] {
      return Grade(Failed, reasons, capped, Some(signals));
    }
    if degraded {
      if unlocks == [] && !structural {
        assert false;
      }
      return Grade(Degraded, [], capped, Some(signals));
    }
    g := Grade(Delivered, [], capped, Some(signals));
  }

  // ---------------------------------------------------------------------------------------------
  // What the grades promise
  // ---------------------------------------------------------------------------------------------

  lemma {:induction false} OpenOrResolved(ps: seq<OpenPart>)
    ensures |OpenRefs(ps)| + |ResolvedOpen(ps)| == |ps|
  {
    if ps != [] {
      OpenOrResolved(ps[1..]);
    }
  }

  /** A delivered board is bench-grade: its input could be counted, its clock moved, and nothing is open. */
  ghost predicate BenchGrade(j: Journey, format: string) {
    && (format == "kicad_pcb" || format == "eagle_brd")
    && j.liveStarted && j.before.Some? && j.after.Some? && j.before.value < j.after.value
    && j.report.Some? && j.report.value.sections.Some? && |j.report.value.sections.value| >= 2
    && j.report.value.nets >= 2 && j.report.value.components > 0
    && j.report.value.openParts == []
    && j.report.value.critical.Some? && j.report.value.critical.value.0 == j.report.value.critical.value.1
  }

  /**
    With the facts the gate takes from that input: `delivered` means a format whose parts or nets were
    counted in the bytes, at least half of what was counted recovered and nothing invented, an advanced
    clock, two checks, two nets, no open part, and every critical part bound.
   */
  lemma DeliveredIsBenchGrade(w: Wording, j: Journey, format: string, members: seq<Option<Member>>, scan: Option<NativeScan>,
                              firmwareExpect: Option<string>, axes: seq<string>)
    requires j.report.Some?
    requires VerdictFor(w, j, j.report.value, format, FactsFor(format, members, scan), firmwareExpect, axes) == Delivered
    ensures BenchGrade(j, format)
    ensures scan.Some? && (scan.value.placements > 0 || DeclaredNets(format, scan.value) > 0)
    ensures scan.value.placements > 0 ==> 2 * Recovered(j.report.value) >= scan.value.placements
    ensures 2 * j.report.value.nets >= DeclaredNets(format, scan.value)
    ensures scan.value.placements > 0 && NamedRecords(scan.value, |scan.value.records|) == scan.value.placements ==>
      forall p :: p in NamedParts(j.report.value.listedParts.value) ==>
        BaseDesignator(p) in Designators(scan.value, |scan.value.records|)
  {
    OpenOrResolved(j.report.value.openParts);
  }

  lemma {:induction false} MergeKeepsAll(primary: seq<string>, rest: seq<string>)
    ensures forall t :: t in Merge(primary, rest) <==> t in primary || t in rest
    decreases |rest|
  {
    if rest != [] {
      MergeKeepsAll(if rest[0] in primary then primary else primary + [rest[0]], rest[1..]);
      assert forall t :: t in rest <==> t == rest[0] || t in rest[1..];
    }
  }

  lemma {:induction false} CoveredByName(w: Wording, refs: seq<string>, texts: seq<string>, part: string)
    requires Uncovered(w, refs, texts) == [] && part in refs
    ensures exists t :: t in texts && w.names(part, t)
  {
    if part != refs[0] {
      CoveredByName(w, refs[1..], texts, part);
    }
  }

  /** What the report offers is among the input's unlocks, and so is an instruction for every part left open. */
  lemma InputUnlocksCover(w: Wording, r: Report, format: string, f: InputFacts)
    requires format !in COPPER
    ensures forall t :: t in UnlocksOf([], r.assumptions, None) ==> t in InputUnlocks(w, r, format, f)
    ensures BindingOk(w, format, r) ==>
      forall part :: part in NonBlank(OpenRefs(r.openParts)) ==>
        exists t :: t in InputUnlocks(w, r, format, f) && w.names(part, t)
  {
    var given, model, resolved := UnlocksOf([], r.assumptions, None), ModelUnlocks(r), ResolvedOpen(r.openParts);
    var driven := if resolved != [] then Merge([w.openPins(resolved)], given) else given;
    MergeKeepsAll([w.openPins(resolved)], given);
    MergeKeepsAll(model, driven);
    if BindingOk(w, format, r) {
      forall part | part in NonBlank(OpenRefs(r.openParts))
        ensures exists t :: t in InputUnlocks(w, r, format, f) && w.names(part, t)
      {
        CoveredByName(w, NonBlank(OpenRefs(r.openParts)), model, part);
      }
    }
  }

  /**
    A board that is not a fabrication package and is not failed: of at most eight unlocks none is dropped
    from its grade, so every part left open is named by an unlock the grade carries.  Of more than eight,
    an unlock for the part is among those the grade was thinned from.
   */
  lemma OpenPartsAreActionable(w: Wording, j: Journey, r: Report, format: string, f: InputFacts, firmwareExpect: Option<string>,
                               axes: seq<string>, shown: seq<string>, part: string)
    requires format !in COPPER && VerdictFor(w, j, r, format, f, firmwareExpect, axes) != Failed
    requires Capped(shown, AllUnlocks(w, j, r, format, f, firmwareExpect), w) && part in NonBlank(OpenRefs(r.openParts))
    ensures exists t :: t in AllUnlocks(w, j, r, format, f, firmwareExpect) && w.names(part, t)
    ensures |AllUnlocks(w, j, r, format, f, firmwareExpect)| <= MAX_UNLOCKS ==> exists t :: t in shown && w.names(part, t)
  {
    InputUnlocksCover(w, r, format, f);
    var t :| t in InputUnlocks(w, r, format, f) && w.names(part, t);
    assert t in AllUnlocks(w, j, r, format, f, firmwareExpect);
  }

  // ---------------------------------------------------------------------------------------------
  // What a worse report does to the grade
  // ---------------------------------------------------------------------------------------------

  function Rank(v: Verdict): nat {
    match v
    case Delivered => 3
    case Degraded => 2
    case RefusedHonest => 1
    case Failed => 0
  }

  function WithOpen(r: Report, p: OpenPart): Report {
    r.(openParts := r.openParts + [p])
  }

  lemma {:induction false} ActiveAppended(ps: seq<OpenPart>, p: OpenPart)
    ensures ActiveIcs(ps + [p]) == ActiveIcs(ps) + ActiveIcs([p])
  {
    if ps == [] {
      assert ps + [p] == [p];
    } else {
      var all := ps + [p];
      assert all[0] == ps[0] && all[1..] == ps[1..] + [p];
      ActiveAppended(ps[1..], p);
    }
  }

  lemma {:induction false} OpenAppended(ps: seq<OpenPart>, p: OpenPart)
    ensures OpenRefs(ps + [p]) == OpenRefs(ps) + OpenRefs([p])
  {
    if ps == [] {
      assert ps + [p] == [p];
    } else {
      assert (ps + [p])[1..] == ps[1..] + [p];
      OpenAppended(ps[1..], p);
    }
  }

  lemma {:induction false} ResolvedAppended(ps: seq<OpenPart>, p: OpenPart)
    ensures ResolvedOpen(ps + [p]) == ResolvedOpen(ps) + ResolvedOpen([p])
  {
    if ps == [] {
      assert ps + [p] == [p];
    } else {
      assert (ps + [p])[1..] == ps[1..] + [p];
      ResolvedAppended(ps[1..], p);
    }
  }

  lemma OpenPartAppended(ps: seq<OpenPart>, p: OpenPart)
    ensures ActiveIcs(ps + [p]) == ActiveIcs(ps) + ActiveIcs([p])
    ensures OpenRefs(ps + [p]) == OpenRefs(ps) + OpenRefs([p])
    ensures ResolvedOpen(ps + [p]) == ResolvedOpen(ps) + ResolvedOpen([p])
  {
    ActiveAppended(ps, p);
    OpenAppended(ps, p);
    ResolvedAppended(ps, p);
  }

  lemma {:induction false} NonBlankAppended(a: seq<string>, b: seq<string>)
    ensures NonBlank(a + b) == NonBlank(a) + NonBlank(b)
  {
    if a == [] {
      assert a + b == b;
    } else {
      assert (a + b)[1..] == a[1..] + b;
      NonBlankAppended(a[1..], b);
    }
  }

  lemma {:induction false} NonBlankLength(refs: seq<string>)
    ensures |NonBlank(refs)| <= |refs|
  {
    if refs != [] {
      NonBlankLength(refs[1..]);
    }
  }

  lemma {:induction false} UncoveredAppended(w: Wording, a: seq<string>, b: seq<string>, texts: seq<string>)
    ensures Uncovered(w, a + b, texts) == Uncovered(w, a, texts) + Uncovered(w, b, texts)
  {
    if a == [] {
      assert a + b == b;
    } else {
      assert (a + b)[1..] == a[1..] + b;
      UncoveredAppended(w, a[1..], b, texts);
    }
  }

  /** A part more left open: what its binding lacks, the binding lacked or lacks now. */
  lemma OpenPartHurtsBinding(w: Wording, format: string, r: Report, p: OpenPart)
    ensures BindingOk(w, format, WithOpen(r, p)) ==> BindingOk(w, format, r)
    ensures BindingShort(WithOpen(r, p))
  {
    var open, more, model := OpenRefs(r.openParts), OpenRefs([p]), ModelUnlocks(r);
    OpenPartAppended(r.openParts, p);
    NonBlankAppended(open, more);
    UncoveredAppended(w, NonBlank(open), NonBlank(more), model);
    NonBlankLength(more);
    NonBlankLength(open);
    if open == [] && more != [] && model == [] && Uncovered(w, NonBlank(more), model) == [] {
      UncoveredByNothing(w, NonBlank(more));
    }
  }

  /**
    One open part more never lifts a grade; and off a fabrication package it rules `delivered` out, naming
    what would close it in every grade that is not failed.
   */
  lemma OpenPartNeverHelps(w: Wording, j: Journey, r: Report, p: OpenPart, format: string, f: InputFacts,
                           firmwareExpect: Option<string>, axes: seq<string>)
    ensures var before := VerdictFor(w, j, r, format, f, firmwareExpect, axes);
            var after := VerdictFor(w, j, WithOpen(r, p), format, f, firmwareExpect, axes);
            Rank(after) <= Rank(before) && after != Delivered
    ensures VerdictFor(w, j, WithOpen(r, p), format, f, firmwareExpect, axes) == Degraded && format !in COPPER
            && !p.bound && p.reference != "" ==>
              exists t :: t in ModelUnlocks(r) && w.names(p.reference, t)
  {
    OpenPartHurtsBinding(w, format, r, p);
    OpenPartAppended(r.openParts, p);
    var open, more, model := OpenRefs(r.openParts), OpenRefs([p]), ModelUnlocks(r);
    if BindingOk(w, format, WithOpen(r, p)) && !p.bound && p.reference != "" {
      NonBlankAppended(open, more);
      assert p.reference in NonBlank(more);
      CoveredByName(w, NonBlank(open + more), model, p.reference);
    }
  }

  /** A report that accounts for fewer placed parts never grades higher; under half of them it fails. */
  lemma LostPlacementsNeverHelp(w: Wording, j: Journey, r: Report, fewer: int, format: string, f: InputFacts,
                                firmwareExpect: Option<string>, axes: seq<string>)
    requires fewer <= r.components && format in PARTFUL
    ensures Rank(VerdictFor(w, j, r.(components := fewer), format, f, firmwareExpect, axes))
            <= Rank(VerdictFor(w, j, r, format, f, firmwareExpect, axes))
    ensures PlacementsOf(f) > 0 && 2 * fewer < PlacementsOf(f) ==>
      VerdictFor(w, j, r.(components := fewer), format, f, firmwareExpect, axes) == Failed
  {
    var r' := r.(components := fewer);
    assert BasicOk(j, r') ==> BasicOk(j, r) && 0 <= fewer;
    assert BasicOk(j, r') && LayoutOk(format, f, r') ==> LayoutOk(format, f, r);
  }

  /** A fabrication package is never delivered, whatever it reports. */
  lemma CopperIsNeverDelivered(w: Wording, j: Journey, format: string, f: InputFacts, firmwareExpect: Option<string>,
                               axes: seq<string>)
    requires format in COPPER && j.report.Some?
    ensures Short(j.report.value, format, f, firmwareExpect)
    ensures Passes(w, j, j.report.value, format, f, firmwareExpect, axes) ==>
      f.Films? && (Ceiling(f.package) >= MIN_FLASHES_FOR_FLOOR ==> j.report.value.nets <= Ceiling(f.package))
  {
  }
}
