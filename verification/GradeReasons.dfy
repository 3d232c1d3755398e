/** The reasons a grade gives: each exactly when it holds of the journey, its report and the input's facts. */
module GradeReasons {
  import opened Wrappers
  import opened GerberFacts
  import opened Unlocks
  import opened Grading
  import opened GradeMeaning

  // ---------------------------------------------------------------------------------------------
  // What is held against any journey
  // ---------------------------------------------------------------------------------------------

  lemma NotedHas(reasons: seq<Reason>, holds: bool, y: Reason, x: Reason)
    ensures x in Noted(reasons, holds, y) <==> x in reasons || (holds && x == y)
  {
  }

  predicate SectionHolds(r: Report, i: nat) {
    r.sections.Some? && i < |r.sections.value| && !(r.sections.value[i].Section? && |r.sections.value[i].title| > 0
                                                    && |r.sections.value[i].verdict| > 0)
  }

  /** The report contradicts itself in that way. */
  predicate SelfHeld(r: Report, x: Reason) {
    match x
    case NoInventory(field) => (field == "components" && r.listedParts.None?) || (field == "nets" && r.netNames.None?)
    case NetsRepeat => r.netNames.Some? && !AllDiffer(r.netNames.value)
    case PartsRepeat => r.listedParts.Some? && !PartsDiffer(r.listedParts.value)
    case MorePartsListed => r.listedParts.Some? && |r.listedParts.value| > r.components
    case FewerNetsNamed => r.netNames.Some? && |r.netNames.value| < r.nets
    case BadSection(i) => SectionHolds(r, i)
    case _ => false
  }

  lemma {:induction false} SectionFaultsAre(given: seq<Reason>, r: Report, k: nat, x: Reason)
    requires r.sections.Some? && k <= |r.sections.value|
    ensures x in SectionFaults(given, r.sections.value, k) <==> x in given || (x.BadSection? && x.index < k && SectionHolds(r, x.index))
  {
    if k > 0 {
      SectionFaultsAre(given, r, k - 1, x);
    }
  }

  lemma InventoryFaultsAre(r: Report, x: Reason)
    ensures x in InventoryFaults(r) <==> !x.BadSection? && SelfHeld(r, x)
  {
    if r.netNames.Some? {
      DistinctIff(r.netNames.value);
    }
    if r.listedParts.Some? {
      NamedIs(r.listedParts.value);
      DistinctIff(NamedParts(r.listedParts.value));
    }
    InventorySteps(r, r.netNames.Some? && !AllDiffer(r.netNames.value), r.listedParts.Some? && !PartsDiffer(r.listedParts.value), x);
  }

  lemma InventorySteps(r: Report, netsRepeat: bool, partsRepeat: bool, x: Reason)
    requires netsRepeat <==> r.netNames.Some? && Distinct(r.netNames.value) != |r.netNames.value|
    requires partsRepeat <==>
             r.listedParts.Some? && Distinct(NamedParts(r.listedParts.value)) != |NamedParts(r.listedParts.value)|
    ensures x in InventoryFaults(r) <==>
            || (x == NoInventory("components") && r.listedParts.None?) || (x == NoInventory("nets") && r.netNames.None?)
            || (x == NetsRepeat && netsRepeat) || (x == PartsRepeat && partsRepeat)
            || (x == MorePartsListed && r.listedParts.Some? && |r.listedParts.value| > r.components)
            || (x == FewerNetsNamed && r.netNames.Some? && |r.netNames.value| < r.nets)
  {
  }

  lemma SelfFaultsAre(r: Report, x: Reason)
    ensures x in SelfFaults(r) <==> SelfHeld(r, x)
  {
    InventoryFaultsAre(r, x);
    if r.sections.Some? {
      SectionFaultsAre(InventoryFaults(r), r, |r.sections.value|, x);
    }
  }

  /** That is held against any journey: too few checks, a clock that stood, parts that cannot be counted, a contradiction. */
  predicate BasicHeld(j: Journey, r: Report, x: Reason) {
    || (x == NoChecks && (r.sections.None? || r.sections.value == []))
    || (x == TooFewChecks && r.sections.Some? && |r.sections.value| == 1)
    || (x == ClockStill && !ClockAdvanced(j))
    || (x == MalformedBinding && r.critical.Some? && r.critical.value.0 > r.critical.value.1)
    || (x == OpenActiveIcs && r.critical.Some? && r.critical.value.1 == 0 && exists p :: p in r.openParts && p.activeIc)
    || SelfHeld(r, x)
  }

  lemma BasicSteps(j: Journey, r: Report, own: seq<Reason>, x: Reason)
    requires own == SelfFaults(r)
    ensures x in BasicFaults(j, r) <==>
            || x in ClockFaults(j, r) || x in own
            || (x == MalformedBinding && r.critical.Some? && r.critical.value.0 > r.critical.value.1)
            || (x == OpenActiveIcs && r.critical.Some? && r.critical.value.1 == 0 && ActiveIcs(r.openParts) != [])
  {
  }

  lemma ClockFaultsAre(j: Journey, r: Report, x: Reason)
    ensures x in ClockFaults(j, r) <==>
            || (x == NoChecks && (r.sections.None? || r.sections.value == []))
            || (x == TooFewChecks && r.sections.Some? && |r.sections.value| == 1) || (x == ClockStill && !ClockAdvanced(j))
  {
  }

  lemma BasicFaultsAre(j: Journey, r: Report, x: Reason)
    ensures x in BasicFaults(j, r) <==> BasicHeld(j, r, x)
  {
    BasicSteps(j, r, SelfFaults(r), x);
    ClockFaultsAre(j, r, x);
    SelfFaultsAre(r, x);
    ActiveIff(r.openParts);
  }

  // ---------------------------------------------------------------------------------------------
  // What is held against the input
  // ---------------------------------------------------------------------------------------------

  /** The floor is asked for: flashes and layers enough, on a board that has a microcontroller. */
  predicate FloorApplies(p: PackageFacts, axes: seq<string>) {
    && FlashesOf(p) >= 500 && (if p.copperClassified then p.copperLayers else p.gerberLayers) >= 2 && "no-mcu" !in axes
  }

  function FlashesOf(p: PackageFacts): nat {
    if p.copperClassified then p.apertureFlashes else p.totalFlashes
  }

  predicate FilmsHeld(f: InputFacts, axes: seq<string>, nets: int, x: Reason) {
    if !f.Films? || !f.package.readable then x == PackageUnreadable
    else
      match x
      case MoreNetsThanFlashes => FlashesOf(f.package) >= 500 && nets > FlashesOf(f.package)
      case Collapsed =>
        && FloorApplies(f.package, axes)
        && (nets < 2 || (f.package.apertureFlashes >= 6400 && nets < 32)
            || (f.package.apertureFlashes < 6400 && 200 * (nets + 1) <= f.package.apertureFlashes))
      case NoConnectivity => !FloorApplies(f.package, axes) && nets == 0
      case _ => false
  }

  lemma CopperFaultsAre(f: InputFacts, axes: seq<string>, nets: int, x: Reason)
    ensures x in CopperFaults(f, axes, nets) <==> FilmsHeld(f, axes, nets, x)
  {
    if f.Films? {
      FloorIs(f.package.apertureFlashes, nets);
    }
  }

  /** A listed part that the input does not have. */
  predicate ListsInvented(f: InputFacts, r: Report) {
    && f.Native? && f.references.Some? && r.listedParts.Some?
    && exists p :: p in r.listedParts.value && NamesPart(p) && BaseDesignator(p.value) !in f.references.value
  }

  predicate NamesInvented(f: InputFacts, r: Report) {
    && f.Native? && f.netNames.Some? && r.netNames.Some?
    && exists n :: n in r.netNames.value && n !in f.netNames.value
  }

  /** A part the input does not have, or less than half of its placements. */
  predicate PlacementHeld(f: InputFacts, r: Report, x: Reason) {
    && f.Native? && CountOf(f.placements) > 0
    && ((x == PartsInvented && ListsInvented(f, r))
        || (x == ExtractionCollapsed && (2 * r.components < CountOf(f.placements) || 2 * |PartsNamed(r)| < CountOf(f.placements))))
  }

  /** A net it does not have, more nets than it has, or less than half of them. */
  predicate NetHeld(f: InputFacts, r: Report, x: Reason) {
    && f.Native? && CountOf(f.declaredNets) > 0
    && ((x == NetsInvented && NamesInvented(f, r)) || (x == MoreNetsThanDeclared && f.exact && r.nets > CountOf(f.declaredNets))
        || (x == ConnectivityCollapsed && 2 * r.nets < CountOf(f.declaredNets)))
  }

  predicate LayoutHeld(format: string, f: InputFacts, r: Report, x: Reason) {
    || (x == NetlistTooSmall && format == "ipc_356" && r.nets < 2)
    || (x == NothingRecovered && !IsLayout(format) && r.components == 0 && r.nets == 0)
    || (IsLayout(format)
        && ((x == NothingExtracted && r.components == 0) || (x == LayoutTooSmall && r.nets < 2) || PlacementHeld(f, r, x)
            || NetHeld(f, r, x)))
  }

  lemma InventedIff(f: InputFacts, r: Report)
    ensures PartsKnown(f, r) <==> !ListsInvented(f, r)
    ensures NetsKnown(f, r) <==> !NamesInvented(f, r)
  {
    if r.listedParts.Some? {
      KnownIff(f, r);
    }
  }

  lemma RecoveredIs(r: Report, n: int)
    requires n > 0
    ensures 2 * Recovered(r) < n <==> 2 * r.components < n || 2 * |PartsNamed(r)| < n
  {
    if r.listedParts.Some? {
      PartsNamedIs(r);
    }
  }

  lemma PlacementFaultsAre(given: seq<Reason>, f: InputFacts, r: Report, x: Reason)
    ensures x in PlacementFaults(given, f, r) <==> x in given || PlacementHeld(f, r, x)
  {
    if PlacementsOf(f) > 0 {
      InventedIff(f, r);
      RecoveredIs(r, PlacementsOf(f));
      NotedHas(given, !PartsKnown(f, r), PartsInvented, x);
    }
  }

  lemma NetFaultsAre(given: seq<Reason>, f: InputFacts, r: Report, x: Reason)
    ensures x in NetFaults(given, f, r) <==> x in given || NetHeld(f, r, x)
  {
    InventedIff(f, r);
  }

  lemma UpToNetsAre(format: string, f: InputFacts, r: Report, x: Reason)
    ensures x in UpToNets(format, f, r) <==>
            || (x == NetlistTooSmall && format == "ipc_356" && r.nets < 2) || (x == NothingExtracted && r.components == 0)
            || (x == LayoutTooSmall && r.nets < 2) || PlacementHeld(f, r, x)
  {
    var first := Noted(Noted([], format in NETLISTS && r.nets < MIN_NETS_FOR_A_LAYOUT, NetlistTooSmall),
                       r.components == 0, NothingExtracted);
    PlacementFaultsAre(first, f, r, x);
  }

  lemma LayoutSteps(format: string, f: InputFacts, r: Report, before: seq<Reason>, x: Reason)
    requires before == UpToNets(format, f, r)
    ensures x in LayoutFaults(format, f, r) <==>
            if IsLayout(format) then x in NetFaults(before, f, r)
            else
              || (x == NetlistTooSmall && format == "ipc_356" && r.nets < 2)
              || (x == NothingRecovered && r.components == 0 && r.nets == 0)
  {
    assert format in PARTFUL <==> IsLayout(format);
  }

  lemma LayoutFaultsAre(format: string, f: InputFacts, r: Report, x: Reason)
    ensures x in LayoutFaults(format, f, r) <==> LayoutHeld(format, f, r, x)
  {
    var before := UpToNets(format, f, r);
    LayoutSteps(format, f, r, before, x);
    UpToNetsAre(format, f, r, x);
    NetFaultsAre(before, f, r, x);
  }

  // ---------------------------------------------------------------------------------------------
  // What is held against the binding and the firmware
  // ---------------------------------------------------------------------------------------------

  /** The open parts without a model, named, that no upload names, in order. */
  ghost function LeftUnnamed(w: Wording, r: Report, ps: seq<OpenPart>): seq<string> {
    if ps == [] then []
    else if LacksModel(ps[0]) && ps[0].reference != "" && !NamedByUpload(w, r, ps[0].reference)
    then [ps[0].reference] + LeftUnnamed(w, r, ps[1..])
    else LeftUnnamed(w, r, ps[1..])
  }

  lemma {:induction false} LeftUnnamedIs(w: Wording, r: Report, ps: seq<OpenPart>)
    ensures Uncovered(w, NonBlank(OpenRefs(ps)), ModelUnlocks(r)) == LeftUnnamed(w, r, ps)
  {
    if ps != [] {
      LeftUnnamedIs(w, r, ps[1..]);
      if LacksModel(ps[0]) {
        OpenFirst(ps);
        if ps[0].reference != "" {
          NamedIff(w, r, ps[0].reference);
          UncoveredFirst(w, ps[0].reference, NonBlank(OpenRefs(ps[1..])), ModelUnlocks(r));
        } else {
          assert NonBlank(OpenRefs(ps)) == NonBlank(OpenRefs(ps[1..]));
        }
      } else {
        assert OpenRefs(ps) == OpenRefs(ps[1..]);
      }
    }
  }

  lemma OpenFirst(ps: seq<OpenPart>)
    requires ps != [] && LacksModel(ps[0])
    ensures NonBlank(OpenRefs(ps)) ==
            (if ps[0].reference != "" then [ps[0].reference] else []) + NonBlank(OpenRefs(ps[1..]))
  {
    assert OpenRefs(ps)[1..] == OpenRefs(ps[1..]);
  }

  lemma UncoveredFirst(w: Wording, reference: string, rest: seq<string>, texts: seq<string>)
    ensures Uncovered(w, [reference] + rest, texts) ==
            (if NamedIn(w, texts, reference) then [] else [reference]) + Uncovered(w, rest, texts)
  {
    assert ([reference] + rest)[1..] == rest;
    assert NamedIn(w, texts, reference) <==> exists t :: t in texts && w.names(reference, t);
  }

  ghost predicate BindingHeld(w: Wording, format: string, r: Report, x: Reason) {
    if r.critical.None? && IsLayout(format) then x == NoBindingSummary
    else
      match x
      case UncoveredParts(ps) =>
        if LeftUnnamed(w, r, r.openParts) != [] then ps == LeftUnnamed(w, r, r.openParts)
        else
          && ps == ["(an unnamed open part)"] && (exists p :: p in r.openParts && LacksModel(p) && p.reference == "")
          && !exists t :: OffersModel(r, t)
      case UnnamedUnbound =>
        CriticalUnbound(r) && (forall p :: p in r.openParts ==> !LacksModel(p)) && !exists t :: OffersModel(r, t)
      case _ => false
  }

  lemma BindingFaultsAre(w: Wording, format: string, r: Report, x: Reason)
    ensures x in BindingFaults(w, format, r) <==> BindingHeld(w, format, r, x)
  {
    LeftUnnamedIs(w, r, r.openParts);
    OffersSome(r);
    OpenEmptyIff(r);
    if OpenRefs(r.openParts) == [] {
      assert Uncovered(w, NonBlank(OpenRefs(r.openParts)), ModelUnlocks(r)) == [];
    }
    assert format in PARTFUL <==> IsLayout(format);
  }

  /** What is wrong with a run that was to drive pins. */
  ghost predicate RunHeld(fw: Firmware, r: Report, x: string)
    requires fw.Staged?
  {
    if !RanAtAll(r) then x == "nothing co-simulated"
    else if r.cosim.value.seconds.None? || r.cosim.value.seconds.value <= 0.0 then x == "zero seconds"
    else
      || (x == "pins not rendered" && fw.pinsRendered == Some(false))
      || (x == "no pin driven" && !fw.pinActivity)
      || (x == "no analog verdict" && fw.pinActivity && r.cosim.value.analogValid.None?)
      || (x == "analog invalid" && fw.pinActivity && r.cosim.value.analogValid == Some(false) && !exists t :: OffersModel(r, t))
  }

  ghost predicate FirmwareHeld(fw: Firmware, r: Report, expectation: string, x: Reason) {
    && x.FirmwareFault?
    && if !fw.Staged? then x.what == "none staged"
       else if !fw.loaded then x.what == "never loaded"
       else if expectation == "load-only" && !RanAtAll(r) then
         (x.what == "image not described" && fw.detail == "") || (x.what == "no reason given" && r.statedRefusals == [])
       else RunHeld(fw, r, x.what)
  }

  lemma FirmwareFaultsAre(fw: Firmware, r: Report, expectation: string, x: Reason)
    ensures x in FirmwareFaults(fw, r, expectation) <==> FirmwareHeld(fw, r, expectation, x)
  {
    OffersSome(r);
  }

  // ---------------------------------------------------------------------------------------------
  // All of them
  // ---------------------------------------------------------------------------------------------

  /** The reasons given are exactly those that hold. */
  lemma ReasonsAre(w: Wording, j: Journey, r: Report, format: string, f: InputFacts, firmwareExpect: Option<string>, axes: seq<string>,
                   x: Reason)
    ensures x in Faults(w, j, r, format, f, firmwareExpect, axes) <==>
            || BasicHeld(j, r, x)
            || (if IsFilms(format) then FilmsHeld(f, axes, r.nets, x) else LayoutHeld(format, f, r, x) || BindingHeld(w, format, r, x))
            || (firmwareExpect.Some? && FirmwareHeld(j.firmware, r, firmwareExpect.value, x))
  {
    assert format in COPPER <==> IsFilms(format);
    BasicFaultsAre(j, r, x);
    CopperFaultsAre(f, axes, r.nets, x);
    LayoutFaultsAre(format, f, r, x);
    BindingFaultsAre(w, format, r, x);
    if firmwareExpect.Some? {
      FirmwareFaultsAre(j.firmware, r, firmwareExpect.value, x);
    }
  }
}
