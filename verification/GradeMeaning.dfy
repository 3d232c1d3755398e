/** What each grade means, on the fields of the journey, its report and the input's facts. */
module GradeMeaning {
  import opened Wrappers
  import Json
  import opened GerberFacts
  import opened NativeFacts
  import opened Unlocks
  import opened Grading

  // ---------------------------------------------------------------------------------------------
  // The journey and its report
  // ---------------------------------------------------------------------------------------------

  /** The live run started and its clock read more after than before. */
  predicate ClockAdvanced(j: Journey) {
    j.liveStarted && j.before.Some? && j.after.Some? && j.before.value < j.after.value
  }

  predicate TwoChecks(r: Report) {
    r.sections.Some? && |r.sections.value| >= 2
  }

  predicate AllDiffer(xs: seq<string>) {
    forall i, j :: 0 <= i < j < |xs| ==> xs[i] != xs[j]
  }

  /** Something other than white space. */
  predicate Marked(s: string) {
    exists c :: c in s && !Json.IsSpace(c)
  }

  /** A listed reference that says something. */
  predicate NamesPart(p: Option<string>) {
    p.Some? && Marked(p.value)
  }

  predicate PartsDiffer(listed: seq<Option<string>>) {
    forall i, j :: 0 <= i < j < |listed| && NamesPart(listed[i]) && NamesPart(listed[j]) ==> listed[i] != listed[j]
  }

  /** The report lists its parts and nets, names nothing twice, and counts what it lists. */
  predicate Inventoried(r: Report) {
    && r.listedParts.Some? && r.netNames.Some? && AllDiffer(r.netNames.value)
    && PartsDiffer(r.listedParts.value)
    && |r.listedParts.value| <= r.components && |r.netNames.value| >= r.nets
    && (r.sections.Some? ==>
          forall s :: s in r.sections.value ==> s.Section? && |s.title| > 0 && |s.verdict| > 0)
  }

  /** No more critical parts bound than there are, and no live part open where there is none. */
  predicate CriticalCounted(r: Report) {
    r.critical.Some? ==>
      && r.critical.value.0 <= r.critical.value.1
      && (r.critical.value.1 == 0 ==> forall p :: p in r.openParts ==> !p.activeIc)
  }

  predicate ReportSound(j: Journey, r: Report) {
    TwoChecks(r) && ClockAdvanced(j) && Inventoried(r) && CriticalCounted(r)
  }

  lemma {:induction false} StripMarked(s: string)
    ensures Strip(s) != "" <==> Marked(s)
  {
    if s != "" {
      if Json.IsSpace(s[0]) {
        StripMarked(s[1..]);
        assert s == [s[0]] + s[1..];
      } else if Json.IsSpace(s[|s| - 1]) {
        StripMarked(s[..|s| - 1]);
        assert s == s[..|s| - 1] + [s[|s| - 1]];
      } else {
        assert s[0] in s;
      }
    }
  }

  lemma DistinctIff(xs: seq<string>)
    ensures Distinct(xs) == |xs| <==> AllDiffer(xs)
  {
    if AllDiffer(xs) {
      AllCounted(xs);
    } else {
      var i, j :| 0 <= i < j < |xs| && xs[i] == xs[j];
      RepeatUncounted(xs, i, j);
    }
  }

  lemma {:induction false} AllCounted(xs: seq<string>)
    requires AllDiffer(xs)
    ensures |set x | x in xs| == |xs|
  {
    if xs != [] {
      var rest, last := xs[..|xs| - 1], xs[|xs| - 1];
      AllCounted(rest);
      assert (set x | x in xs) == (set x | x in rest) + {last};
      assert last !in rest;
    }
  }

  lemma {:induction false} NoMoreThanListed(xs: seq<string>)
    ensures |set x | x in xs| <= |xs|
  {
    if xs != [] {
      var rest, last := xs[..|xs| - 1], xs[|xs| - 1];
      NoMoreThanListed(rest);
      assert (set x | x in xs) == (set x | x in rest) + {last};
    }
  }

  lemma RepeatUncounted(xs: seq<string>, i: nat, j: nat)
    requires i < j < |xs| && xs[i] == xs[j]
    ensures |set x | x in xs| < |xs|
  {
    var rest := xs[..j] + xs[j + 1..];
    assert rest[i] == xs[i];
    forall x | x in xs
      ensures x in rest
    {
      var k :| 0 <= k < |xs| && xs[k] == x;
      assert k < j ==> rest[k] == x;
      assert k > j ==> rest[k - 1] == x;
    }
    NoMoreThanListed(rest);
    assert (set x | x in xs) == (set x | x in rest);
  }

  lemma ConsDiffer(x: string, xs: seq<string>)
    ensures AllDiffer([x] + xs) <==> AllDiffer(xs) && x !in xs
  {
    var all := [x] + xs;
    if AllDiffer(all) {
      forall i | 0 <= i < |xs|
        ensures xs[i] != x
      {
        assert all[0] == x && all[i + 1] == xs[i];
      }
      forall i, j | 0 <= i < j < |xs|
        ensures xs[i] != xs[j]
      {
        assert all[i + 1] == xs[i] && all[j + 1] == xs[j];
      }
    }
  }

  lemma ConsPartsDiffer(p: Option<string>, rest: seq<Option<string>>)
    ensures PartsDiffer([p] + rest) <==> PartsDiffer(rest) && (NamesPart(p) ==> p !in rest)
  {
    var all := [p] + rest;
    if PartsDiffer(all) {
      forall i | 0 <= i < |rest| && NamesPart(p)
        ensures rest[i] != p
      {
        assert all[0] == p && all[i + 1] == rest[i];
      }
      forall i, j | 0 <= i < j < |rest| && NamesPart(rest[i]) && NamesPart(rest[j])
        ensures rest[i] != rest[j]
      {
        assert all[i + 1] == rest[i] && all[j + 1] == rest[j];
      }
    }
  }

  /** The named parts are the listed references that say something. */
  lemma {:induction false} NamedIs(listed: seq<Option<string>>)
    ensures forall x :: x in NamedParts(listed) <==> Some(x) in listed && Marked(x)
    ensures AllDiffer(NamedParts(listed)) <==> PartsDiffer(listed)
  {
    if listed != [] {
      var p, rest := listed[0], listed[1..];
      NamedIs(rest);
      assert listed == [p] + rest;
      ConsPartsDiffer(p, rest);
      if p.Some? {
        StripMarked(p.value);
        ConsDiffer(p.value, NamedParts(rest));
      }
    }
  }

  lemma InventoriedIff(r: Report)
    ensures SelfConsistent(r) <==> Inventoried(r)
  {
    if r.listedParts.Some? && r.netNames.Some? {
      DistinctIff(r.netNames.value);
      NamedIs(r.listedParts.value);
      DistinctIff(NamedParts(r.listedParts.value));
    }
  }

  lemma {:induction false} ActiveIff(ps: seq<OpenPart>)
    ensures ActiveIcs(ps) == [] <==> forall p :: p in ps ==> !p.activeIc
  {
    if ps != [] {
      ActiveIff(ps[1..]);
      assert ps == [ps[0]] + ps[1..];
    }
  }

  lemma ReportSoundIff(j: Journey, r: Report)
    ensures BasicOk(j, r) <==> ReportSound(j, r)
  {
    InventoriedIff(r);
    ActiveIff(r.openParts);
  }

  // ---------------------------------------------------------------------------------------------
  // The input
  // ---------------------------------------------------------------------------------------------

  /**
    A readable package: with 500 flashes or more it has no more nets than those, and, made of two layers or
    more, no fewer than a floor.
   */
  predicate PackageBacksNets(f: InputFacts, axes: seq<string>, nets: int) {
    && f.Films? && f.package.readable
    && var p := f.package;
       var flashes := if p.copperClassified then p.apertureFlashes else p.totalFlashes;
       var layers := if p.copperClassified then p.copperLayers else p.gerberLayers;
       && (flashes >= 500 ==> nets <= flashes)
       && (if flashes >= 500 && layers >= 2 && "no-mcu" !in axes
           then
             && nets >= 2 && (p.apertureFlashes >= 6400 ==> nets >= 32)
             && (p.apertureFlashes < 6400 ==> 200 * (nets + 1) > p.apertureFlashes)
           else nets != 0)
  }

  lemma FloorIs(flashes: nat, nets: int)
    ensures nets >= Clamp(flashes) <==>
            nets >= 2 && (flashes >= 6400 ==> nets >= 32) && (flashes < 6400 ==> 200 * (nets + 1) > flashes)
  {
    var per := flashes / 200;
    assert 200 * per <= flashes < 200 * per + 200;
    if flashes >= 6400 {
      assert per >= 32;
    } else {
      assert per < 32;
    }
  }

  lemma PackageIff(f: InputFacts, axes: seq<string>, nets: int)
    ensures CopperOk(f, axes, nets) <==> PackageBacksNets(f, axes, nets)
  {
    if f.Films? {
      FloorIs(f.package.apertureFlashes, nets);
    }
  }

  /** How many placements, and nets, the input's own bytes were counted to have; 0 when they were not. */
  function CountOf(n: Option<int>): int {
    match n
    case Some(k) => k
    case None => 0
  }

  /** The distinct parts the report names, engine suffixes aside. */
  function PartsNamed(r: Report): set<string> {
    match r.listedParts
    case None => {}
    case Some(listed) => set p | p in listed && NamesPart(p) :: BaseDesignator(Strip(p.value))
  }

  /** Half the placements at least, and no part the input does not have. */
  predicate PlacementsRecovered(f: InputFacts, r: Report) {
    f.Native? && CountOf(f.placements) > 0 ==>
      && 2 * r.components >= CountOf(f.placements) && 2 * |PartsNamed(r)| >= CountOf(f.placements)
      && (f.references.Some? && r.listedParts.Some? ==>
            forall p :: p in r.listedParts.value && NamesPart(p) ==> BaseDesignator(p.value) in f.references.value)
  }

  /** Half the nets at least, no more where they could be counted exactly, and none the input does not have. */
  predicate NetsRecovered(f: InputFacts, r: Report) {
    f.Native? && CountOf(f.declaredNets) > 0 ==>
      && 2 * r.nets >= CountOf(f.declaredNets) && (f.exact ==> r.nets <= CountOf(f.declaredNets))
      && (f.netNames.Some? && r.netNames.Some? ==> forall n :: n in r.netNames.value ==> n in f.netNames.value)
  }

  predicate IsLayout(format: string) {
    || format == "kicad_pcb" || format == "kicad_sch" || format == "eagle_brd" || format == "altium_pcbdoc"
    || format == "ipc_2581" || format == "odb_archive"
  }

  predicate IsFilms(format: string) {
    format == "gerber_archive" || format == "gerber_bundle"
  }

  predicate InputRecovered(format: string, f: InputFacts, r: Report) {
    && (IsLayout(format) ==> r.components != 0 && r.nets >= 2 && PlacementsRecovered(f, r) && NetsRecovered(f, r))
    && (!IsLayout(format) ==> r.components != 0 || r.nets != 0)
    && (format == "ipc_356" ==> r.nets >= 2)
  }

  lemma PartsNamedIs(r: Report)
    requires r.listedParts.Some?
    ensures DistinctBases(NamedParts(r.listedParts.value)) == PartsNamed(r)
  {
    var listed := r.listedParts.value;
    NamedIs(listed);
    forall x
      ensures x in NamedParts(listed) && Strip(x) != "" <==> Some(x) in listed && NamesPart(Some(x))
    {
      StripMarked(x);
    }
    forall b | b in DistinctBases(NamedParts(listed))
      ensures b in PartsNamed(r)
    {
      var x :| x in NamedParts(listed) && Strip(x) != "" && BaseDesignator(Strip(x)) == b;
      assert Some(x) in listed && NamesPart(Some(x));
    }
  }

  lemma PlacementsIff(f: InputFacts, r: Report)
    ensures (PlacementsOf(f) > 0 ==> PartsKnown(f, r) && 2 * Recovered(r) >= PlacementsOf(f)) <==> PlacementsRecovered(f, r)
  {
    if r.listedParts.Some? {
      PartsNamedIs(r);
      NamedIs(r.listedParts.value);
      KnownIff(f, r);
    }
  }

  lemma KnownIff(f: InputFacts, r: Report)
    requires r.listedParts.Some?
    ensures PartsKnown(f, r) <==>
            (f.Native? && f.references.Some? ==>
               forall p :: p in r.listedParts.value && NamesPart(p) ==> BaseDesignator(p.value) in f.references.value)
  {
    NamedIs(r.listedParts.value);
    if f.Native? && f.references.Some? {
      if PartsKnown(f, r) {
        forall p | p in r.listedParts.value && NamesPart(p)
          ensures BaseDesignator(p.value) in f.references.value
        {
          assert p.value in NamedParts(r.listedParts.value);
        }
      } else {
        var x :| x in NamedParts(r.listedParts.value) && BaseDesignator(x) !in f.references.value;
        assert Some(x) in r.listedParts.value && NamesPart(Some(x));
      }
    }
  }

  lemma InputIff(format: string, f: InputFacts, r: Report)
    ensures LayoutOk(format, f, r) <==> InputRecovered(format, f, r)
  {
    PlacementsIff(f, r);
    NetsIff(f, r);
    assert format in PARTFUL <==> IsLayout(format);
  }

  lemma NetsIff(f: InputFacts, r: Report)
    ensures (DeclaredOf(f) > 0 ==> NetsKnown(f, r) && (ExactOf(f) ==> r.nets <= DeclaredOf(f)) && r.nets >= (DeclaredOf(f) + 1) / 2)
            <==> NetsRecovered(f, r)
  {
  }

  // ---------------------------------------------------------------------------------------------
  // The binding
  // ---------------------------------------------------------------------------------------------

  /** The report offers the sentence, for an assumption about a model. */
  predicate OffersModel(r: Report, t: string) {
    t != "" && exists a :: a in r.assumptions && (a.kind == "open_part" || a.kind == "inferred_pin_role") && a.replacement == t
  }

  predicate Offers(r: Report, t: string) {
    t != "" && exists a :: a in r.assumptions && a.replacement == t
  }

  predicate LacksModel(p: OpenPart) {
    !p.bound
  }

  /** A critical part is not bound. */
  predicate CriticalUnbound(r: Report) {
    r.critical.Some? && r.critical.value.0 < r.critical.value.1
  }

  /** Some upload the report offers names the part. */
  ghost predicate NamedByUpload(w: Wording, r: Report, reference: string) {
    exists t :: OffersModel(r, t) && w.names(reference, t)
  }

  /**
    What is left open can be closed: each part without a model is named by an upload, and an unnamed one, or
    a critical part, by some.
   */
  ghost predicate BindingActionable(w: Wording, format: string, r: Report) {
    && (r.critical.None? ==> !IsLayout(format))
    && (forall p :: p in r.openParts && LacksModel(p) && p.reference != "" ==> NamedByUpload(w, r, p.reference))
    && ((exists p :: p in r.openParts && LacksModel(p) && p.reference == "") ==> exists t :: OffersModel(r, t))
    && (CriticalUnbound(r) && (forall p :: p in r.openParts ==> !LacksModel(p)) ==> exists t :: OffersModel(r, t))
  }

  lemma {:induction false} UnlocksAre(found: seq<string>, as_: seq<Assumption>, kinds: Option<set<string>>)
    ensures forall t :: t in UnlocksOf(found, as_, kinds) <==>
              t in found || (t != "" && exists a :: a in as_ && (kinds.Some? ==> a.kind in kinds.value) && a.replacement == t)
    decreases |as_|
  {
    if as_ != [] {
      var a := as_[0];
      var wanted := (kinds.Some? ==> a.kind in kinds.value) && a.replacement != "" && a.replacement !in found;
      var found' := if wanted then found + [a.replacement] else found;
      UnlocksAre(found', as_[1..], kinds);
      assert as_ == [a] + as_[1..];
      forall t
        ensures t in UnlocksOf(found, as_, kinds) <==>
                t in found || (t != "" && exists b :: b in as_ && (kinds.Some? ==> b.kind in kinds.value) && b.replacement == t)
      {
        assert t in found' <==> t in found || (t == a.replacement && t != "" && (kinds.Some? ==> a.kind in kinds.value));
      }
    }
  }

  lemma ModelUnlocksAre(r: Report)
    ensures forall t :: t in ModelUnlocks(r) <==> OffersModel(r, t)
  {
    UnlocksAre([], r.assumptions, Some(MODEL_KINDS));
  }

  /** The references without a model, the blank ones apart. */
  lemma {:induction false} OpenRefsAre(ps: seq<OpenPart>)
    ensures forall x :: x in OpenRefs(ps) <==> exists p :: p in ps && LacksModel(p) && p.reference == x
  {
    if ps != [] {
      OpenRefsAre(ps[1..]);
      assert ps == [ps[0]] + ps[1..];
    }
  }

  lemma {:induction false} NonBlankAre(refs: seq<string>)
    ensures forall x :: x in NonBlank(refs) <==> x in refs && x != ""
    ensures |NonBlank(refs)| <= |refs| && (|NonBlank(refs)| < |refs| <==> "" in refs)
  {
    if refs != [] {
      NonBlankAre(refs[1..]);
      assert refs == [refs[0]] + refs[1..];
    }
  }

  predicate NamedIn(w: Wording, texts: seq<string>, reference: string) {
    exists t :: t in texts && w.names(reference, t)
  }

  lemma {:induction false} UncoveredAre(w: Wording, refs: seq<string>, texts: seq<string>)
    ensures Uncovered(w, refs, texts) == [] <==> forall x :: x in refs ==> NamedIn(w, texts, x)
  {
    if refs != [] {
      UncoveredAre(w, refs[1..], texts);
      assert refs == [refs[0]] + refs[1..];
      assert NamedIn(w, texts, refs[0]) <==> exists t :: t in texts && w.names(refs[0], t);
    }
  }

  lemma NamedIff(w: Wording, r: Report, reference: string)
    ensures NamedIn(w, ModelUnlocks(r), reference) <==> NamedByUpload(w, r, reference)
  {
    ModelUnlocksAre(r);
  }

  lemma CoveredIff(w: Wording, r: Report)
    ensures Uncovered(w, NonBlank(OpenRefs(r.openParts)), ModelUnlocks(r)) == [] <==>
            forall p :: p in r.openParts && LacksModel(p) && p.reference != "" ==> NamedByUpload(w, r, p.reference)
  {
    var open, model := OpenRefs(r.openParts), ModelUnlocks(r);
    OpenRefsAre(r.openParts);
    NonBlankAre(open);
    UncoveredAre(w, NonBlank(open), model);
    forall p | p in r.openParts && LacksModel(p) && p.reference != ""
      ensures p.reference in NonBlank(open)
      ensures NamedIn(w, model, p.reference) <==> NamedByUpload(w, r, p.reference)
    {
      NamedIff(w, r, p.reference);
    }
    forall x | x in NonBlank(open)
      ensures exists p :: p in r.openParts && LacksModel(p) && p.reference != "" && p.reference == x
    {
      var p :| p in r.openParts && LacksModel(p) && p.reference == x;
    }
  }

  lemma OffersSome(r: Report)
    ensures ModelUnlocks(r) != [] <==> exists t :: OffersModel(r, t)
  {
    ModelUnlocksAre(r);
    if ModelUnlocks(r) != [] {
      assert ModelUnlocks(r)[0] in ModelUnlocks(r);
    }
  }

  lemma OpenEmptyIff(r: Report)
    ensures OpenRefs(r.openParts) == [] <==> forall p :: p in r.openParts ==> !LacksModel(p)
    ensures |NonBlank(OpenRefs(r.openParts))| < |OpenRefs(r.openParts)| <==>
            exists p :: p in r.openParts && LacksModel(p) && p.reference == ""
  {
    OpenRefsAre(r.openParts);
    NonBlankAre(OpenRefs(r.openParts));
    if OpenRefs(r.openParts) != [] {
      assert OpenRefs(r.openParts)[0] in OpenRefs(r.openParts);
    }
    if p :| p in r.openParts && LacksModel(p) {
      assert p.reference in OpenRefs(r.openParts);
    }
  }

  lemma BindingIff(w: Wording, format: string, r: Report)
    ensures BindingOk(w, format, r) <==> BindingActionable(w, format, r)
  {
    CoveredIff(w, r);
    OffersSome(r);
    OpenEmptyIff(r);
    assert format in PARTFUL <==> IsLayout(format);
  }

  // ---------------------------------------------------------------------------------------------
  // The firmware
  // ---------------------------------------------------------------------------------------------

  /**
    The image was loaded; expected not to run and not run, it says what it is and why not; else it ran and
    drove pins, and was judged.
   */
  ghost predicate FirmwareSound(fw: Firmware, r: Report, expectation: string) {
    && fw.Staged? && fw.loaded
    && (expectation == "load-only" && !RanAtAll(r) ==> fw.detail != "" && r.statedRefusals != [])
    && (expectation != "load-only" || RanAtAll(r) ==> RanAtAll(r) && DrovePins(fw, r.cosim.value) && Judged(r, r.cosim.value))
  }

  predicate RanAtAll(r: Report) {
    r.cosim.Some? && r.cosim.value.ran
  }

  predicate DrovePins(fw: Firmware, c: Cosim) {
    c.seconds.Some? && c.seconds.value > 0.0 && fw.Staged? && fw.pinActivity && fw.pinsRendered != Some(false)
  }

  /** Its analog answers hold, or an upload would make them. */
  ghost predicate Judged(r: Report, c: Cosim) {
    c.analogValid == Some(true) || (c.analogValid == Some(false) && exists t :: OffersModel(r, t))
  }

  lemma FirmwareIff(fw: Firmware, r: Report, expectation: string)
    ensures FirmwareOk(fw, r, expectation) <==> FirmwareSound(fw, r, expectation)
  {
    OffersSome(r);
    if r.cosim.Some? {
      assert Judged(r, r.cosim.value) <==>
             r.cosim.value.analogValid.Some? && (!r.cosim.value.analogValid.value ==> ModelUnlocks(r) != []);
    }
  }

  // ---------------------------------------------------------------------------------------------
  // The grades
  // ---------------------------------------------------------------------------------------------

  /** Nothing is held against the board. */
  ghost predicate Good(w: Wording, j: Journey, r: Report, format: string, f: InputFacts, firmwareExpect: Option<string>,
                       axes: seq<string>)
  {
    && ReportSound(j, r)
    && (IsFilms(format) ==> PackageBacksNets(f, axes, r.nets))
    && (!IsFilms(format) ==> InputRecovered(format, f, r) && BindingActionable(w, format, r))
    && (firmwareExpect.Some? ==> FirmwareSound(j.firmware, r, firmwareExpect.value))
  }

  /** Parts or nets of the input's own bytes could be counted. */
  predicate Anchored(format: string, f: InputFacts) {
    IsLayout(format) && f.Native? && (CountOf(f.placements) > 0 || (CountOf(f.declaredNets) > 0 && f.exact))
  }

  /**
    Something a bench would miss: films alone, an open part, an unbound one, nothing counted, or firmware
    that did not run or solve.
   */
  ghost predicate Wanting(r: Report, format: string, f: InputFacts, firmwareExpect: Option<string>) {
    || IsFilms(format)
    || r.openParts != [] || CriticalUnbound(r) || !Anchored(format, f)
    || (firmwareExpect == Some("load-only") && !RanAtAll(r))
    || (firmwareExpect.Some? && RanAtAll(r) && r.cosim.value.analogValid == Some(false))
  }

  lemma WantingIff(r: Report, format: string, f: InputFacts, firmwareExpect: Option<string>)
    ensures Short(r, format, f, firmwareExpect) <==> Wanting(r, format, f, firmwareExpect)
  {
    OpenOrResolved(r.openParts);
    assert format in PARTFUL <==> IsLayout(format);
    assert format in COPPER <==> IsFilms(format);
  }

  lemma GoodIff(w: Wording, j: Journey, r: Report, format: string, f: InputFacts, firmwareExpect: Option<string>, axes: seq<string>)
    ensures Passes(w, j, r, format, f, firmwareExpect, axes) <==> Good(w, j, r, format, f, firmwareExpect, axes)
  {
    ReportSoundIff(j, r);
    PackageIff(f, axes, r.nets);
    InputIff(format, f, r);
    BindingIff(w, format, r);
    if firmwareExpect.Some? {
      FirmwareIff(j.firmware, r, firmwareExpect.value);
    }
    assert format in COPPER <==> IsFilms(format);
  }

  // ---------------------------------------------------------------------------------------------
  // The facts themselves
  // ---------------------------------------------------------------------------------------------

  predicate CountsOwn(format: string) {
    format == "kicad_pcb" || format == "eagle_brd"
  }

  /**
    What is taken from the bytes of a layout: the placements; its nets, by ids where there are any but 0
    and otherwise by names, which is the one count that is not exact; the nets' names for Eagle; and the
    designators, where as many records carry one as there are placements.
   */
  lemma FactsAre(format: string, members: seq<Option<Member>>, s: NativeScan)
    requires CountsOwn(format)
    ensures var f, ids := FactsFor(format, members, Some(s)), (set i | i in s.netIds) - {"0"};
            var carrying := CarryingRecords(s, |s.records|);
            && f.Native? && f.placements == Some(s.placements)
            && f.declaredNets == Some(if format == "kicad_pcb" && ids != {} then |ids| else |(set n | n in s.netNames) - {""}|)
            && (f.exact <==> format == "eagle_brd" || ids != {})
            && (f.netNames.Some? <==> format == "eagle_brd" && s.netNames != [])
            && (f.netNames.Some? ==> forall x :: x in f.netNames.value <==> exists n :: n in s.netNames && s.decode(n) == x)
            && (f.references.Some? <==> s.placements > 0 && |carrying| == s.placements)
            && (f.references.Some? ==>
                  forall x :: x in f.references.value <==>
                    exists i, t :: 0 <= i < |s.records| && Carries(s.records[i], t) && s.decode(t) == x)
  {
    assert format !in COPPER;
    assert NetIds(s) == (set i | i in s.netIds) - {"0"};
    assert (set n | n in s.netNames && n != "") == (set n | n in s.netNames) - {""};
    NetNamesIff(format, s);
    NamedRecordsCount(s, |s.records|);
    forall x
      ensures x in Designators(s, |s.records|) <==>
              exists i, t :: 0 <= i < |s.records| && Carries(s.records[i], t) && s.decode(t) == x
    {
      DesignatorsIff(s, |s.records|, x);
    }
  }

  /** Where the bytes cannot be read, or the format has no patterns, nothing is counted and nothing held against the report for it. */
  lemma NoFacts(format: string, members: seq<Option<Member>>, scan: Option<NativeScan>, r: Report)
    requires !IsFilms(format) && (scan.None? || !CountsOwn(format))
    ensures var f := FactsFor(format, members, scan);
            && f == Native(None, None, true, None, None)
            && (InputRecovered(format, f, r) <==>
                  && (IsLayout(format) ==> r.components != 0 && r.nets >= 2)
                  && (!IsLayout(format) ==> r.components != 0 || r.nets != 0)
                  && (format == "ipc_356" ==> r.nets >= 2))
  {
    assert format !in COPPER;
  }

  /**
    A journey with a report is failed exactly when something is held against it, and of the others
    exactly those that want nothing a bench would miss are delivered.
   */
  lemma GradeIs(w: Wording, j: Journey, r: Report, format: string, f: InputFacts, firmwareExpect: Option<string>, axes: seq<string>)
    ensures var verdict := VerdictFor(w, j, r, format, f, firmwareExpect, axes);
            && (verdict == Failed <==> !Good(w, j, r, format, f, firmwareExpect, axes))
            && (verdict == Degraded <==> Good(w, j, r, format, f, firmwareExpect, axes) && Wanting(r, format, f, firmwareExpect))
            && (verdict == Delivered <==> Good(w, j, r, format, f, firmwareExpect, axes) && !Wanting(r, format, f, firmwareExpect))
  {
    GoodIff(w, j, r, format, f, firmwareExpect, axes);
    WantingIff(r, format, f, firmwareExpect);
  }

  /** A clock that did not advance fails the board, whatever else it did. */
  lemma StillClockFails(w: Wording, j: Journey, r: Report, format: string, f: InputFacts, firmwareExpect: Option<string>,
                        axes: seq<string>)
    requires j.before.None? || j.after.None? || !j.liveStarted || j.after.value <= j.before.value
    ensures VerdictFor(w, j, r, format, f, firmwareExpect, axes) == Failed
  {
    GradeIs(w, j, r, format, f, firmwareExpect, axes);
  }

  // ---------------------------------------------------------------------------------------------
  // What the grade offers and discloses
  // ---------------------------------------------------------------------------------------------

  /** What the report offers about the reader of its films. */
  predicate OffersReader(r: Report, t: string) {
    t != "" && exists a :: a in r.assumptions && a.kind == "reduced_fidelity" && a.replacement == t
  }

  /** The instruction for undriven parts names each open part that does have a model, in order. */
  function UndrivenOf(ps: seq<OpenPart>): seq<string> {
    if ps == [] then []
    else if LacksModel(ps[0]) then UndrivenOf(ps[1..])
    else [if ps[0].reference != "" then ps[0].reference else "(unnamed)"] + UndrivenOf(ps[1..])
  }

  lemma {:induction false} UndrivenIs(ps: seq<OpenPart>)
    ensures ResolvedOpen(ps) == UndrivenOf(ps)
  {
    if ps != [] {
      UndrivenIs(ps[1..]);
    }
  }

  lemma {:induction false} UndrivenSome(ps: seq<OpenPart>)
    ensures UndrivenOf(ps) != [] <==> exists p :: p in ps && !LacksModel(p)
  {
    if ps != [] {
      UndrivenSome(ps[1..]);
      assert ps == [ps[0]] + ps[1..];
    }
  }

  /** The sentences of a package of films: its reader's, or the one that asks for the layout. */
  lemma FilmsAreOffered(w: Wording, r: Report, format: string, f: InputFacts)
    requires IsFilms(format)
    ensures forall t :: t in InputUnlocks(w, r, format, f) <==>
              if exists u :: OffersReader(r, u) then OffersReader(r, t) else t == STRUCTURAL_UNLOCK
  {
    var reader := UnlocksOf([], r.assumptions, Some(READER_KINDS));
    UnlocksAre([], r.assumptions, Some(READER_KINDS));
    forall t
      ensures t in reader <==> OffersReader(r, t)
    {
    }
    if reader != [] {
      assert reader[0] in reader;
    }
    assert format in COPPER;
  }

  ghost predicate OffersPins(w: Wording, r: Report, t: string) {
    t == w.openPins(UndrivenOf(r.openParts)) && exists p :: p in r.openParts && !LacksModel(p)
  }

  lemma BindingIsOffered(w: Wording, format: string, r: Report, given: seq<string>, t: string)
    requires t in given <==> Offers(r, t)
    requires t in ModelUnlocks(r) ==> Offers(r, t)
    ensures t in BindingUnlocks(w, format, r, given) <==>
            Offers(r, t) || (OffersPins(w, r, t) && !(r.critical.None? && format in PARTFUL))
  {
    UndrivenIs(r.openParts);
    UndrivenSome(r.openParts);
    var resolved := ResolvedOpen(r.openParts);
    MergeKeepsAll([w.openPins(resolved)], given);
    var driven := if resolved != [] then Merge([w.openPins(resolved)], given) else given;
    MergeKeepsAll(ModelUnlocks(r), driven);
  }

  /** The sentences of any other input: all the report offers, the one for undriven parts, and the one that asks for a count. */
  lemma LayoutIsOffered(w: Wording, r: Report, format: string, f: InputFacts)
    requires !IsFilms(format)
    ensures forall t :: t in InputUnlocks(w, r, format, f) <==>
              || Offers(r, t)
              || (OffersPins(w, r, t) && !(r.critical.None? && IsLayout(format)))
              || (t == UNANCHORED_UNLOCK && !Anchored(format, f))
  {
    var given := UnlocksOf([], r.assumptions, None);
    UnlocksAre([], r.assumptions, None);
    ModelUnlocksAre(r);
    assert format in PARTFUL <==> IsLayout(format);
    assert format !in COPPER;
    forall t
      ensures t in BindingUnlocks(w, format, r, given) <==>
              Offers(r, t) || (OffersPins(w, r, t) && !(r.critical.None? && format in PARTFUL))
    {
      BindingIsOffered(w, format, r, given, t);
    }
    assert Anchored(format, f) <==> !Unanchored(format, f);
  }

  /** What is disclosed as checked against the input's own bytes. */
  lemma SignalsAre(r: Report, format: string, f: InputFacts)
    ensures var s := SignalsOf(r, format, f);
            if IsFilms(format) then s == Signals(None, None, false, false)
            else
              && (s.placementVerified == Some(true) <==> IsLayout(format) && f.Native? && CountOf(f.placements) > 0)
              && (s.netVerified == Some(true) <==> IsLayout(format) && f.Native? && CountOf(f.declaredNets) > 0 && f.exact)
              && s.placementVerified.Some? && s.netVerified.Some?
              && (s.netIdentity <==> IsLayout(format) && f.Native? && CountOf(f.declaredNets) > 0 && f.netNames.Some?)
              && (s.bindingUnverified <==> r.critical.None? || forall p :: p in r.openParts ==> !LacksModel(p))
  {
    OpenEmptyIff(r);
    assert format in PARTFUL <==> IsLayout(format);
    assert format in COPPER <==> IsFilms(format);
  }

  /** What firmware adds: why it did not run where it was not expected to, or the uploads that would make its analog answers hold. */
  ghost predicate FirmwareOffers(fw: Firmware, r: Report, expectation: string, t: string) {
    && fw.Staged? && fw.loaded
    && if expectation == "load-only" && !RanAtAll(r) then t in r.statedRefusals
       else
         && RanAtAll(r) && r.cosim.value.seconds.Some? && r.cosim.value.seconds.value > 0.0 && fw.pinActivity
         && r.cosim.value.analogValid == Some(false) && OffersModel(r, t)
  }

  lemma {:induction false} LackingAre(extra: seq<string>, texts: seq<string>)
    ensures forall t :: t in Lacking(extra, texts) <==> t in extra && t !in texts
  {
    if extra != [] {
      LackingAre(extra[1..], texts);
      assert extra == [extra[0]] + extra[1..];
    }
  }

  /** All that is offered: what the input leaves to be supplied, and what the firmware does. */
  lemma FirmwareIsOffered(w: Wording, j: Journey, r: Report, format: string, f: InputFacts, firmwareExpect: Option<string>)
    ensures forall t :: t in AllUnlocks(w, j, r, format, f, firmwareExpect) <==>
              || t in InputUnlocks(w, r, format, f)
              || (firmwareExpect.Some? && FirmwareOffers(j.firmware, r, firmwareExpect.value, t))
  {
    ModelUnlocksAre(r);
    if firmwareExpect.Some? {
      LackingAre(FirmwareExtra(j.firmware, r, firmwareExpect.value), InputUnlocks(w, r, format, f));
    }
  }
}
