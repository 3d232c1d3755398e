/** What the static board is read by: which part a transistor came from, which pads have a role, which id is free. */
module StaticMeaning {
  import opened Wrappers
  import opened Text
  import opened StaticBoard
  import opened PinRoles

  // ---------------------------------------------------------------------------------------------
  // The part of a transistor
  // ---------------------------------------------------------------------------------------------

  /** The last component of that reference. */
  ghost predicate LastOf(cs: seq<Component>, reference: string, i: nat) {
    i < |cs| && cs[i].reference == reference && forall j :: i < j < |cs| ==> cs[j].reference != reference
  }

  lemma {:induction false} IndexIff(cs: seq<Component>, reference: string)
    ensures forall i: nat :: IndexOf(cs, reference) == Some(i) <==> LastOf(cs, reference, i)
    ensures IndexOf(cs, reference).None? <==> forall c :: c in cs ==> c.reference != reference
  {
    if cs != [] && cs[|cs| - 1].reference != reference {
      var rest := cs[..|cs| - 1];
      IndexIff(rest, reference);
      forall i: nat
        ensures LastOf(cs, reference, i) <==> LastOf(rest, reference, i)
      {
      }
      assert cs == rest + [cs[|cs| - 1]];
    } else if cs != [] {
      assert LastOf(cs, reference, |cs| - 1);
      assert forall i: nat :: LastOf(cs, reference, i) ==> i == |cs| - 1;
    }
  }

  /** A unit's number: digits only, and at least one. */
  predicate IsUnit(s: string) {
    s != "" && forall c :: c in s ==> c in "0123456789"
  }

  lemma UnitIff(s: string)
    ensures IsUnit(s) <==> s != "" && Digits(s)
  {
    forall c: char
      ensures c in "0123456789" <==> '0' <= c <= '9'
    {
      var digits := "0123456789";
      if '0' <= c <= '9' {
        assert digits[c as int - '0' as int] == c;
      }
    }
  }

  /** A mark with nothing but a unit's number behind it is the last one. */
  lemma {:induction false} LastMarkIs(s: string, k: nat, at: nat)
    requires at <= k <= |s| && StartsWith(s[at..], "_q") && forall m :: at < m <= k ==> !StartsWith(s[m..], "_q")
    ensures LastUnitMark(s, k) == Some(at)
  {
    if k > at {
      LastMarkIs(s, k - 1, at);
    }
  }

  lemma MarkBeforeUnit(reference: string, unit: string)
    requires IsUnit(unit)
    ensures var s := reference + "_q" + unit;
            LastUnitMark(s, |s|) == Some(|reference|) && s[..|reference|] == reference && s[|reference| + 2..] == unit
  {
    var s, at := reference + "_q" + unit, |reference|;
    assert s[at..] == "_q" + unit;
    UnitIff(unit);
    forall m | at < m <= |s|
      ensures !StartsWith(s[m..], "_q")
    {
      if m < |s| {
        assert s[m..][0] == s[m];
        if m > at + 1 {
          assert s[m] == unit[m - at - 2] && unit[m - at - 2] in unit;
        }
      }
    }
    LastMarkIs(s, |s|, at);
  }

  lemma StartsSplit(t: string, prefix: string)
    requires StartsWith(t, prefix)
    ensures t == prefix + t[|prefix|..]
  {
  }

  lemma MarkSplits(s: string, k: nat)
    requires k <= |s| && StartsWith(s[k..], "_q")
    ensures k + 2 <= |s| && s == s[..k] + "_q" + s[k + 2..]
  {
    var tail := s[k..];
    StartsSplit(tail, "_q");
    assert tail[2..] == s[k + 2..];
    assert s == s[..k] + tail;
  }

  /** The device is that unit of the component. */
  ghost predicate UnitOf(cs: seq<Component>, device: string, i: nat, suffix: string) {
    && i < |cs| && LastOf(cs, cs[i].reference, i) && device == cs[i].reference + suffix
    && exists unit :: IsUnit(unit) && suffix == "_q" + unit
  }

  lemma UnitOwned(cs: seq<Component>, device: string, i: nat, suffix: string)
    requires UnitOf(cs, device, i, suffix) && forall c :: c in cs ==> c.reference != device
    ensures Owner(cs, device) == Some((i, suffix))
  {
    var unit :| IsUnit(unit) && suffix == "_q" + unit;
    var reference := cs[i].reference;
    assert device == reference + "_q" + unit;
    MarkBeforeUnit(reference, unit);
    UnitIff(unit);
    IndexIff(cs, device);
    IndexIff(cs, reference);
  }

  lemma OwnedUnit(cs: seq<Component>, device: string)
    requires Owner(cs, device).Some? && forall c :: c in cs ==> c.reference != device
    ensures UnitOf(cs, device, Owner(cs, device).value.0, Owner(cs, device).value.1)
  {
    IndexIff(cs, device);
    var k := LastUnitMark(device, |device|).value;
    MarkSplits(device, k);
    IndexIff(cs, device[..k]);
    UnitIff(device[k + 2..]);
    assert device == device[..k] + ("_q" + device[k + 2..]);
  }

  /**
    A transistor comes from the component of its own name, the last listed where several have it; else it is
    the unit of that number of the component named before `_q`; else it comes from none.
   */
  lemma OwnerIff(cs: seq<Component>, device: string, i: nat, suffix: string)
    ensures Owner(cs, device) == Some((i, suffix)) <==>
            if exists c :: c in cs && c.reference == device then LastOf(cs, device, i) && suffix == ""
            else UnitOf(cs, device, i, suffix)
  {
    IndexIff(cs, device);
    if forall c :: c in cs ==> c.reference != device {
      if Owner(cs, device).Some? {
        OwnedUnit(cs, device);
      }
      if UnitOf(cs, device, i, suffix) {
        UnitOwned(cs, device, i, suffix);
      }
    }
  }

  /** What is listed for a terminal without a pad: the name of its component, or of its device where it has none. */
  lemma PartIs(b: Extracted, t: FloatedTerminal)
    ensures PartOf(b, t) == t.device || exists unit :: IsUnit(unit) && t.device == PartOf(b, t) + "_q" + unit
    ensures Owner(b.components, t.device).Some? ==> exists c :: c in b.components && c.reference == PartOf(b, t)
    ensures Owner(b.components, t.device).None? ==> PartOf(b, t) == t.device
  {
    if Owner(b.components, t.device).Some? {
      var (i, suffix) := Owner(b.components, t.device).value;
      OwnerIff(b.components, t.device, i, suffix);
      assert b.components[i] in b.components;
      if suffix != "" {
        var unit :| IsUnit(unit) && suffix == "_q" + unit;
        assert t.device == PartOf(b, t) + "_q" + unit;
      }
    }
  }

  // ---------------------------------------------------------------------------------------------
  // The pads of a role
  // ---------------------------------------------------------------------------------------------

  /** The part the naming sources are asked about. */
  predicate Describes(p: Part, c: Component) {
    && p.reference == c.reference && p.value == c.value && p.libId == c.libId && |p.numbers| == |c.pins|
    && forall i :: 0 <= i < |c.pins| ==> p.numbers[i] == c.pins[i].number
  }

  lemma DescribedPart(p: Part, c: Component)
    requires Describes(p, c)
    ensures p == PartOfComponent(c)
  {
    assert p.numbers == PartOfComponent(c).numbers;
  }

  /** The first of the five sources that names the pin calls it that. */
  predicate OwnIs(rd: Reading, p: Part, i: nat, role: string) {
    exists k: nat :: k < 5 && rd.source(p, i, k) == Some(role) && forall j: nat :: j < k ==> rd.source(p, i, j).None?
  }

  /** The source calls the pin that; the last source is heard only where none of the others names it. */
  predicate CalledBy(rd: Reading, p: Part, i: nat, k: nat, role: string) {
    rd.source(p, i, k) == Some(role) && (k == 4 ==> forall j: nat :: j < 4 ==> rd.source(p, i, j).None?)
  }

  predicate OnNet(c: Component, i: nat) {
    i < |c.pins| && c.pins[i].net.Some? && c.pins[i].net.value >= 1
  }

  /** No pin before `i` that is on a net is called that by the source. */
  predicate NoneBefore(rd: Reading, p: Part, c: Component, k: nat, i: nat, role: string) {
    forall j: nat :: j < i && OnNet(c, j) ==> !CalledBy(rd, p, j, k, role)
  }

  /** The pin binds the role: the first on a net that the first source to give the role to any such pin gives it to. */
  predicate Binds(rd: Reading, p: Part, c: Component, role: string, b: nat) {
    exists k: nat :: k < 5 && BindsBy(rd, p, c, role, b, k)
  }

  predicate BindsBy(rd: Reading, p: Part, c: Component, role: string, b: nat, k: nat) {
    && OnNet(c, b) && CalledBy(rd, p, b, k, role) && NoneBefore(rd, p, c, k, b, role)
    && forall j: nat :: j < k ==> NoneBefore(rd, p, c, j, |c.pins|, role)
  }

  lemma {:induction false} NameFromIs(rd: Reading, p: Part, i: nat, k: nat, role: string)
    requires k <= 5
    ensures NameFrom(rd.source, p, i, k) == Some(role) <==>
            exists m: nat :: k <= m < 5 && rd.source(p, i, m) == Some(role) && forall j: nat :: k <= j < m ==> rd.source(p, i, j).None?
    decreases 5 - k
  {
    if k < 5 && rd.source(p, i, k).None? {
      NameFromIs(rd, p, i, k + 1, role);
      if m: nat :| k + 1 <= m < 5 && rd.source(p, i, m) == Some(role) && forall j: nat :: k + 1 <= j < m ==> rd.source(p, i, j).None? {
        assert forall j: nat :: k <= j < m ==> rd.source(p, i, j).None?;
      }
    }
  }

  lemma OwnIff(rd: Reading, p: Part, c: Component, i: nat, role: string)
    requires p == PartOfComponent(c)
    ensures OwnRole(rd, c, i) == Some(role) <==> OwnIs(rd, p, i, role)
  {
    NameFromIs(rd, p, i, 0, role);
  }

  lemma {:induction false} FirstPinIs(rd: Reading, p: Part, c: Component, k: nat, role: string, i: nat)
    requires p == PartOfComponent(c) && i <= |c.pins|
    ensures var r := FirstPin(rd, c, k, role, i);
            if r.Some? then
              && i <= r.value && OnNet(c, r.value) && CalledBy(rd, p, r.value, k, role)
              && forall j: nat :: i <= j < r.value && OnNet(c, j) ==> !CalledBy(rd, p, j, k, role)
            else forall j: nat :: i <= j < |c.pins| && OnNet(c, j) ==> !CalledBy(rd, p, j, k, role)
    decreases |c.pins| - i
  {
    if i < |c.pins| {
      assert Connected(c, i) == OnNet(c, i) && Gives(rd, c, i, k, role) == CalledBy(rd, p, i, k, role);
      FirstPinIs(rd, p, c, k, role, i + 1);
    }
  }

  lemma {:induction false} BindingPinIs(rd: Reading, p: Part, c: Component, role: string, k: nat)
    requires p == PartOfComponent(c) && k <= 5
    requires forall j: nat :: j < k ==> NoneBefore(rd, p, c, j, |c.pins|, role)
    ensures BindingPin(rd, c, role, k).Some? ==> Binds(rd, p, c, role, BindingPin(rd, c, role, k).value)
    ensures BindingPin(rd, c, role, k).None? ==> forall j: nat :: j < 5 ==> NoneBefore(rd, p, c, j, |c.pins|, role)
    decreases 5 - k
  {
    if k < 5 {
      FirstPinIs(rd, p, c, k, role, 0);
      var first := FirstPin(rd, c, k, role, 0);
      if first.Some? {
        assert BindsBy(rd, p, c, role, first.value, k);
      } else {
        BindingPinIs(rd, p, c, role, k + 1);
      }
    }
  }

  /** One pin binds a role at most. */
  lemma BindsOne(rd: Reading, p: Part, c: Component, role: string, a: nat, b: nat)
    requires Binds(rd, p, c, role, a) && Binds(rd, p, c, role, b)
    ensures a == b
  {
    var k: nat :| k < 5 && BindsBy(rd, p, c, role, a, k);
    var m: nat :| m < 5 && BindsBy(rd, p, c, role, b, m);
    assert k < m ==> NoneBefore(rd, p, c, k, |c.pins|, role);
    assert m < k ==> NoneBefore(rd, p, c, m, |c.pins|, role);
  }

  lemma BindingIff(rd: Reading, p: Part, c: Component, role: string, b: nat)
    requires p == PartOfComponent(c)
    ensures BindingPin(rd, c, role, 0) == Some(b) <==> Binds(rd, p, c, role, b)
  {
    BindingPinIs(rd, p, c, role, 0);
    if Binds(rd, p, c, role, b) {
      var k: nat :| k < 5 && BindsBy(rd, p, c, role, b, k);
      assert !NoneBefore(rd, p, c, k, |c.pins|, role);
      BindsOne(rd, p, c, role, b, BindingPin(rd, c, role, 0).value);
    }
  }

  /** The pin has the role for its own and is on the net of the pin that binds it. */
  predicate Takes(rd: Reading, p: Part, c: Component, i: nat, b: nat, role: string) {
    i < |c.pins| && b < |c.pins| && OwnIs(rd, p, i, role) && Binds(rd, p, c, role, b) && c.pins[i].net == c.pins[b].net
  }

  /**
    The pads of a role: the numbers of the pins that have it for their own on the net it is bound to, unless
    the part is left open.
   */
  lemma PadsAre(rd: Reading, p: Part, c: Component, role: string, n: string)
    requires Describes(p, c)
    ensures n in RuleOf(rd)(c, role) <==>
            && !rd.leftOpen(p, Connections(c))
            && exists i: nat, b: nat :: Takes(rd, p, c, i, b, role) && c.pins[i].number == n
    ensures |Connections(c)| == |c.pins| && forall i :: 0 <= i < |c.pins| ==> Connections(c)[i] == OnNet(c, i)
  {
    DescribedPart(p, c);
    if n in PadsOfRole(rd, c, role) {
      var i: nat :| i < |c.pins| && HasRole(rd, c, i, role) && c.pins[i].number == n;
      HasIff(rd, p, c, i, role);
      var b: nat :| Takes(rd, p, c, i, b, role);
    }
    if i: nat, b: nat :| Takes(rd, p, c, i, b, role) && c.pins[i].number == n {
      HasIff(rd, p, c, i, role);
    }
  }

  lemma HasIff(rd: Reading, p: Part, c: Component, i: nat, role: string)
    requires p == PartOfComponent(c) && i < |c.pins|
    ensures HasRole(rd, c, i, role) <==> exists b: nat :: Takes(rd, p, c, i, b, role)
  {
    OwnIff(rd, p, c, i, role);
    if HasRole(rd, c, i, role) {
      var b := BindingPin(rd, c, role, 0).value;
      BindingIff(rd, p, c, role, b);
      assert Takes(rd, p, c, i, b, role);
    }
    if b: nat :| Takes(rd, p, c, i, b, role) {
      BindingIff(rd, p, c, role, b);
    }
  }

  // ---------------------------------------------------------------------------------------------
  // The first free id
  // ---------------------------------------------------------------------------------------------

  /** One past the largest listed net id; 1 where none is listed. */
  lemma {:induction false} FirstFreeIs(nets: seq<Net>)
    ensures nets == [] ==> FirstFreeId(nets) == 1
    ensures nets != [] ==> exists n :: n in nets && FirstFreeId(nets) == n.id + 1
    ensures forall n :: n in nets ==> n.id < FirstFreeId(nets)
  {
    if |nets| > 1 {
      FirstFreeIs(nets[..|nets| - 1]);
      assert nets[|nets| - 1] in nets;
    } else if |nets| == 1 {
      assert nets[0] in nets;
    }
  }
}
