/** What the gate derives from a Gerber package's own films, and the net floor it sets from that. */
module GerberFacts {
  import opened Wrappers

  const MIN_LAYERS_FOR_FLOOR: nat := 2
  const MIN_FLASHES_FOR_FLOOR: nat := 500
  const FLASHES_PER_NET: nat := 200
  const MAX_EXPECTED_NETS: nat := 32
  const MIN_EXPECTED_NETS: nat := 2
  const NO_MCU_AXIS := "no-mcu"

  /** One readable member: its flash count, and what its attribute and its name say it is. */
  datatype Member = Member(flashes: nat, isGerber: bool, looksCopper: bool, knownNonCopper: bool)

  datatype PackageFacts = PackageFacts(
    gerberLayers: nat,
    copperLayers: nat,
    identifiedLayers: nat,
    copperClassified: bool,
    apertureFlashes: nat,
    totalFlashes: nat,
    readable: bool)

  function Sum(xs: seq<nat>): nat {
    if xs == [] then 0 else Sum(xs[..|xs| - 1]) + xs[|xs| - 1]
  }

  // ---------------------------------------------------------------------------------------------
  // The smallest films
  // ---------------------------------------------------------------------------------------------

  function Insert(x: nat, s: seq<nat>): (r: seq<nat>)
    ensures |r| == |s| + 1
  {
    if s == [] || x <= s[0] then [x] + s else [s[0]] + Insert(x, s[1..])
  }

  function Sorted(xs: seq<nat>): (r: seq<nat>)
    ensures |r| == |xs|
  {
    if xs == [] then [] else Insert(xs[0], Sorted(xs[1..]))
  }

  predicate Ascending(s: seq<nat>) {
    forall i, j :: 0 <= i < j < |s| ==> s[i] <= s[j]
  }

  lemma {:induction false} InsertMultiset(x: nat, s: seq<nat>)
    ensures multiset(Insert(x, s)) == multiset(s) + multiset{x}
  {
    if s != [] && x > s[0] {
      InsertMultiset(x, s[1..]);
      assert s == [s[0]] + s[1..];
    }
  }

  lemma AscendsBehind(x: nat, s: seq<nat>)
    requires Ascending(s) && forall y :: y in s ==> x <= y
    ensures Ascending([x] + s)
  {
    var r := [x] + s;
    forall i, j | 0 <= i < j < |r|
      ensures r[i] <= r[j]
    {
      assert r[j] == s[j - 1];
      assert s[j - 1] in s;
    }
  }

  lemma {:induction false} InsertAscends(x: nat, s: seq<nat>)
    requires Ascending(s)
    ensures Ascending(Insert(x, s))
  {
    if s != [] && x > s[0] {
      InsertAscends(x, s[1..]);
      InsertMultiset(x, s[1..]);
      var rest := Insert(x, s[1..]);
      forall y | y in rest
        ensures s[0] <= y
      {
        assert y in multiset(s[1..]) + multiset{x};
      }
      AscendsBehind(s[0], rest);
    }
  }

  lemma {:induction false} SortedAscends(xs: seq<nat>)
    ensures Ascending(Sorted(xs)) && multiset(Sorted(xs)) == multiset(xs)
  {
    if xs != [] {
      SortedAscends(xs[1..]);
      InsertAscends(xs[0], Sorted(xs[1..]));
      InsertMultiset(xs[0], Sorted(xs[1..]));
      assert xs == [xs[0]] + xs[1..];
    }
  }

  /** The least flashes two films of the package can hold together. */
  function Smallest(xs: seq<nat>, n: nat): nat {
    var s := Sorted(xs);
    Sum(if |s| <= n then s else s[..n])
  }

  // ---------------------------------------------------------------------------------------------
  // Deriving the facts
  // ---------------------------------------------------------------------------------------------

  /** The members up to the first one that cannot be read. */
  function ReadUpTo(ms: seq<Option<Member>>): seq<Member> {
    if ms == [] || ms[0].None? then [] else [ms[0].value] + ReadUpTo(ms[1..])
  }

  function Films(ms: seq<Member>): seq<Member> {
    if ms == [] then []
    else if ms[|ms| - 1].isGerber then Films(ms[..|ms| - 1]) + [ms[|ms| - 1]]
    else Films(ms[..|ms| - 1])
  }

  function FlashesOf(films: seq<Member>): (r: seq<nat>)
    ensures |r| == |films| && forall i :: 0 <= i < |films| ==> r[i] == films[i].flashes
  {
    seq(|films|, i requires 0 <= i < |films| => films[i].flashes)
  }

  function CopperOf(films: seq<Member>): seq<Member> {
    if films == [] then []
    else if films[|films| - 1].looksCopper then CopperOf(films[..|films| - 1]) + [films[|films| - 1]]
    else CopperOf(films[..|films| - 1])
  }

  function IdentifiedCount(films: seq<Member>): nat {
    if films == [] then 0
    else
      var f := films[|films| - 1];
      IdentifiedCount(films[..|films| - 1]) + if f.looksCopper || f.knownNonCopper then 1 else 0
  }

  function FactsOf(ms: seq<Option<Member>>): PackageFacts {
    var films := Films(ReadUpTo(ms));
    var copper, identified, all := CopperOf(films), IdentifiedCount(films), FlashesOf(films);
    var classified := |copper| >= 1 && (|copper| >= MIN_LAYERS_FOR_FLOOR || identified == |films|);
    PackageFacts(
      |films|, |copper|, identified, classified,
      if classified || |films| < MIN_LAYERS_FOR_FLOOR then Sum(FlashesOf(copper)) else Smallest(all, MIN_LAYERS_FOR_FLOOR),
      Sum(all), forall m :: m in ms ==> m.Some?)
  }

  lemma {:induction false} ReadUpToStep(ms: seq<Option<Member>>, i: nat)
    requires i < |ms| && forall m :: m in ms[..i] ==> m.Some?
    ensures |ReadUpTo(ms[..i])| == i
    ensures ms[i].Some? ==> ReadUpTo(ms[..i + 1]) == ReadUpTo(ms[..i]) + [ms[i].value]
    ensures ms[i].None? ==> ReadUpTo(ms) == ReadUpTo(ms[..i])
  {
    if i > 0 {
      assert ms[0] in ms[..i];
      assert ms[..i][0] == ms[0] && ms[..i][1..] == ms[1..][..i - 1] && ms[..i + 1][1..] == ms[1..][..i];
      assert forall m :: m in ms[1..][..i - 1] ==> m in ms[..i];
      ReadUpToStep(ms[1..], i - 1);
    }
  }

  lemma FlashesAppend(films: seq<Member>, f: Member)
    ensures FlashesOf(films + [f]) == FlashesOf(films) + [f.flashes]
    ensures Sum(FlashesOf(films + [f])) == Sum(FlashesOf(films)) + f.flashes
  {
    var xs := FlashesOf(films) + [f.flashes];
    assert xs[..|xs| - 1] == FlashesOf(films);
  }

  lemma FilmsAppend(ms: seq<Member>, m: Member)
    ensures Films(ms + [m]) == if m.isGerber then Films(ms) + [m] else Films(ms)
  {
    assert (ms + [m])[..|ms|] == ms;
  }

  lemma CopperAppend(films: seq<Member>, f: Member)
    ensures CopperOf(films + [f]) == if f.looksCopper then CopperOf(films) + [f] else CopperOf(films)
    ensures IdentifiedCount(films + [f]) == IdentifiedCount(films) + if f.looksCopper || f.knownNonCopper then 1 else 0
  {
    assert (films + [f])[..|films|] == films;
  }

  /** What the counters hold after some of the films. */
  ghost predicate Counted(films: seq<Member>, gerber: nat, copper: nat, identified: nat, copperFlashes: nat, total: nat,
                          perLayer: seq<nat>) {
    && gerber == |films| && copper == |CopperOf(films)| && identified == IdentifiedCount(films)
    && copperFlashes == Sum(FlashesOf(CopperOf(films))) && perLayer == FlashesOf(films) && total == Sum(perLayer)
  }

  lemma CountFilm(films: seq<Member>, f: Member, copper: nat, identified: nat, copperFlashes: nat, total: nat, perLayer: seq<nat>)
    requires Counted(films, |films|, copper, identified, copperFlashes, total, perLayer)
    ensures Counted(films + [f], |films| + 1, copper + (if f.looksCopper then 1 else 0),
                    identified + (if f.looksCopper || f.knownNonCopper then 1 else 0),
                    copperFlashes + (if f.looksCopper then f.flashes else 0), total + f.flashes, perLayer + [f.flashes])
  {
    CopperAppend(films, f);
    FlashesAppend(films, f);
    FlashesAppend(CopperOf(films), f);
  }

  /** The counters after one more member; a member that is no Gerber film leaves them. */
  lemma CountMember(ms: seq<Option<Member>>, i: nat, gerber: nat, copper: nat, identified: nat, copperFlashes: nat, total: nat,
                    perLayer: seq<nat>)
    requires i < |ms| && (forall m :: m in ms[..i] ==> m.Some?) && ms[i].Some?
    requires Counted(Films(ReadUpTo(ms[..i])), gerber, copper, identified, copperFlashes, total, perLayer)
    ensures forall m :: m in ms[..i + 1] ==> m.Some?
    ensures var films, m := Films(ReadUpTo(ms[..i + 1])), ms[i].value;
            if !m.isGerber then Counted(films, gerber, copper, identified, copperFlashes, total, perLayer)
            else if m.looksCopper then
              Counted(films, gerber + 1, copper + 1, identified + 1, copperFlashes + m.flashes, total + m.flashes,
                      perLayer + [m.flashes])
            else
              Counted(films, gerber + 1, copper, identified + (if m.knownNonCopper then 1 else 0), copperFlashes, total + m.flashes,
                      perLayer + [m.flashes])
  {
    ReadUpToStep(ms, i);
    FilmsAppend(ReadUpTo(ms[..i]), ms[i].value);
    CountFilm(Films(ReadUpTo(ms[..i])), ms[i].value, copper, identified, copperFlashes, total, perLayer);
    assert ms[..i + 1] == ms[..i] + [ms[i]];
  }

  /** The counters over the films up to the first unreadable member. */
  method CountFilms(members: seq<Option<Member>>)
    returns (gerberLayers: nat, copperLayers: nat, identifiedLayers: nat, copperFlashes: nat, totalFlashes: nat,
             perLayer: seq<nat>, readable: bool)
    ensures Counted(Films(ReadUpTo(members)), gerberLayers, copperLayers, identifiedLayers, copperFlashes, totalFlashes, perLayer)
    ensures readable <==> forall m :: m in members ==> m.Some?
  {
    gerberLayers, copperLayers, identifiedLayers := 0, 0, 0;
    copperFlashes, totalFlashes, perLayer, readable := 0, 0, [], true;
    var i := 0;
    while i < |members|
      invariant 0 <= i <= |members| && readable
      invariant forall m :: m in members[..i] ==> m.Some?
      invariant Counted(Films(ReadUpTo(members[..i])), gerberLayers, copperLayers, identifiedLayers, copperFlashes,
                        totalFlashes, perLayer)
    {
      if members[i].None? {
        readable := false;
        break;
      }
      var m := members[i].value;
      CountMember(members, i, gerberLayers, copperLayers, identifiedLayers, copperFlashes, totalFlashes, perLayer);
      if m.isGerber {
        gerberLayers, totalFlashes, perLayer := gerberLayers + 1, totalFlashes + m.flashes, perLayer + [m.flashes];
        if m.looksCopper {
          copperLayers, identifiedLayers, copperFlashes := copperLayers + 1, identifiedLayers + 1, copperFlashes + m.flashes;
        } else if m.knownNonCopper {
          identifiedLayers := identifiedLayers + 1;
        }
      }
      i := i + 1;
    }
    ReadWhole(members, i, readable);
  }

  method GerberInputFacts(members: seq<Option<Member>>) returns (r: PackageFacts)
    ensures r == FactsOf(members)
  {
    var gerberLayers, copperLayers, identifiedLayers, copperFlashes, totalFlashes, perLayer, readable := CountFilms(members);
    var classified := copperLayers >= 1 && (copperLayers >= MIN_LAYERS_FOR_FLOOR || identifiedLayers == gerberLayers);
    var flashes :=
      if classified || gerberLayers < MIN_LAYERS_FOR_FLOOR then copperFlashes else Smallest(perLayer, MIN_LAYERS_FOR_FLOOR);
    r := PackageFacts(gerberLayers, copperLayers, identifiedLayers, classified, flashes, totalFlashes, readable);
  }

  lemma ReadWhole(ms: seq<Option<Member>>, i: nat, readable: bool)
    requires i <= |ms| && forall m :: m in ms[..i] ==> m.Some?
    requires if readable then i == |ms| else i < |ms| && ms[i].None?
    ensures ReadUpTo(ms) == ReadUpTo(ms[..i]) && readable == forall m :: m in ms ==> m.Some?
  {
    if readable {
      assert ms[..i] == ms;
    } else {
      ReadUpToStep(ms, i);
      assert ms[i] in ms;
    }
  }

  // ---------------------------------------------------------------------------------------------
  // The floor
  // ---------------------------------------------------------------------------------------------

  function Clamp(flashes: nat): nat {
    var per := flashes / FLASHES_PER_NET;
    var low := if per < MIN_EXPECTED_NETS then MIN_EXPECTED_NETS else per;
    if low > MAX_EXPECTED_NETS then MAX_EXPECTED_NETS else low
  }

  /** The least nets a package like this must come back with, where a floor applies. */
  function ExpectedMinNets(facts: PackageFacts, axes: seq<string>): Option<nat> {
    if !facts.readable || NO_MCU_AXIS in axes then None
    else
      var applicable := if facts.copperClassified then facts.apertureFlashes else facts.totalFlashes;
      var layers := if facts.copperClassified then facts.copperLayers else facts.gerberLayers;
      if applicable < MIN_FLASHES_FOR_FLOOR || layers < MIN_LAYERS_FOR_FLOOR then None
      else Some(Clamp(facts.apertureFlashes))
  }

  // ---------------------------------------------------------------------------------------------
  // The estimate never over-states
  // ---------------------------------------------------------------------------------------------

  lemma {:induction false} InsertFirstTwo(x: nat, s: seq<nat>)
    requires Ascending(s) && |s| >= 1
    ensures var r := Insert(x, s); r[0] <= x && r[0] <= s[0] && r[0] + r[1] <= x + s[0]
    ensures |s| >= 2 ==> Insert(x, s)[0] + Insert(x, s)[1] <= s[0] + s[1]
  {
    if x > s[0] && |s| >= 2 {
      InsertFirstTwo(x, s[1..]);
    }
  }

  lemma {:induction false} SortedFirstIsLeast(xs: seq<nat>, i: nat)
    requires i < |xs|
    ensures Sorted(xs)[0] <= xs[i]
  {
    if |xs| > 1 {
      SortedAscends(xs[1..]);
      InsertFirstTwo(xs[0], Sorted(xs[1..]));
      if i > 0 {
        SortedFirstIsLeast(xs[1..], i - 1);
      }
    }
  }

  /** No two films hold fewer flashes than the two smallest. */
  lemma {:induction false} TwoSmallest(xs: seq<nat>, i: nat, j: nat)
    requires i < j < |xs|
    ensures Sorted(xs)[0] + Sorted(xs)[1] <= xs[i] + xs[j]
  {
    SortedAscends(xs[1..]);
    InsertFirstTwo(xs[0], Sorted(xs[1..]));
    if i == 0 {
      SortedFirstIsLeast(xs[1..], j - 1);
    } else {
      TwoSmallest(xs[1..], i - 1, j - 1);
    }
  }

  /** The flashes of the films a mask picks. */
  function SumWhere(xs: seq<nat>, mask: seq<bool>): nat
    requires |mask| == |xs|
  {
    if xs == [] then 0
    else SumWhere(xs[..|xs| - 1], mask[..|xs| - 1]) + if mask[|xs| - 1] then xs[|xs| - 1] else 0
  }

  lemma {:induction false} SumWhereAtLeastOne(xs: seq<nat>, mask: seq<bool>, i: nat)
    requires |mask| == |xs| && i < |xs| && mask[i]
    ensures xs[i] <= SumWhere(xs, mask)
  {
    if i < |xs| - 1 {
      SumWhereAtLeastOne(xs[..|xs| - 1], mask[..|xs| - 1], i);
    }
  }

  lemma {:induction false} SumWhereAtLeastTwo(xs: seq<nat>, mask: seq<bool>, i: nat, j: nat)
    requires |mask| == |xs| && i < j < |xs| && mask[i] && mask[j]
    ensures xs[i] + xs[j] <= SumWhere(xs, mask)
  {
    if j < |xs| - 1 {
      SumWhereAtLeastTwo(xs[..|xs| - 1], mask[..|xs| - 1], i, j);
    } else {
      SumWhereAtLeastOne(xs[..|xs| - 1], mask[..|xs| - 1], i);
    }
  }

  lemma ClampMonotone(a: nat, b: nat)
    requires a <= b
    ensures Clamp(a) <= Clamp(b)
    ensures MIN_EXPECTED_NETS <= Clamp(a) <= MAX_EXPECTED_NETS
  {
    assert a / FLASHES_PER_NET <= b / FLASHES_PER_NET;
  }

  /**
    Where the copper could not be told apart: whichever two or more films are the copper, the estimate is
    no more than their flashes, so the floor is no more than the one their true count would give.
   */
  lemma UnclassifiedFloorUnderstates(ms: seq<Option<Member>>, axes: seq<string>, copper: seq<bool>, i: nat, j: nat)
    requires var films := Films(ReadUpTo(ms)); |copper| == |films| && i < j < |films| && copper[i] && copper[j]
    requires !FactsOf(ms).copperClassified
    ensures var facts, truth := FactsOf(ms), SumWhere(FlashesOf(Films(ReadUpTo(ms))), copper);
            && facts.apertureFlashes <= truth
            && (ExpectedMinNets(facts, axes).Some? ==>
                  MIN_EXPECTED_NETS <= ExpectedMinNets(facts, axes).value <= Clamp(truth) <= MAX_EXPECTED_NETS)
  {
    var xs := FlashesOf(Films(ReadUpTo(ms)));
    TwoSmallest(xs, i, j);
    SumWhereAtLeastTwo(xs, copper, i, j);
    var s := Sorted(xs)[..2];
    assert Sum(s) == s[0] + s[1] by {
      assert s[..1] == [s[0]] && s[..1][..0] == [];
      assert Sum(s[..1]) == s[0];
    }
    if |xs| == 2 {
      assert Sorted(xs)[..2] == Sorted(xs);
    }
    ClampMonotone(FactsOf(ms).apertureFlashes, SumWhere(xs, copper));
    ClampMonotone(SumWhere(xs, copper), SumWhere(xs, copper));
  }

  lemma {:induction false} CopperWithin(films: seq<Member>)
    ensures |CopperOf(films)| <= IdentifiedCount(films) <= |films|
    ensures Sum(FlashesOf(CopperOf(films))) <= Sum(FlashesOf(films))
  {
    if films != [] {
      var rest, f := films[..|films| - 1], films[|films| - 1];
      CopperWithin(rest);
      assert films == rest + [f];
      CopperAppend(rest, f);
      FlashesAppend(rest, f);
      FlashesAppend(CopperOf(rest), f);
    } else {
      assert FlashesOf(films) == [];
    }
  }

  lemma {:induction false} SumAppend(a: seq<nat>, b: seq<nat>)
    ensures Sum(a + b) == Sum(a) + Sum(b)
  {
    if b == [] {
      assert a + b == a;
    } else {
      assert (a + b)[..|a + b| - 1] == a + b[..|b| - 1];
      SumAppend(a, b[..|b| - 1]);
    }
  }

  lemma {:induction false} SumSorted(xs: seq<nat>)
    ensures Sum(Sorted(xs)) == Sum(xs)
  {
    if xs != [] {
      SumSorted(xs[1..]);
      InsertSum(xs[0], Sorted(xs[1..]));
      assert xs == [xs[0]] + xs[1..];
      SumAppend([xs[0]], xs[1..]);
      assert Sum([xs[0]]) == xs[0] by {
        assert [xs[0]][..0] == [];
      }
    }
  }

  lemma {:induction false} InsertSum(x: nat, s: seq<nat>)
    ensures Sum(Insert(x, s)) == x + Sum(s)
  {
    assert Sum([x]) == x by {
      assert [x][..0] == [];
    }
    if s == [] || x <= s[0] {
      SumAppend([x], s);
    } else {
      InsertSum(x, s[1..]);
      assert Sum([s[0]]) == s[0] by {
        assert [s[0]][..0] == [];
      }
      SumAppend([s[0]], Insert(x, s[1..]));
      SumAppend([s[0]], s[1..]);
      assert s == [s[0]] + s[1..];
    }
  }

  /** The figures are ordered: copper within identified within all, and the estimate within the total. */
  lemma FactsAreOrdered(ms: seq<Option<Member>>)
    ensures var f := FactsOf(ms);
            && f.copperLayers <= f.identifiedLayers <= f.gerberLayers && f.apertureFlashes <= f.totalFlashes
            && (f.copperClassified ==> f.copperLayers >= 1)
  {
    var films := Films(ReadUpTo(ms));
    CopperWithin(films);
    var s := Sorted(FlashesOf(films));
    SumSorted(FlashesOf(films));
    if |s| > MIN_LAYERS_FOR_FLOOR {
      SumAppend(s[..MIN_LAYERS_FOR_FLOOR], s[MIN_LAYERS_FOR_FLOOR..]);
      assert s == s[..MIN_LAYERS_FOR_FLOOR] + s[MIN_LAYERS_FOR_FLOOR..];
    }
  }
}
