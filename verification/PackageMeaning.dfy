/** What the facts of a Gerber package are, on its members one by one. */
module PackageMeaning {
  import opened Wrappers
  import opened GerberFacts

  /** The members before the first that cannot be read. */
  predicate ReadTo(ms: seq<Option<Member>>, k: nat) {
    && k <= |ms| && (forall i :: 0 <= i < k ==> ms[i].Some?)
    && (k < |ms| ==> ms[k].None?)
  }

  predicate IsFilm(m: Option<Member>) {
    m.Some? && m.value.isGerber
  }

  predicate IsCopper(m: Option<Member>) {
    IsFilm(m) && m.value.looksCopper
  }

  predicate IsIdentified(m: Option<Member>) {
    IsFilm(m) && (m.value.looksCopper || m.value.knownNonCopper)
  }

  /** Where, before `k`, a member is of that kind. */
  ghost function Places(ms: seq<Option<Member>>, k: nat, kind: Option<Member> -> bool): set<nat>
    requires k <= |ms|
  {
    set i: nat | i < k && kind(ms[i])
  }

  /** The flashes of the films, or of those that look like copper. */
  function FlashesTo(ms: seq<Option<Member>>, k: nat, copper: bool): nat
    requires k <= |ms|
  {
    if k == 0 then 0
    else
      FlashesTo(ms, k - 1, copper)
      + if IsFilm(ms[k - 1]) && (!copper || IsCopper(ms[k - 1])) then ms[k - 1].value.flashes else 0
  }

  lemma OneMore(ms: seq<Option<Member>>, k: nat, kind: Option<Member> -> bool)
    requires k < |ms|
    ensures |Places(ms, k + 1, kind)| == |Places(ms, k, kind)| + if kind(ms[k]) then 1 else 0
  {
    var was := Places(ms, k, kind);
    assert Places(ms, k + 1, kind) == was + if kind(ms[k]) then {k} else {};
  }

  /** The counters, member by member. */
  lemma {:induction false} CountsAre(ms: seq<Option<Member>>, k: nat)
    requires k <= |ms| && forall i :: 0 <= i < k ==> ms[i].Some?
    ensures var films := Films(ReadUpTo(ms[..k]));
            Counted(films, |Places(ms, k, IsFilm)|, |Places(ms, k, IsCopper)|, |Places(ms, k, IsIdentified)|,
                    FlashesTo(ms, k, true), FlashesTo(ms, k, false), FlashesOf(films))
  {
    if k == 0 {
      assert ms[..0] == [];
      assert Places(ms, 0, IsFilm) == {} && Places(ms, 0, IsCopper) == {} && Places(ms, 0, IsIdentified) == {};
    } else {
      CountsAre(ms, k - 1);
      assert forall m :: m in ms[..k - 1] ==> m.Some?;
      var films := Films(ReadUpTo(ms[..k - 1]));
      CountMember(ms, k - 1, |Places(ms, k - 1, IsFilm)|, |Places(ms, k - 1, IsCopper)|, |Places(ms, k - 1, IsIdentified)|,
                  FlashesTo(ms, k - 1, true), FlashesTo(ms, k - 1, false), FlashesOf(films));
      OneMore(ms, k - 1, IsFilm);
      OneMore(ms, k - 1, IsCopper);
      OneMore(ms, k - 1, IsIdentified);
    }
  }

  /** The films among the first `k` members, and where they stand. */
  ghost predicate FilmsAt(ms: seq<Option<Member>>, k: nat, films: seq<Member>, at: seq<nat>) {
    && k <= |ms| && |at| == |films|
    && (forall p :: 0 <= p < |at| ==> at[p] < k && IsFilm(ms[at[p]]) && films[p] == ms[at[p]].value)
    && (forall p, q :: 0 <= p < q < |at| ==> at[p] < at[q])
    && (forall i: nat :: i < k && IsFilm(ms[i]) ==> i in at)
  }

  lemma FilmsMore(ms: seq<Option<Member>>, k: nat, films: seq<Member>, at: seq<nat>)
    requires k < |ms| && FilmsAt(ms, k, films, at)
    ensures if IsFilm(ms[k]) then FilmsAt(ms, k + 1, films + [ms[k].value], at + [k]) else FilmsAt(ms, k + 1, films, at)
  {
  }

  lemma {:induction false} FilmsStand(ms: seq<Option<Member>>, k: nat) returns (at: seq<nat>)
    requires k <= |ms| && forall i :: 0 <= i < k ==> ms[i].Some?
    ensures FilmsAt(ms, k, Films(ReadUpTo(ms[..k])), at)
  {
    at := [];
    if k == 0 {
      assert ms[..0] == [];
    } else {
      at := FilmsStand(ms, k - 1);
      FilmsGrow(ms, k - 1);
      FilmsMore(ms, k - 1, Films(ReadUpTo(ms[..k - 1])), at);
      if IsFilm(ms[k - 1]) {
        at := at + [k - 1];
      }
    }
  }

  lemma FilmsGrow(ms: seq<Option<Member>>, k: nat)
    requires k < |ms| && forall i :: 0 <= i <= k ==> ms[i].Some?
    ensures Films(ReadUpTo(ms[..k + 1])) == Films(ReadUpTo(ms[..k])) + if IsFilm(ms[k]) then [ms[k].value] else []
  {
    assert forall m :: m in ms[..k] ==> m.Some?;
    ReadUpToStep(ms, k);
    FilmsAppend(ReadUpTo(ms[..k]), ms[k].value);
  }

  /** The least that two of the films hold together. */
  ghost predicate LeastOfTwo(ms: seq<Option<Member>>, k: nat, n: nat)
    requires k <= |ms|
  {
    && (forall i, j :: 0 <= i < j < k && IsFilm(ms[i]) && IsFilm(ms[j]) ==> n <= ms[i].value.flashes + ms[j].value.flashes)
    && exists i, j :: 0 <= i < j < k && IsFilm(ms[i]) && IsFilm(ms[j]) && n == ms[i].value.flashes + ms[j].value.flashes
  }

  /** Two of a list, whatever their order, stand at two places. */
  lemma TwoPlaces(xs: seq<nat>, a: nat, b: nat) returns (i: nat, j: nat)
    requires multiset{a, b} <= multiset(xs)
    ensures i < j < |xs| && xs[i] + xs[j] == a + b
  {
    assert a in multiset(xs);
    var p: nat :| p < |xs| && xs[p] == a;
    var rest := xs[..p] + xs[p + 1..];
    assert xs == xs[..p] + [a] + xs[p + 1..];
    assert multiset(rest) == multiset(xs) - multiset{a};
    assert b in multiset(rest);
    var q: nat :| q < |rest| && rest[q] == b;
    i, j := if q < p then q else p, if q < p then p else q + 1;
  }

  lemma SumOfTwo(s: seq<nat>)
    requires |s| >= 2
    ensures Sum(s[..2]) == s[0] + s[1] && multiset{s[0], s[1]} <= multiset(s)
  {
    assert s[..2] == [s[0], s[1]] && [s[0], s[1]][..1] == [s[0]] && [s[0]][..0] == [];
    assert Sum([s[0]]) == s[0];
    assert s == s[..2] + s[2..];
  }

  lemma SmallestTwo(xs: seq<nat>) returns (i: nat, j: nat)
    requires |xs| >= 2
    ensures i < j < |xs| && Smallest(xs, 2) == xs[i] + xs[j]
    ensures forall p, q :: 0 <= p < q < |xs| ==> Smallest(xs, 2) <= xs[p] + xs[q]
  {
    SortedAscends(xs);
    var s := Sorted(xs);
    SumOfTwo(s);
    assert |s| == 2 ==> s[..2] == s;
    i, j := TwoPlaces(xs, s[0], s[1]);
    forall p, q | 0 <= p < q < |xs|
      ensures s[0] + s[1] <= xs[p] + xs[q]
    {
      TwoSmallest(xs, p, q);
    }
  }

  lemma LeastFilms(ms: seq<Option<Member>>, k: nat, films: seq<Member>, at: seq<nat>)
    requires FilmsAt(ms, k, films, at) && |films| >= 2
    ensures LeastOfTwo(ms, k, Smallest(FlashesOf(films), 2))
  {
    var xs := FlashesOf(films);
    var least := Smallest(xs, 2);
    var p, q := SmallestTwo(xs);
    assert IsFilm(ms[at[p]]) && IsFilm(ms[at[q]]) && at[p] < at[q];
    forall i, j | 0 <= i < j < k && IsFilm(ms[i]) && IsFilm(ms[j])
      ensures least <= ms[i].value.flashes + ms[j].value.flashes
    {
      var x: nat :| x < |at| && at[x] == i;
      var y: nat :| y < |at| && at[y] == j;
      assert xs[x] == ms[i].value.flashes && xs[y] == ms[j].value.flashes;
    }
  }

  /**
    The facts of a package: how many of the members that could be read are films, look like copper, are
    identified either way; whether the copper is known, which asks for two copper films, or one among films
    that are all identified; and the flashes of the copper, or where it is not known of the two films that
    hold the least.
   */
  lemma PackageIs(ms: seq<Option<Member>>, k: nat)
    requires ReadTo(ms, k)
    ensures var f, films := FactsOf(ms), |Places(ms, k, IsFilm)|;
            var copper, identified := |Places(ms, k, IsCopper)|, |Places(ms, k, IsIdentified)|;
            && (f.readable <==> k == |ms|)
            && f.gerberLayers == films && f.copperLayers == copper && f.identifiedLayers == identified
            && (f.copperClassified <==> copper >= 2 || (copper == 1 && identified == films))
            && f.totalFlashes == FlashesTo(ms, k, false)
            && (if f.copperClassified || films < 2 then f.apertureFlashes == FlashesTo(ms, k, true)
                else LeastOfTwo(ms, k, f.apertureFlashes))
  {
    CountsAre(ms, k);
    ReadWhole(ms, k, k == |ms|);
    if |Places(ms, k, IsFilm)| >= 2 {
      var at := FilmsStand(ms, k);
      LeastFilms(ms, k, Films(ReadUpTo(ms[..k])), at);
    }
  }
}
