/** Strings in code-point order, and sorted sequences of them. */
module Order {
  import opened Sequences

  predicate Leq(a: string, b: string) {
    a == "" || (b != "" && (a[0] < b[0] || (a[0] == b[0] && Leq(a[1..], b[1..]))))
  }

  lemma {:induction false} LeqTotal(a: string, b: string)
    ensures Leq(a, b) || Leq(b, a)
    ensures Leq(a, b) && Leq(b, a) ==> a == b
    decreases |a| + |b|
  {
    if a != "" && b != "" {
      LeqTotal(a[1..], b[1..]);
      assert a == [a[0]] + a[1..] && b == [b[0]] + b[1..];
    }
  }

  lemma {:induction false} LeqRefl(a: string)
    ensures Leq(a, a)
  {
    if a != "" {
      LeqRefl(a[1..]);
    }
  }

  lemma {:induction false} LeqTrans(a: string, b: string, c: string)
    requires Leq(a, b) && Leq(b, c)
    ensures Leq(a, c)
  {
    if a != "" && a[0] == b[0] && b[0] == c[0] {
      LeqTrans(a[1..], b[1..], c[1..]);
    }
  }

  ghost predicate Sorted(s: seq<string>) {
    forall i, j :: 0 <= i < j < |s| ==> Leq(s[i], s[j])
  }

  function Insert(s: seq<string>, x: string): (r: seq<string>)
    ensures multiset(r) == multiset(s) + multiset{x}
  {
    if s == [] then [x]
    else if Leq(x, s[0]) then [x] + s
    else
      assert s == [s[0]] + s[1..];
      [s[0]] + Insert(s[1..], x)
  }

  lemma {:induction false} InsertSorted(s: seq<string>, x: string)
    requires Sorted(s)
    ensures Sorted(Insert(s, x))
  {
    if s != [] {
      LeqTotal(x, s[0]);
      var r := Insert(s, x);
      if Leq(x, s[0]) {
        forall i | 0 <= i < |s|
          ensures Leq(x, s[i])
        {
          if i > 0 {
            LeqTrans(x, s[0], s[i]);
          }
        }
      } else {
        var rest := Insert(s[1..], x);
        InsertSorted(s[1..], x);
        forall i | 0 <= i < |rest|
          ensures Leq(s[0], rest[i])
        {
          assert rest[i] in multiset(rest);
          assert rest[i] == x || rest[i] in s[1..];
        }
      }
    }
  }

  function Sort(s: seq<string>): (r: seq<string>)
    ensures multiset(r) == multiset(s)
  {
    if s == [] then []
    else
      assert s == [s[0]] + s[1..];
      Insert(Sort(s[1..]), s[0])
  }

  lemma {:induction false} SortIsSorted(s: seq<string>)
    ensures Sorted(Sort(s))
    ensures forall x :: x in Sort(s) <==> x in s
  {
    forall x
      ensures x in Sort(s) <==> x in s
    {
      assert x in Sort(s) <==> x in multiset(Sort(s));
      assert x in s <==> x in multiset(s);
    }
    if s != [] {
      SortIsSorted(s[1..]);
      InsertSorted(Sort(s[1..]), s[0]);
    }
  }

  lemma HeadIsLeast(a: seq<string>, x: string)
    requires Sorted(a) && x in multiset(a)
    ensures Leq(a[0], x)
  {
    var i :| 0 <= i < |a| && a[i] == x;
    LeqRefl(x);
  }

  lemma TailMultiset(a: seq<string>)
    requires a != []
    ensures multiset(a[1..]) == multiset(a) - multiset{a[0]}
  {
    assert a == [a[0]] + a[1..];
  }

  /** A multiset of strings has one sorted listing. */
  lemma {:induction false} SortedUnique(a: seq<string>, b: seq<string>)
    requires Sorted(a) && Sorted(b) && multiset(a) == multiset(b)
    ensures a == b
    decreases |a|
  {
    assert |a| == |multiset(a)| == |multiset(b)| == |b|;
    if a != [] {
      assert a[0] in multiset(a) && b[0] in multiset(b);
      HeadIsLeast(a, b[0]);
      HeadIsLeast(b, a[0]);
      LeqTotal(a[0], b[0]);
      TailMultiset(a);
      TailMultiset(b);
      SortedUnique(a[1..], b[1..]);
    }
  }

  /** The members of a set, each once, in order. */
  ghost function SortSet(s: set<string>): (r: seq<string>)
    ensures multiset(r) == multiset(s)
    ensures |r| == |s|
  {
    if s == {} then []
    else
      var x :| x in s;
      assert s == (s - {x}) + {x};
      Insert(SortSet(s - {x}), x)
  }

  lemma {:induction false} SortSetIs(s: set<string>)
    ensures Sorted(SortSet(s))
    ensures forall x :: x in SortSet(s) <==> x in s
    ensures forall i, j :: 0 <= i < j < |SortSet(s)| ==> SortSet(s)[i] != SortSet(s)[j]
  {
    SortSetSorted(s);
    var r := SortSet(s);
    forall x
      ensures x in r <==> x in s
    {
      assert x in r <==> x in multiset(r);
      assert x in s <==> x in multiset(s);
    }
    forall i, j | 0 <= i < j < |r|
      ensures r[i] != r[j]
    {
      OnceInSet(r, s, i, j);
    }
  }

  lemma OnceInSet(r: seq<string>, s: set<string>, i: nat, j: nat)
    requires multiset(r) == multiset(s) && i < j < |r|
    ensures r[i] != r[j]
  {
    assert multiset(s)[r[i]] <= 1;
    if r[i] == r[j] {
      TwiceInMultiset(r, i, j);
    }
  }

  lemma {:induction false} SortSetSorted(s: set<string>)
    ensures Sorted(SortSet(s))
    decreases |s|
  {
    if s != {} {
      var x :| x in s && SortSet(s) == Insert(SortSet(s - {x}), x);
      SortSetSorted(s - {x});
      InsertSorted(SortSet(s - {x}), x);
    }
  }

  /** Collects a set into its sorted listing. */
  method ListSorted(s: set<string>) returns (r: seq<string>)
    ensures r == SortSet(s)
  {
    r := [];
    var todo := s;
    while todo != {}
      invariant todo <= s && Sorted(r) && multiset(r) == multiset(s - todo)
      decreases |todo|
    {
      var x :| x in todo;
      InsertSorted(r, x);
      r := Insert(r, x);
      assert s - (todo - {x}) == (s - todo) + {x};
      todo := todo - {x};
    }
    assert s - todo == s;
    SortSetSorted(s);
    SortedUnique(r, SortSet(s));
  }
}
