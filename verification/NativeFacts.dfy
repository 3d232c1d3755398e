/** What the gate counts in the bytes of a layout file, from what its patterns match there. */
module NativeFacts {
  import opened Wrappers

  /**
    What the format's patterns match: placements; for each record that can carry a designator the texts it
    may stand in; net ids; and net names. `decode` undoes the format's escapes.
   */
  datatype NativeScan = NativeScan(
    placements: nat, records: seq<seq<string>>, netIds: seq<string>, netNames: seq<string>, decode: string -> string)

  // ---------------------------------------------------------------------------------------------
  // Designators
  // ---------------------------------------------------------------------------------------------

  /** The first text of a record that is not empty. */
  function Named(record: seq<string>): Option<string> {
    if record == [] then None
    else if record[0] != "" then Some(record[0])
    else Named(record[1..])
  }

  function Designators(s: NativeScan, k: nat): set<string>
    requires k <= |s.records|
  {
    if k == 0 then {}
    else
      match Named(s.records[k - 1])
      case None => Designators(s, k - 1)
      case Some(t) => Designators(s, k - 1) + {s.decode(t)}
  }

  function NamedRecords(s: NativeScan, k: nat): nat
    requires k <= |s.records|
  {
    if k == 0 then 0 else NamedRecords(s, k - 1) + if Named(s.records[k - 1]).Some? then 1 else 0
  }

  /** The designators the file names, and how many records carried one. */
  method ReferenceDesignators(s: NativeScan) returns (found: set<string>, hits: nat)
    ensures found == Designators(s, |s.records|) && hits == NamedRecords(s, |s.records|)
  {
    found, hits := {}, 0;
    for i := 0 to |s.records|
      invariant found == Designators(s, i) && hits == NamedRecords(s, i)
    {
      var candidates, j := s.records[i], 0;
      while j < |candidates| && candidates[j] == ""
        invariant 0 <= j <= |candidates| && Named(candidates) == Named(candidates[j..])
      {
        j := j + 1;
      }
      if j < |candidates| {
        found := found + {s.decode(candidates[j])};
        hits := hits + 1;
      }
    }
  }

  /** The record carries that text: the first of its texts that is not empty. */
  ghost predicate Carries(record: seq<string>, t: string) {
    exists k :: 0 <= k < |record| && record[k] == t != "" && forall j :: 0 <= j < k ==> record[j] == ""
  }

  lemma {:induction false} NamedIff(record: seq<string>)
    ensures forall t :: Named(record) == Some(t) <==> Carries(record, t)
    ensures Named(record).Some? <==> exists k :: 0 <= k < |record| && record[k] != ""
  {
    if record != [] && record[0] == "" {
      NamedIff(record[1..]);
      forall t
        ensures Carries(record, t) <==> Carries(record[1..], t)
      {
        CarriesRest(record, t);
      }
      if Named(record).Some? {
        assert Carries(record, Named(record).value);
      }
      if k :| 0 <= k < |record| && record[k] != "" {
        assert record[1..][k - 1] != "";
      }
    } else if record != [] {
      assert Carries(record, record[0]);
    }
  }

  lemma CarriesRest(record: seq<string>, t: string)
    requires record != [] && record[0] == ""
    ensures Carries(record, t) <==> Carries(record[1..], t)
  {
    if k :| 0 <= k < |record| && record[k] == t != "" && forall j :: 0 <= j < k ==> record[j] == "" {
      assert record[1..][k - 1] == t;
    }
    if k :| 0 <= k < |record[1..]| && record[1..][k] == t != "" && forall j :: 0 <= j < k ==> record[1..][j] == "" {
      assert record[k + 1] == t;
      assert forall j :: 0 < j < k + 1 ==> record[j] == record[1..][j - 1];
    }
  }

  lemma {:induction false} DesignatorsIff(s: NativeScan, k: nat, x: string)
    requires k <= |s.records|
    ensures x in Designators(s, k) <==> exists i, t :: 0 <= i < k && Carries(s.records[i], t) && s.decode(t) == x
  {
    if k > 0 {
      DesignatorsIff(s, k - 1, x);
      NamedIff(s.records[k - 1]);
    }
  }

  ghost predicate CarriesSome(record: seq<string>) {
    exists t :: Carries(record, t)
  }

  /** The records that carry a designator. */
  ghost function CarryingRecords(s: NativeScan, k: nat): set<nat>
    requires k <= |s.records|
  {
    set i: nat | i < k && CarriesSome(s.records[i])
  }

  lemma {:induction false} NamedRecordsCount(s: NativeScan, k: nat)
    requires k <= |s.records|
    ensures NamedRecords(s, k) == |CarryingRecords(s, k)|
  {
    if k > 0 {
      NamedRecordsCount(s, k - 1);
      NamedIff(s.records[k - 1]);
      assert Named(s.records[k - 1]).Some? ==> Carries(s.records[k - 1], Named(s.records[k - 1]).value);
      assert CarryingRecords(s, k) == CarryingRecords(s, k - 1) + if CarriesSome(s.records[k - 1]) then {k - 1} else {};
    }
  }

  // ---------------------------------------------------------------------------------------------
  // Nets
  // ---------------------------------------------------------------------------------------------

  /** The nets' ids; 0 is the unconnected pseudo-net. */
  function NetIds(s: NativeScan): set<string> {
    set i | i in s.netIds && i != "0"
  }

  /** Ids where the writer gives them, and names where it does not. */
  function DeclaredNets(format: string, s: NativeScan): nat {
    if format == "kicad_pcb" && NetIds(s) != {} then |NetIds(s)| else |set n | n in s.netNames && n != ""|
  }

  /** Net ids are exact; names can only under-state. */
  predicate DeclaredExactly(format: string, s: NativeScan) {
    format == "kicad_pcb" ==> NetIds(s) != {}
  }

  /** Names are compared for one format only. */
  function NetNames(format: string, s: NativeScan): Option<set<string>> {
    var names := set n | n in s.netNames :: s.decode(n);
    if format == "eagle_brd" && names != {} then Some(names) else None
  }

  lemma NetNamesIff(format: string, s: NativeScan)
    ensures NetNames(format, s).Some? <==> format == "eagle_brd" && s.netNames != []
    ensures NetNames(format, s).Some? ==>
      forall x :: x in NetNames(format, s).value <==> exists n :: n in s.netNames && s.decode(n) == x
  {
    var names := set n | n in s.netNames :: s.decode(n);
    if s.netNames != [] {
      assert s.decode(s.netNames[0]) in names;
    } else {
      assert names == {};
    }
  }
}
