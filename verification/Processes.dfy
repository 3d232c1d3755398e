/**
  Which processes an integration command owns, and how their exit is proved.  The operating system
  answers as it likes; what was asked and what it answered is kept in a log.
 */
module Processes {
  import opened Wrappers

  datatype Row = Row(pid: nat, parent: nat, group: nat, session: int, tagged: bool)

  /** A process table, with what the runner knows about itself and the command's root. */
  datatype Snapshot = Snapshot(
    rows: seq<Row>, root: nat, runner: nat, runnerGroup: nat, baseline: set<nat>, rootLives: bool)

  // ---------------------------------------------------------------------------------------------
  // Ownership
  // ---------------------------------------------------------------------------------------------

  /** The root, what the runner newly adopted, the root's session, and what carries the run's token. */
  ghost function Seeds(s: Snapshot): set<nat> {
    {s.root}
    + (set r | r in s.rows && r.parent == s.runner && r.pid !in s.baseline && r.pid != s.root :: r.pid)
    + (set r | r in s.rows && r.session == s.root :: r.pid)
    + (set r | r in s.rows && r.tagged :: r.pid)
  }

  ghost predicate Closed(rows: seq<Row>, pids: set<nat>) {
    forall r :: r in rows && r.parent in pids ==> r.pid in pids
  }

  /** The least set holding the seeds and every child of its members. */
  ghost predicate Least(s: Snapshot, pids: set<nat>) {
    && Seeds(s) <= pids && Closed(s.rows, pids)
    && forall other: set<nat> :: Seeds(s) <= other && Closed(s.rows, other) ==> pids <= other
  }

  /** A process is listed once. */
  ghost predicate UniquePids(rows: seq<Row>) {
    forall r, q :: r in rows && q in rows && r.pid == q.pid ==> r == q
  }

  /** The groups of the processes, and the root's own when it lives but is not listed. */
  ghost function GroupsOf(s: Snapshot, pids: set<nat>): set<nat> {
    (set r | r in s.rows && r.pid in pids :: r.group)
    + (if (forall r :: r in s.rows ==> r.pid != s.root) && s.rootLives then {s.root} else {})
  }

  function ChildrenOf(rows: seq<Row>, parent: nat): seq<Row> {
    if rows == [] then [] else (if rows[0].parent == parent then [rows[0]] else []) + ChildrenOf(rows[1..], parent)
  }

  lemma {:induction false} ChildrenAre(rows: seq<Row>, parent: nat)
    ensures forall r :: r in ChildrenOf(rows, parent) <==> r in rows && r.parent == parent
  {
    if rows != [] {
      ChildrenAre(rows[1..], parent);
      assert forall r :: r in rows <==> r == rows[0] || r in rows[1..];
    }
  }

  function SeedList(s: Snapshot, rows: seq<Row>): seq<nat> {
    if rows == [] then [s.root]
    else
      var r := rows[0];
      SeedList(s, rows[1..])
      + if (r.parent == s.runner && r.pid !in s.baseline && r.pid != s.root) || r.session == s.root || r.tagged then [r.pid] else []
  }

  lemma {:induction false} SeedListIs(s: Snapshot, rows: seq<Row>)
    ensures forall p :: p in SeedList(s, rows) <==> p in Seeds(s.(rows := rows))
  {
    if rows != [] {
      SeedListIs(s, rows[1..]);
      assert forall r :: r in rows <==> r == rows[0] || r in rows[1..];
    }
  }

  /** The group of the last row of a process, as a dictionary keeps it. */
  function GroupByPid(rows: seq<Row>, pid: nat): Option<nat> {
    if rows == [] then None
    else if rows[|rows| - 1].pid == pid then Some(rows[|rows| - 1].group)
    else GroupByPid(rows[..|rows| - 1], pid)
  }

  lemma {:induction false} GroupByPidIs(rows: seq<Row>, pid: nat)
    ensures GroupByPid(rows, pid).None? <==> forall r :: r in rows ==> r.pid != pid
    ensures GroupByPid(rows, pid).Some? ==> exists r :: r in rows && r.pid == pid && r.group == GroupByPid(rows, pid).value
  {
    if rows != [] {
      var last := rows[|rows| - 1];
      assert rows == rows[..|rows| - 1] + [last];
      if last.pid != pid {
        GroupByPidIs(rows[..|rows| - 1], pid);
      }
    }
  }

  ghost function AllPids(s: Snapshot): set<nat> {
    Seeds(s) + set r | r in s.rows :: r.pid
  }

  /** Everything met is owned, and every child of what was passed is met. */
  ghost predicate Tracing(s: Snapshot, seen: set<nat>, pending: seq<nat>) {
    && (forall p :: p in Seeds(s) ==> p in seen || p in pending)
    && (forall r :: r in s.rows && r.parent in seen ==> r.pid in seen || r.pid in pending)
    && (forall p :: p in seen || p in pending ==> p in AllPids(s))
    && (forall other: set<nat> :: Seeds(s) <= other && Closed(s.rows, other) ==>
          forall p :: p in seen || p in pending ==> p in other)
  }

  /** The groups gathered: those of what was passed, and none but those of what was met. */
  ghost predicate Grouping(s: Snapshot, seen: set<nat>, pending: seq<nat>, groups: set<nat>) {
    && GroupsOf(s, seen) <= groups
    && groups <= GroupsOf(s, seen + set p | p in pending)
  }

  lemma ChildIsIn(s: Snapshot, other: set<nat>, parent: nat, children: seq<Row>, p: nat)
    requires Closed(s.rows, other) && parent in other && exists r :: r in children && r.pid == p
    requires forall r :: r in children ==> r in s.rows && r.parent == parent
    ensures p in other
  {
  }

  lemma TraceStep(s: Snapshot, seen: set<nat>, pending: seq<nat>, parent: nat)
    requires Tracing(s, seen, pending + [parent])
    ensures parent in seen ==> Tracing(s, seen, pending)
    ensures Tracing(s, seen + {parent}, pending + NewPids(ChildrenOf(s.rows, parent), seen + {parent}))
  {
    var children := ChildrenOf(s.rows, parent);
    ChildrenAre(s.rows, parent);
    var next := NewPids(children, seen + {parent});
    NewPidsAre(children, seen + {parent});
    assert forall p :: p in pending + [parent] <==> p in pending || p == parent;
    forall p | p in next
      ensures p in AllPids(s)
    {
      var r :| r in children && r.pid == p;
    }
    forall other: set<nat>, p | Seeds(s) <= other && Closed(s.rows, other) && p in next
      ensures p in other
    {
      assert parent in pending + [parent];
      ChildIsIn(s, other, parent, children, p);
    }
    forall r | r in s.rows && r.parent in seen + {parent}
      ensures r.pid in seen + {parent} || r.pid in pending + next
    {
      if r.parent == parent {
        assert r in children;
      } else {
        assert r.pid in seen || r.pid in pending + [parent];
      }
    }
  }

  /** The children not yet passed, in table order. */
  function NewPids(children: seq<Row>, seen: set<nat>): seq<nat> {
    if children == [] then []
    else (if children[0].pid in seen then [] else [children[0].pid]) + NewPids(children[1..], seen)
  }

  function NewGroups(children: seq<Row>, seen: set<nat>): set<nat> {
    set r | r in children && r.pid !in seen :: r.group
  }

  lemma {:induction false} NewPidsAre(children: seq<Row>, seen: set<nat>)
    ensures forall p :: p in NewPids(children, seen) <==> p !in seen && exists r :: r in children && r.pid == p
  {
    if children != [] {
      NewPidsAre(children[1..], seen);
      assert forall r :: r in children <==> r == children[0] || r in children[1..];
      forall p
        ensures p in NewPids(children, seen) <==> p !in seen && exists r :: r in children && r.pid == p
      {
        if p == children[0].pid {
          assert children[0] in children;
        }
      }
    }
  }

  lemma GroupsOwn(s: Snapshot, seen: set<nat>, parent: nat)
    requires UniquePids(s.rows)
    ensures var own := GroupByPid(s.rows, parent);
            GroupsOf(s, seen + {parent}) == GroupsOf(s, seen) + if own.Some? then {own.value} else {}
  {
    GroupByPidIs(s.rows, parent);
  }

  lemma GroupsOfChildren(s: Snapshot, children: seq<Row>, passed: set<nat>, all: set<nat>)
    requires forall r :: r in children ==> r in s.rows
    requires forall r :: r in children && r.pid !in passed ==> r.pid in all
    ensures NewGroups(children, passed) <= GroupsOf(s, all)
  {
  }

  lemma GroupStep(s: Snapshot, seen: set<nat>, pending: seq<nat>, parent: nat, groups: set<nat>)
    requires UniquePids(s.rows) && Grouping(s, seen, pending + [parent], groups)
    ensures parent in seen ==> Grouping(s, seen, pending, groups)
    ensures var own, children, passed := GroupByPid(s.rows, parent), ChildrenOf(s.rows, parent), seen + {parent};
            var groups' := groups + (if own.Some? then {own.value} else {}) + NewGroups(children, passed);
            Grouping(s, passed, pending + NewPids(children, passed), groups')
  {
    var children, passed := ChildrenOf(s.rows, parent), seen + {parent};
    ChildrenAre(s.rows, parent);
    NewPidsAre(children, passed);
    var before, after := set p | p in pending + [parent], set p | p in pending + NewPids(children, passed);
    assert seen + before <= passed + after;
    assert parent in seen ==> seen + before == seen + set p | p in pending;
    GroupsOwn(s, seen, parent);
    GroupsGrow(s, seen + before, passed + after);
    GroupsGrow(s, passed, passed + after);
    forall r | r in children && r.pid !in passed
      ensures r.pid in passed + after
    {
      assert r.pid in NewPids(children, passed);
    }
    GroupsOfChildren(s, children, passed, passed + after);
  }

  lemma GroupsGrow(s: Snapshot, a: set<nat>, b: set<nat>)
    requires a <= b
    ensures GroupsOf(s, a) <= GroupsOf(s, b)
  {
  }

  lemma SplitLast(pending: seq<nat>)
    requires pending != []
    ensures pending == pending[..|pending| - 1] + [pending[|pending| - 1]]
  {
  }

  ghost predicate Owning(s: Snapshot, seen: set<nat>, pending: seq<nat>, groups: set<nat>) {
    Tracing(s, seen, pending) && (UniquePids(s.rows) ==> Grouping(s, seen, pending, groups))
  }

  /** The groups once a process is passed: its own, and those of its children not yet passed. */
  function MoreGroups(rows: seq<Row>, parent: nat, passed: set<nat>, groups: set<nat>): set<nat> {
    var own := GroupByPid(rows, parent);
    groups + (if own.Some? then {own.value} else {}) + NewGroups(ChildrenOf(rows, parent), passed)
  }

  lemma OwnBegin(s: Snapshot)
    ensures var groups := if GroupByPid(s.rows, s.root).None? && s.rootLives then {s.root} else {};
            Owning(s, {}, SeedList(s, s.rows), groups)
  {
    SeedListIs(s, s.rows);
    assert s.(rows := s.rows) == s;
    GroupByPidIs(s.rows, s.root);
  }

  lemma OwnStep(s: Snapshot, seen: set<nat>, pending: seq<nat>, parent: nat, groups: set<nat>)
    requires Owning(s, seen, pending + [parent], groups)
    ensures parent in seen ==> Owning(s, seen, pending, groups)
    ensures Owning(s, seen + {parent}, pending + NewPids(ChildrenOf(s.rows, parent), seen + {parent}),
                   MoreGroups(s.rows, parent, seen + {parent}, groups))
    ensures parent !in seen ==> |AllPids(s) - (seen + {parent})| < |AllPids(s) - seen|
  {
    TraceStep(s, seen, pending, parent);
    if UniquePids(s.rows) {
      GroupStep(s, seen, pending, parent, groups);
    }
    assert parent in pending + [parent];
    assert AllPids(s) - (seen + {parent}) == (AllPids(s) - seen) - {parent};
  }

  lemma OwnEnd(s: Snapshot, seen: set<nat>, groups: set<nat>)
    requires Owning(s, seen, [], groups)
    ensures Least(s, seen) && s.root in seen
    ensures UniquePids(s.rows) ==> groups == GroupsOf(s, seen)
  {
    forall other: set<nat> | Seeds(s) <= other && Closed(s.rows, other)
      ensures seen <= other
    {
      assert forall p :: p in seen ==> p in other;
    }
  }

  /** Passes the last process met, unless it was passed before. */
  method Pass(s: Snapshot, seen: set<nat>, pending: seq<nat>, groups: set<nat>)
    returns (seen': set<nat>, pending': seq<nat>, groups': set<nat>)
    requires pending != [] && Owning(s, seen, pending, groups)
    ensures Owning(s, seen', pending', groups')
    ensures |AllPids(s) - seen'| < |AllPids(s) - seen| || (seen' == seen && |pending'| < |pending|)
  {
    var parent, rest := pending[|pending| - 1], pending[..|pending| - 1];
    SplitLast(pending);
    OwnStep(s, seen, rest, parent, groups);
    if parent in seen {
      return seen, rest, groups;
    }
    seen' := seen + {parent};
    groups' := MoreGroups(s.rows, parent, seen', groups);
    pending' := rest + NewPids(ChildrenOf(s.rows, parent), seen');
  }

  /** The processes the command owns, and their groups without the runner's own. */
  method OwnedProcesses(s: Snapshot) returns (groups: set<nat>, pids: set<nat>)
    ensures Least(s, pids)
    ensures UniquePids(s.rows) ==> groups == GroupsOf(s, pids) - {s.runnerGroup}
    ensures s.runnerGroup !in groups
  {
    groups := if GroupByPid(s.rows, s.root).None? && s.rootLives then {s.root} else {};
    var pending, seen: set<nat> := SeedList(s, s.rows), {};
    OwnBegin(s);
    while pending != []
      invariant Owning(s, seen, pending, groups)
      decreases |AllPids(s) - seen|, |pending|
    {
      seen, pending, groups := Pass(s, seen, pending, groups);
    }
    OwnEnd(s, seen, groups);
    pids, groups := seen, groups - {s.runnerGroup};
  }
}
