/** Stopping what a command left behind, and the result code when that cannot be proved. */
module Cleanup {
  import opened Wrappers
  import opened Processes

  datatype Signal = Term | Kill

  /** What the system says to a signal sent to a group, a null signal included. */
  datatype Answer = Delivered | NoSuchGroup | NotPermitted

  /** `Tried` is the best-effort signal to the root's own group, whose refusal is passed over. */
  datatype Event =
    | Probed(group: nat, answer: Answer)
    | Sent(group: nat, sig: Signal, answer: Answer)
    | Tried(group: nat, sig: Signal, answer: Answer)

  /** The system's answer to each call, by its place in the log. */
  datatype System = System(probe: (nat, nat) -> Answer, send: (nat, nat, Signal) -> Answer)

  ghost predicate SeenDead(log: seq<Event>, from: nat, group: nat) {
    exists k :: from <= k < |log| && log[k] == Probed(group, NoSuchGroup)
  }

  ghost predicate AllSeenDead(log: seq<Event>, from: nat, groups: set<nat>) {
    forall g :: g in groups ==> SeenDead(log, from, g)
  }

  /** Some answer since then was not that the group is gone. */
  ghost predicate SeenAlive(log: seq<Event>, from: nat, group: nat) {
    exists k :: from <= k < |log| && log[k].Probed? && log[k].group == group && log[k].answer != NoSuchGroup
  }

  ghost predicate SomeSeenAlive(log: seq<Event>, from: nat, groups: set<nat>) {
    exists g :: g in groups && SeenAlive(log, from, g)
  }

  lemma SomeAliveStays(log: seq<Event>, more: seq<Event>, from: nat, earlier: nat, groups: set<nat>, all: set<nat>)
    requires log <= more && earlier <= from && groups <= all && SomeSeenAlive(log, from, groups)
    ensures SomeSeenAlive(more, earlier, all)
  {
    var g :| g in groups && SeenAlive(log, from, g);
    var k :| from <= k < |log| && log[k].Probed? && log[k].group == g && log[k].answer != NoSuchGroup;
    assert more[k] == log[k];
    assert SeenAlive(more, earlier, g);
  }

  ghost predicate SignalledWith(log: seq<Event>, from: nat, group: nat, sig: Signal) {
    exists k :: from <= k < |log| && log[k].Sent? && log[k].group == group && log[k].sig == sig
  }

  /** Every group was seen dead, or was at least sent the signal that cannot be ignored. */
  ghost predicate Handled(log: seq<Event>, from: nat, groups: set<nat>) {
    forall g :: g in groups ==> SeenDead(log, from, g) || SignalledWith(log, from, g, Kill)
  }

  lemma HandledStays(log: seq<Event>, more: seq<Event>, from: nat, earlier: nat, groups: set<nat>)
    requires log <= more && earlier <= from && Handled(log, from, groups)
    ensures Handled(more, earlier, groups)
  {
    forall g | g in groups
      ensures SeenDead(more, earlier, g) || SignalledWith(more, earlier, g, Kill)
    {
      if SeenDead(log, from, g) {
        SeenDeadStays(log, more, from, earlier, {g});
      } else {
        var k :| from <= k < |log| && log[k].Sent? && log[k].group == g && log[k].sig == Kill;
        assert more[k] == log[k];
      }
    }
  }

  /** Seen dead once, seen dead in every longer log and from every earlier point. */
  lemma SeenDeadStays(log: seq<Event>, more: seq<Event>, from: nat, earlier: nat, groups: set<nat>)
    requires log <= more && earlier <= from && AllSeenDead(log, from, groups)
    ensures AllSeenDead(more, earlier, groups)
  {
    forall g | g in groups
      ensures SeenDead(more, earlier, g)
    {
      var k :| from <= k < |log| && log[k] == Probed(g, NoSuchGroup);
      assert more[k] == log[k];
    }
  }

  lemma SignalStays(log: seq<Event>, more: seq<Event>, from: nat, groups: set<nat>, sig: Signal)
    requires log <= more && forall g :: g in groups ==> SignalledWith(log, from, g, sig)
    ensures forall g :: g in groups ==> SignalledWith(more, from, g, sig)
  {
    SignalMoves(log, more, from, from, groups, sig);
  }

  lemma SignalMoves(log: seq<Event>, more: seq<Event>, from: nat, earlier: nat, groups: set<nat>, sig: Signal)
    requires log <= more && earlier <= from && forall g :: g in groups ==> SignalledWith(log, from, g, sig)
    ensures forall g :: g in groups ==> SignalledWith(more, earlier, g, sig)
  {
    forall g | g in groups
      ensures SignalledWith(more, earlier, g, sig)
    {
      var k :| from <= k < |log| && log[k].Sent? && log[k].group == g && log[k].sig == sig;
      assert more[k] == log[k];
    }
  }

  lemma AliveStays(log: seq<Event>, more: seq<Event>, from: nat, live: set<nat>)
    requires log <= more && forall g :: g in live ==> SeenAlive(log, from, g)
    ensures forall g :: g in live ==> SeenAlive(more, from, g)
  {
    forall g | g in live
      ensures SeenAlive(more, from, g)
    {
      var k :| from <= k < |log| && log[k].Probed? && log[k].group == g && log[k].answer != NoSuchGroup;
      assert more[k] == log[k];
    }
  }

  /** Some signal to an owned group since then was not permitted; a best-effort one does not count. */
  ghost predicate Refused(log: seq<Event>, from: nat) {
    exists k :: from <= k < |log| && log[k].Sent? && log[k].answer == NotPermitted
  }

  /** Whether one was refused is whether it was before some point, or after. */
  lemma RefusedSplits(before: seq<Event>, log: seq<Event>, from: nat)
    requires before <= log && from <= |before|
    ensures Refused(log, from) <==> Refused(before, from) || Refused(log, |before|)
  {
    assert forall k :: 0 <= k < |before| ==> log[k] == before[k];
  }

  /** What the system answers to the `k`-th call. */
  predicate IsAnswer(os: System, k: nat, e: Event) {
    match e
    case Probed(group, answer) => answer == os.probe(k, group)
    case Sent(group, sig, answer) => answer == os.send(k, group, sig)
    case Tried(group, sig, answer) => answer == os.send(k, group, sig)
  }

  /** Every answer since then is the system's. */
  ghost predicate Answered(os: System, log: seq<Event>, from: nat) {
    forall k :: from <= k < |log| ==> IsAnswer(os, k, log[k])
  }

  /** A system that lets every group be signalled. */
  ghost predicate PermitsAll(os: System) {
    forall n, g, sig :: os.send(n, g, sig) != NotPermitted
  }

  /** A system that lets no group be signalled. */
  ghost predicate ForbidsAll(os: System) {
    forall n, g, sig :: os.send(n, g, sig) == NotPermitted
  }

  lemma ForbiddenIsRefused(os: System, log: seq<Event>, from: nat, groups: set<nat>, sig: Signal)
    requires Answered(os, log, from) && ForbidsAll(os)
    requires groups != {} && forall g :: g in groups ==> SignalledWith(log, from, g, sig)
    ensures Refused(log, from)
  {
    var g :| g in groups;
    assert SignalledWith(log, from, g, sig);
    assert forall k :: from <= k < |log| ==> IsAnswer(os, k, log[k]);
  }

  lemma NeverRefusedWhenPermitted(os: System, log: seq<Event>, from: nat)
    requires Answered(os, log, from)
    ensures PermitsAll(os) ==> !Refused(log, from)
  {
    assert forall k :: from <= k < |log| ==> IsAnswer(os, k, log[k]);
  }

  /** The groups of everything that snapshot makes the command's own, but for the runner's. */
  ghost predicate Covers(groups: set<nat>, s: Snapshot) {
    UniquePids(s.rows) ==> exists pids :: Processes.Least(s, pids) && GroupsOf(s, pids) - {s.runnerGroup} <= groups
  }

  lemma CoversMore(groups: set<nat>, more: set<nat>, s: Snapshot)
    requires Covers(groups, s) && groups <= more
    ensures Covers(more, s)
  {
  }

  ghost predicate Ascending(s: seq<nat>) {
    forall i, j :: 0 <= i < j < |s| ==> s[i] < s[j]
  }

  /** Only looks: each at one of the groups, and those that answered are among the live. */
  ghost predicate Looked(log: seq<Event>, from: nat, groups: set<nat>, live: set<nat>) {
    forall k :: from <= k < |log| ==>
      log[k].Probed? && log[k].group in groups && (log[k].answer != NoSuchGroup ==> log[k].group in live)
  }

  predicate IsKill(e: Event) {
    (e.Sent? || e.Tried?) && e.sig == Kill
  }

  ghost predicate NoKill(log: seq<Event>, from: nat) {
    forall k :: from <= k < |log| ==> !IsKill(log[k])
  }

  /** The group was asked to stop more than `wait` calls before the `k`-th. */
  ghost predicate AskedBefore(log: seq<Event>, from: nat, k: nat, wait: nat)
    requires k < |log|
  {
    exists j :: from <= j && j + wait < k && log[j].Sent? && log[j].group == log[k].group && log[j].sig == Term
  }

  /** No group is killed that was not asked to stop and given the time to. */
  ghost predicate KillsFollow(log: seq<Event>, from: nat, wait: nat) {
    forall k :: from <= k < |log| && IsKill(log[k]) ==> AskedBefore(log, from, k, wait)
  }

  /** Every group that was seen alive was asked to stop. */
  ghost predicate Asked(log: seq<Event>, from: nat, groups: set<nat>) {
    forall g :: g in groups && SeenAlive(log, from, g) ==> SignalledWith(log, from, g, Term)
  }

  /** By the `m`-th call each of the groups was asked to stop, and nothing was killed yet. */
  ghost predicate AskedFirst(log: seq<Event>, from: nat, m: nat, groups: set<nat>) {
    from <= m <= |log| && NoKill(log[..m], from) && forall g :: g in groups ==> SignalledWith(log[..m], from, g, Term)
  }

  /** All that the snapshot makes the command's own was asked to stop before anything was killed. */
  ghost predicate OwnAskedFirst(log: seq<Event>, from: nat, s: Snapshot) {
    UniquePids(s.rows) ==>
      exists pids, m :: Processes.Least(s, pids) && AskedFirst(log, from, m, GroupsOf(s, pids) - {s.runnerGroup})
  }

  lemma AskedFirstStays(log: seq<Event>, more: seq<Event>, from: nat, m: nat, groups: set<nat>)
    requires log <= more && AskedFirst(log, from, m, groups)
    ensures AskedFirst(more, from, m, groups)
  {
    assert more[..m] == log[..m];
  }

  lemma KillsFollowFrom(log: seq<Event>, from: nat, earlier: nat, wait: nat)
    requires earlier <= from <= |log| && NoKill(log[..from], earlier) && KillsFollow(log, from, wait)
    ensures KillsFollow(log, earlier, wait)
  {
    assert forall k :: 0 <= k < from ==> log[..from][k] == log[k];
    forall k | earlier <= k < |log| && IsKill(log[k])
      ensures AskedBefore(log, earlier, k, wait)
    {
      assert AskedBefore(log, from, k, wait);
    }
  }

  /** Asking, then waiting, then killing some of those asked. */
  lemma KillsFollowAsking(log1: seq<Event>, log2: seq<Event>, log: seq<Event>, from: nat, live: set<nat>, wait: nat)
    requires log1 <= log2 <= log && |log1| + wait < |log2| && NoKill(log2, from)
    requires forall g :: g in live ==> SignalledWith(log1, from, g, Term)
    requires forall k :: |log2| <= k < |log| ==> log[k].group in live
    ensures KillsFollow(log, from, wait)
  {
    assert forall k :: 0 <= k < |log2| ==> log[k] == log2[k];
    forall k | from <= k < |log| && IsKill(log[k])
      ensures AskedBefore(log, from, k, wait)
    {
      var j :| from <= j < |log1| && log1[j].Sent? && log1[j].group == log[k].group && log1[j].sig == Term;
      assert log[j] == log1[j];
    }
  }

  /** Only these groups were looked at or signalled. */
  ghost predicate Touches(log: seq<Event>, from: nat, groups: set<nat>) {
    forall k :: from <= k < |log| ==> log[k].group in groups && !log[k].Tried?
  }

  /** Who answers a first look and is asked, and who is touched later on, was asked. */
  lemma AllAsked(log1: seq<Event>, log: seq<Event>, from: nat, groups: set<nat>, live: set<nat>)
    requires log1 <= log && from <= |log1| && Looked(log1, from, groups, live) && Touches(log, |log1|, live)
    requires forall g :: g in live ==> SignalledWith(log, |log1|, g, Term)
    ensures Asked(log, from, groups)
  {
    forall g | g in groups && SeenAlive(log, from, g)
      ensures SignalledWith(log, from, g, Term)
    {
      var k :| from <= k < |log| && log[k].Probed? && log[k].group == g && log[k].answer != NoSuchGroup;
      assert k < |log1| ==> log1[k] == log[k];
      SignalMoves(log, log, |log1|, from, live, Term);
    }
  }

  /** Exactly the groups of everything that snapshot makes the command's own, but for the runner's, which is never one. */
  ghost predicate Owns(groups: set<nat>, s: Snapshot) {
    && s.runnerGroup !in groups
    && (UniquePids(s.rows) ==> exists pids :: Processes.Least(s, pids) && groups == GroupsOf(s, pids) - {s.runnerGroup})
  }

  /** Exactly those of two snapshots. */
  ghost predicate OwnsBoth(groups: set<nat>, s: Snapshot, later: Snapshot) {
    exists own, more :: Owns(own, s) && Owns(more, later) && groups == own + more
  }

  /** How the command's run ends for its caller. */
  datatype Result = Code(code: int) | Raised

  /** How the wait for the command ends. */
  datatype Wait = Exited(code: int) | TimedOut | Interrupted

  /** The root's own group asked to stop, looked at where it can be, and killed unless it was gone. */
  function RootLog(os: System, at: nat, root: nat, looked: bool, killed: bool): seq<Event> {
    var asked := [Tried(root, Term, os.send(at, root, Term))];
    var seen := if looked then asked + [Probed(root, os.probe(at + 1, root))] else asked;
    if killed then seen + [Tried(root, Kill, os.send(at + |seen|, root, Kill))] else seen
  }

  class Runner {
    const os: System
    var log: seq<Event>

    constructor (os: System)
      ensures this.os == os && log == []
    {
      this.os, log := os, [];
    }

    method Probe(group: nat) returns (a: Answer)
      modifies this
      ensures log == old(log) + [Probed(group, a)] && a == os.probe(|old(log)|, group)
      ensures Answered(os, log, |old(log)|) && !Refused(log, |old(log)|)
    {
      a := os.probe(|log|, group);
      log := log + [Probed(group, a)];
    }

    method Send(group: nat, sig: Signal) returns (a: Answer)
      modifies this
      ensures log == old(log) + [Sent(group, sig, a)] && a == os.send(|old(log)|, group, sig)
      ensures Answered(os, log, |old(log)|) && (Refused(log, |old(log)|) <==> a == NotPermitted)
    {
      a := os.send(|log|, group, sig);
      log := log + [Sent(group, sig, a)];
      assert log[|log| - 1] == Sent(group, sig, a);
    }

    /** The groups that answer; each of the others was just seen dead. */
    method LiveProcessGroups(groups: set<nat>) returns (live: set<nat>)
      modifies this
      ensures old(log) <= log && live <= groups
      ensures AllSeenDead(log, |old(log)|, groups - live)
      ensures forall g :: g in live ==> SeenAlive(log, |old(log)|, g)
      ensures Looked(log, |old(log)|, groups, live)
      ensures Answered(os, log, |old(log)|) && !Refused(log, |old(log)|)
    {
      live := {};
      var left := groups;
      while left != {}
        invariant old(log) <= log && live <= groups && left <= groups
        invariant AllSeenDead(log, |old(log)|, groups - left - live)
        invariant forall g :: g in live ==> SeenAlive(log, |old(log)|, g)
        invariant Looked(log, |old(log)|, groups, live)
        invariant Answered(os, log, |old(log)|) && !Refused(log, |old(log)|)
        decreases |left|
      {
        var group :| group in left;
        ghost var before := log;
        var answer := Probe(group);
        SeenDeadStays(before, log, |old(log)|, |old(log)|, groups - left - live);
        AliveStays(before, log, |old(log)|, live);
        RefusedSplits(before, log, |old(log)|);
        assert log[|before|] == Probed(group, answer);
        left := left - {group};
        if answer != NoSuchGroup {
          live := live + {group};
        }
      }
    }

    /** The groups in ascending order. */
    method Sorted(groups: set<nat>) returns (r: seq<nat>)
      ensures Ascending(r) && forall g :: g in r <==> g in groups
    {
      r := [];
      var left := groups;
      while left != {}
        invariant left <= groups && Ascending(r) && forall g :: g in r <==> g in groups - left
        invariant forall g, h :: g in r && h in left ==> g < h
        decreases |left|
      {
        var least := Least(left);
        assert forall i :: 0 <= i < |r| ==> r[i] in r;
        r, left := r + [least], left - {least};
      }
    }

    method Least(groups: set<nat>) returns (least: nat)
      requires groups != {}
      ensures least in groups && forall g :: g in groups ==> least <= g
    {
      least :| least in groups;
      var left := groups - {least};
      while left != {}
        invariant left <= groups && least in groups && least !in left
        invariant forall g :: g in groups && g !in left ==> least <= g
        decreases |left|
      {
        var g :| g in left;
        left := left - {g};
        if g < least {
          least := g;
        }
      }
    }

    /** Signals descendants before the root's group; a group that may not be signalled raises. */
    method SignalProcessGroups(groups: set<nat>, root: nat, sig: Signal) returns (ok: bool, ghost ordered: seq<nat>)
      modifies this
      ensures old(log) <= log
      ensures (forall g :: g in ordered <==> g in groups)
      ensures root in groups ==> ordered != [] && ordered[|ordered| - 1] == root && Ascending(ordered[..|ordered| - 1])
      ensures root !in groups ==> Ascending(ordered)
      ensures |log| - |old(log)| <= |ordered|
      ensures forall k :: |old(log)| <= k < |log| ==> log[k].Sent? && log[k].group == ordered[k - |old(log)|] && log[k].sig == sig
      ensures ok ==> |log| == |old(log)| + |ordered| && forall g :: g in groups ==> SignalledWith(log, |old(log)|, g, sig)
      ensures Answered(os, log, |old(log)|) && (ok <==> !Refused(log, |old(log)|))
    {
      var order := Sorted(groups - {root});
      ghost var others := order;
      if root in groups {
        order := order + [root];
        assert order[..|order| - 1] == others;
      }
      ordered := order;
      ghost var start := |log|;
      for i := 0 to |order|
        invariant old(log) <= log && |log| == start + i
        invariant forall k :: start <= k < |log| ==> log[k].Sent? && log[k].group == order[k - start] && log[k].sig == sig
        invariant Answered(os, log, start) && !Refused(log, start)
      {
        ghost var before := log;
        var answer := Send(order[i], sig);
        RefusedSplits(before, log, start);
        if answer == NotPermitted {
          assert log[|log| - 1].Sent? && log[|log| - 1].answer == NotPermitted;
          return false, ordered;
        }
      }
      ok := true;
      forall g | g in groups
        ensures SignalledWith(log, |old(log)|, g, sig)
      {
        assert g in order;
        var i :| 0 <= i < |order| && order[i] == g;
        assert log[start + i].Sent? && log[start + i].group == g;
      }
    }

    /** Polls until no group answers or the time is up; `polls` is how many polls the time allows. */
    method WaitForProcessGroups(groups: set<nat>, polls: nat) returns (gone: bool)
      modifies this
      ensures old(log) <= log && (gone ==> AllSeenDead(log, |old(log)|, groups))
      ensures !gone ==> SomeSeenAlive(log, |old(log)|, groups)
      ensures !gone ==> |log| > |old(log)| + polls
      ensures Looked(log, |old(log)|, groups, groups)
      ensures Answered(os, log, |old(log)|) && !Refused(log, |old(log)|)
    {
      var k := 0;
      while true
        invariant old(log) <= log && k <= polls && |log| >= |old(log)| + k
        invariant Looked(log, |old(log)|, groups, groups)
        invariant Answered(os, log, |old(log)|) && !Refused(log, |old(log)|)
        decreases polls - k
      {
        ghost var before, log0 := |log|, log;
        var live := LiveProcessGroups(groups);
        RefusedSplits(log0, log, |old(log)|);
        if live == {} {
          assert groups - live == groups;
          SeenDeadStays(log, log, before, |old(log)|, groups);
          return true;
        }
        var g :| g in live;
        assert SeenAlive(log, before, g);
        assert |log| > before;
        if k >= polls {
          assert SeenAlive(log, |old(log)|, g);
          return false;
        }
        k := k + 1;
      }
    }

    /** Best-effort signal to the one group that is known without a process table. */
    method SignalKnownRootGroup(root: nat, sig: Signal)
      modifies this
      ensures log == old(log) + [Tried(root, sig, os.send(|old(log)|, root, sig))]
      ensures Answered(os, log, |old(log)|) && !Refused(log, |old(log)|)
    {
      var answer := os.send(|log|, root, sig);
      log := log + [Tried(root, sig, answer)];
    }

    /** Kills the groups that answer still, and waits until they are gone. */
    method KillStubborn(live: set<nat>, root: nat, polls: nat) returns (raised: bool, clean: bool)
      modifies this
      ensures old(log) <= log && Answered(os, log, |old(log)|)
      ensures (raised <==> Refused(log, |old(log)|)) && (raised ==> !clean)
      ensures clean ==> AllSeenDead(log, |old(log)|, live)
      ensures !clean && !raised ==> SomeSeenAlive(log, |old(log)|, live) && |log| > |old(log)| + polls
      ensures !raised ==> Handled(log, |old(log)|, live)
      ensures Touches(log, |old(log)|, live)
    {
      raised, clean := false, false;
      var stubborn := LiveProcessGroups(live);
      ghost var log1 := log;
      var killSent, _ := SignalProcessGroups(stubborn, root, Kill);
      RefusedSplits(log1, log, |old(log)|);
      if !killSent {
        raised := true;
        return;
      }
      ghost var log2 := log;
      clean := WaitForProcessGroups(stubborn, polls);
      RefusedSplits(log2, log, |old(log)|);
      SeenDeadStays(log1, log, |old(log)|, |old(log)|, live - stubborn);
      SignalMoves(log2, log, |log1|, |old(log)|, stubborn, Kill);
      if clean {
        SeenDeadStays(log, log, |log2|, |old(log)|, stubborn);
        assert live == stubborn + (live - stubborn);
      } else {
        SomeAliveStays(log, log, |log2|, |old(log)|, stubborn, live);
      }
    }

    /** Stops the groups that still answer, with Term and then Kill; true only once each was seen dead. */
    method StopLive(live: set<nat>, root: nat, polls: (nat, nat)) returns (raised: bool, clean: bool, killed: bool)
      modifies this
      ensures old(log) <= log && Answered(os, log, |old(log)|)
      ensures (raised <==> Refused(log, |old(log)|)) && (raised ==> !clean)
      ensures clean ==> AllSeenDead(log, |old(log)|, live)
      ensures !clean && !raised ==> SomeSeenAlive(log, |old(log)|, live) && |log| > |old(log)| + polls.0 + polls.1
      ensures !raised ==> Handled(log, |old(log)|, live) && forall g :: g in live ==> SignalledWith(log, |old(log)|, g, Term)
      ensures Touches(log, |old(log)|, live) && KillsFollow(log, |old(log)|, polls.0)
      ensures if killed then |log| > |old(log)| + polls.0 else NoKill(log, |old(log)|)
    {
      raised, clean, killed := false, false, false;
      var sent, _ := SignalProcessGroups(live, root, Term);
      if !sent {
        raised := true;
        return;
      }
      ghost var log1 := log;
      var gone := WaitForProcessGroups(live, polls.0);
      RefusedSplits(log1, log, |old(log)|);
      SignalStays(log1, log, |old(log)|, live, Term);
      if gone {
        SeenDeadStays(log, log, |log1|, |old(log)|, live);
        clean := true;
        return;
      }
      ghost var log2 := log;
      killed := true;
      raised, clean := KillStubborn(live, root, polls.1);
      KillsFollowAsking(log1, log2, log, |old(log)|, live, polls.0);
      RefusedSplits(log2, log, |old(log)|);
      SignalStays(log2, log, |old(log)|, live, Term);
      if clean {
        SeenDeadStays(log, log, |log2|, |old(log)|, live);
      } else if !raised {
        SomeAliveStays(log, log, |log2|, |old(log)|, live, live);
      }
      if !raised {
        HandledStays(log, log, |log2|, |old(log)|, live);
      }
    }

    /** Stops those of the groups that answer; true only once each of all was seen dead. */
    method StopLeftBehind(groups: set<nat>, root: nat, polls: (nat, nat)) returns (raised: bool, clean: bool, killed: bool)
      modifies this
      ensures old(log) <= log && Answered(os, log, |old(log)|)
      ensures (raised <==> Refused(log, |old(log)|)) && (raised ==> !clean)
      ensures clean ==> AllSeenDead(log, |old(log)|, groups)
      ensures !clean && !raised ==> SomeSeenAlive(log, |old(log)|, groups) && |log| > |old(log)| + polls.0 + polls.1
      ensures !raised ==> Handled(log, |old(log)|, groups) && Asked(log, |old(log)|, groups)
      ensures Touches(log, |old(log)|, groups) && KillsFollow(log, |old(log)|, polls.0)
      ensures if killed then |log| > |old(log)| + polls.0 else NoKill(log, |old(log)|)
    {
      raised, clean, killed := false, false, false;
      var live := LiveProcessGroups(groups);
      if live == {} {
        assert groups - live == groups;
        clean := true;
        return;
      }
      ghost var log1 := log;
      raised, clean, killed := StopLive(live, root, polls);
      assert log[..|log1|] == log1;
      KillsFollowFrom(log, |log1|, |old(log)|, polls.0);
      RefusedSplits(log1, log, |old(log)|);
      SeenDeadStays(log1, log, |old(log)|, |old(log)|, groups - live);
      if !raised {
        HandledStays(log, log, |log1|, |old(log)|, live);
        assert groups == live + (groups - live);
        AllAsked(log1, log, |old(log)|, groups, live);
      }
      if clean {
        SeenDeadStays(log, log, |log1|, |old(log)|, live);
      } else if !raised {
        SomeAliveStays(log, log, |log1|, |old(log)|, live, groups);
      }
    }

    /** Stops whatever a finished command left behind; `clean` is the proof that all of it exited. */
    method AuditCompletedCommand(root: nat, scan: Option<Snapshot>, polls: (nat, nat))
      returns (raised: bool, clean: bool, killed: bool, ghost groups: set<nat>)
      modifies this
      ensures old(log) <= log && Answered(os, log, |old(log)|)
      ensures (raised <==> Refused(log, |old(log)|)) && (raised ==> !clean)
      ensures clean ==> scan.Some? && AllSeenDead(log, |old(log)|, groups)
      ensures scan.Some? && !clean && !raised ==> SomeSeenAlive(log, |old(log)|, groups) && |log| > |old(log)| + polls.0 + polls.1
      ensures scan.Some? ==> Owns(groups, scan.value) && Covers(groups, scan.value) && (!raised ==> Handled(log, |old(log)|, groups))
      ensures scan.Some? ==> Touches(log, |old(log)|, groups) && KillsFollow(log, |old(log)|, polls.0)
      ensures scan.Some? && !raised ==> Asked(log, |old(log)|, groups)
      ensures if killed then scan.Some? ==> |log| > |old(log)| + polls.0 else NoKill(log, |old(log)|)
      ensures scan.None? ==>
        && !clean && log == old(log) + RootLog(os, |old(log)|, root, true, killed)
        && (killed <==> os.probe(|old(log)| + 1, root) != NoSuchGroup)
    {
      raised, clean, killed, groups := false, false, false, {};
      if scan.None? {
        SignalKnownRootGroup(root, Term);
        var answer := Probe(root);
        if answer != NoSuchGroup {
          SignalKnownRootGroup(root, Kill);
          killed := true;
        }
        return;
      }
      var owned, pids := OwnedProcesses(scan.value);
      groups := owned;
      raised, clean, killed := StopLeftBehind(owned, root, polls);
    }

    /** After the kill: waits for the groups that still answer. */
    method ConfirmGone(groups: set<nat>, polls: nat) returns (clean: bool)
      modifies this
      ensures old(log) <= log && (clean ==> AllSeenDead(log, |old(log)|, groups))
      ensures !clean ==> SomeSeenAlive(log, |old(log)|, groups) && |log| > |old(log)| + polls
      ensures Looked(log, |old(log)|, groups, groups)
      ensures Answered(os, log, |old(log)|) && !Refused(log, |old(log)|)
    {
      var remaining := LiveProcessGroups(groups);
      ghost var log1 := log;
      clean := WaitForProcessGroups(remaining, polls);
      SeenDeadStays(log1, log, |old(log)|, |old(log)|, groups - remaining);
      if clean {
        SeenDeadStays(log, log, |log1|, |old(log)|, remaining);
        assert groups == remaining + (groups - remaining);
      } else {
        SomeAliveStays(log, log, |log1|, |old(log)|, remaining, groups);
      }
    }

    /** The command exited on Term: kills what is still there, and proves it gone. */
    method KillRemaining(groups: set<nat>, root: nat, polls: nat) returns (raised: bool, clean: bool, killed: bool)
      modifies this
      ensures old(log) <= log && Answered(os, log, |old(log)|)
      ensures (raised <==> Refused(log, |old(log)|)) && (raised ==> !clean)
      ensures clean ==> AllSeenDead(log, |old(log)|, groups)
      ensures !clean && !raised ==> SomeSeenAlive(log, |old(log)|, groups) && |log| > |old(log)| + polls
      ensures !raised ==> Handled(log, |old(log)|, groups)
      ensures Touches(log, |old(log)|, groups) && (!killed ==> clean && NoKill(log, |old(log)|))
      ensures killed ==> SomeSeenAlive(log, |old(log)|, groups)
    {
      raised, clean, killed := false, false, false;
      var live := LiveProcessGroups(groups);
      if live == {} {
        assert groups - live == groups;
        clean := true;
        return;
      }
      ghost var log1 := log;
      killed := true;
      var sent, _ := SignalProcessGroups(live, root, Kill);
      if !sent {
        raised := true;
        return;
      }
      ghost var log2 := log;
      clean := WaitForProcessGroups(live, polls);
      SeenDeadStays(log1, log, |old(log)|, |old(log)|, groups - live);
      SignalMoves(log2, log, |log1|, |old(log)|, live, Kill);
      if clean {
        SeenDeadStays(log, log, |log2|, |old(log)|, live);
        assert groups == live + (groups - live);
      } else {
        SomeAliveStays(log, log, |log2|, |old(log)|, live, groups);
      }
    }

    /** After the second look: kills what is left of the groups, and waits until it is gone. */
    method StopFound(groups: set<nat>, root: nat, exitedOnTerm: bool, polls: nat)
      returns (raised: bool, clean: bool, killed: bool)
      modifies this
      ensures old(log) <= log && Answered(os, log, |old(log)|)
      ensures (raised <==> Refused(log, |old(log)|)) && (raised ==> !clean)
      ensures clean ==> AllSeenDead(log, |old(log)|, groups)
      ensures !clean && !raised ==> SomeSeenAlive(log, |old(log)|, groups) && |log| > |old(log)| + polls
      ensures !raised ==> Handled(log, |old(log)|, groups)
      ensures Touches(log, |old(log)|, groups) && (!killed ==> exitedOnTerm && clean && NoKill(log, |old(log)|))
      ensures killed && exitedOnTerm ==> SomeSeenAlive(log, |old(log)|, groups)
    {
      if exitedOnTerm {
        raised, clean, killed := KillRemaining(groups, root, polls);
        return;
      }
      raised, clean, killed := false, false, true;
      var killSent, _ := SignalProcessGroups(groups, root, Kill);
      if !killSent {
        raised := true;
        return;
      }
      ghost var log1 := log;
      clean := ConfirmGone(groups, polls);
      RefusedSplits(log1, log, |old(log)|);
      SignalMoves(log1, log, |old(log)|, |old(log)|, groups, Kill);
      if clean {
        SeenDeadStays(log, log, |log1|, |old(log)|, groups);
      } else {
        SomeAliveStays(log, log, |log1|, |old(log)|, groups, groups);
      }
    }

    /** Asks the groups of the first look to stop, looks again, and stops what either look found. */
    method StopOwned(owned: set<nat>, root: nat, exitedOnTerm: bool, later: Option<Snapshot>, polls: nat)
      returns (raised: bool, clean: bool, killed: bool, ghost more: set<nat>)
      modifies this
      ensures old(log) <= log && Answered(os, log, |old(log)|)
      ensures (raised <==> Refused(log, |old(log)|)) && (raised ==> !clean)
      ensures later.Some? && !raised ==> Owns(more, later.value) && Covers(more, later.value)
      ensures clean ==> later.Some? && AllSeenDead(log, |old(log)|, owned + more)
      ensures later.Some? && !clean && !raised ==> SomeSeenAlive(log, |old(log)|, owned + more) && |log| > |old(log)| + polls
      ensures later.Some? && !raised ==> Touches(log, |old(log)|, owned + more) && Handled(log, |old(log)|, owned + more)
      ensures later.Some? && !raised && !killed ==> exitedOnTerm && clean && NoKill(log, |old(log)|)
      ensures later.None? && !raised ==>
        killed && log != [] && log[|log| - 1] == Tried(root, Kill, os.send(|log| - 1, root, Kill))
      ensures NoKill(log, |old(log)|) || exists m :: AskedFirst(log, |old(log)|, m, owned)
      ensures !raised ==> exists m :: AskedFirst(log, |old(log)|, m, owned)
      ensures ForbidsAll(os) && owned != {} ==> raised
    {
      raised, clean, killed, more := false, false, false, {};
      var sent, _ := SignalProcessGroups(owned, root, Term);
      if !sent {
        raised := true;
        return;
      }
      if ForbidsAll(os) && owned != {} {
        ForbiddenIsRefused(os, log, |old(log)|, owned, Term);
      }
      ghost var log1 := log;
      assert log1[..|log1|] == log1;
      assert AskedFirst(log1, |old(log)|, |log1|, owned);
      if later.None? {
        SignalKnownRootGroup(root, Kill);
        RefusedSplits(log1, log, |old(log)|);
        AskedFirstStays(log1, log, |old(log)|, |log1|, owned);
        killed := true;
        return;
      }
      var laterOwned, laterPids := OwnedProcesses(later.value);
      more := laterOwned;
      raised, clean, killed := StopFound(owned + laterOwned, root, exitedOnTerm, polls);
      AskedFirstStays(log1, log, |old(log)|, |log1|, owned);
      RefusedSplits(log1, log, |old(log)|);
      if !raised {
        HandledStays(log, log, |log1|, |old(log)|, owned + more);
      }
      if clean {
        SeenDeadStays(log, log, |log1|, |old(log)|, owned + more);
      } else if !raised {
        SomeAliveStays(log, log, |log1|, |old(log)|, owned + more, owned + more);
      }
    }

    /** Stops a command that ran out of time: two looks at the process table, one before and one after Term. */
    method StopProcessGroup(root: nat, first: Option<Snapshot>, exitedOnTerm: bool, later: Option<Snapshot>, polls: nat)
      returns (raised: bool, clean: bool, killed: bool, ghost groups: set<nat>)
      modifies this
      ensures old(log) <= log && Answered(os, log, |old(log)|)
      ensures (raised <==> Refused(log, |old(log)|)) && (raised ==> !clean)
      ensures clean ==> first.Some? && later.Some? && AllSeenDead(log, |old(log)|, groups)
      ensures clean ==> Covers(groups, first.value) && Covers(groups, later.value)
      ensures first.Some? && later.Some? && !clean && !raised ==>
        SomeSeenAlive(log, |old(log)|, groups) && |log| > |old(log)| + polls
      ensures first.Some? && later.Some? && !raised ==>
        Covers(groups, first.value) && Covers(groups, later.value) && Handled(log, |old(log)|, groups)
      ensures first.Some? && later.Some? && !raised ==> OwnsBoth(groups, first.value, later.value)
      ensures first.Some? && later.Some? && !raised ==> Touches(log, |old(log)|, groups)
      ensures first.Some? && later.Some? && !raised && !killed ==> exitedOnTerm && clean && NoKill(log, |old(log)|)
      ensures first.Some? && later.None? && !raised ==>
        killed && log != [] && log[|log| - 1] == Tried(root, Kill, os.send(|log| - 1, root, Kill))
      ensures first.Some? ==> NoKill(log, |old(log)|) || OwnAskedFirst(log, |old(log)|, first.value)
      ensures first.Some? && !raised ==> OwnAskedFirst(log, |old(log)|, first.value)
      ensures first.None? ==>
        && !raised && !clean && log == old(log) + RootLog(os, |old(log)|, root, exitedOnTerm, killed)
        && (killed <==> !exitedOnTerm || os.probe(|old(log)| + 1, root) != NoSuchGroup)
      ensures first.Some? && ForbidsAll(os) && !Covers({}, first.value) ==> raised
    {
      raised, clean, killed, groups := false, false, false, {};
      if first.None? {
        killed := StopKnownRootGroup(root, exitedOnTerm);
        return;
      }
      var owned, pids := OwnedProcesses(first.value);
      ghost var more;
      raised, clean, killed, more := StopOwned(owned, root, exitedOnTerm, later, polls);
      groups := owned + more;
      CoversMore(owned, groups, first.value);
      if later.Some? && !raised {
        CoversMore(more, groups, later.value);
        assert Owns(owned, first.value) && Owns(more, later.value);
      }
    }

    /** Without a process table: Term, and Kill unless the root's group was seen dead. */
    method StopKnownRootGroup(root: nat, exitedOnTerm: bool) returns (killed: bool)
      modifies this
      ensures old(log) <= log && Answered(os, log, |old(log)|) && !Refused(log, |old(log)|)
      ensures log == old(log) + RootLog(os, |old(log)|, root, exitedOnTerm, killed)
      ensures killed <==> !exitedOnTerm || os.probe(|old(log)| + 1, root) != NoSuchGroup
    {
      SignalKnownRootGroup(root, Term);
      if exitedOnTerm {
        var answer := Probe(root);
        if answer == NoSuchGroup {
          return false;
        }
      }
      SignalKnownRootGroup(root, Kill);
      killed := true;
    }

    /**
      Builds, runs and cleans up after one command.  `build` is the build's code for a cargo command;
      `spawns` is whether the command could be started.
     */
    method RunCommand(build: Option<int>, spawns: bool, root: nat, wait: Wait, first: Option<Snapshot>, exitedOnTerm: bool,
                      later: Option<Snapshot>, polls: (nat, nat))
      returns (r: Result, ghost clean: bool, ghost groups: set<nat>)
      modifies this
      ensures build.Some? && build.value != 0 ==> r == Code(build.value) && log == old(log)
      ensures !(build.Some? && build.value != 0) && !spawns ==> r == Raised && log == old(log)
      ensures Started(build, spawns) && r.Code? && !clean ==> r.code == 125
      ensures Started(build, spawns) && r.Code? && clean ==> r.code == if wait.Exited? then wait.code else 124
      ensures Started(build, spawns) && clean ==> first.Some? && AllSeenDead(log, |old(log)|, groups) && Covers(groups, first.value)
      ensures Started(build, spawns) && clean && !wait.Exited? ==> later.Some? && Covers(groups, later.value)
      ensures Started(build, spawns) && r.Code? && wait.Exited? && first.Some? ==>
        Covers(groups, first.value) && Handled(log, |old(log)|, groups)
      ensures Started(build, spawns) && r.Code? && !wait.Exited? && first.Some? && later.Some? ==>
        Covers(groups, first.value) && Covers(groups, later.value) && Handled(log, |old(log)|, groups)
      ensures old(log) <= log && Answered(os, log, |old(log)|)
      ensures Started(build, spawns) && !wait.Interrupted? ==> (r.Raised? <==> Refused(log, |old(log)|))
      ensures Started(build, spawns) && !wait.Interrupted? && PermitsAll(os) && !clean ==> r == Code(125)
      ensures Started(build, spawns) && wait.TimedOut? && first.None? ==> r == Code(125)
      ensures Started(build, spawns) && wait.TimedOut? && first.Some? && ForbidsAll(os) && !Covers({}, first.value) ==> r == Raised
      ensures Started(build, spawns) && r.Code? && !clean && first.Some? && (wait.Exited? || later.Some?) ==>
        SomeSeenAlive(log, |old(log)|, groups) && |log| > |old(log)| + polls.1 + if wait.Exited? then polls.0 else 0
      ensures Started(build, spawns) && wait.Exited? && first.Some? ==>
        && Owns(groups, first.value) && Touches(log, |old(log)|, groups) && KillsFollow(log, |old(log)|, polls.0)
        && (r.Code? ==> Asked(log, |old(log)|, groups))
      ensures Started(build, spawns) && !wait.Exited? && first.Some? ==>
        NoKill(log, |old(log)|) || OwnAskedFirst(log, |old(log)|, first.value)
      ensures Started(build, spawns) && r.Code? && !wait.Exited? && first.Some? ==> OwnAskedFirst(log, |old(log)|, first.value)
      ensures Started(build, spawns) && r.Code? && !wait.Exited? && first.Some? && later.Some? ==>
        OwnsBoth(groups, first.value, later.value) && Touches(log, |old(log)|, groups)
      ensures Started(build, spawns) && first.None? ==>
        var looked := wait.Exited? || exitedOnTerm;
        log == old(log) + RootLog(os, |old(log)|, root, looked, !looked || os.probe(|old(log)| + 1, root) != NoSuchGroup)
      ensures wait.Interrupted? && Started(build, spawns) ==> r == Raised
    {
      clean, groups := false, {};
      if build.Some? && build.value != 0 {
        return Code(build.value), false, {};
      }
      if !spawns {
        return Raised, false, {};
      }
      match wait
      case Exited(code) =>
        var raised, proved, killed, owned := AuditCompletedCommand(root, first, polls);
        clean, groups := proved, owned;
        r := if raised then Raised else if proved then Code(code) else Code(125);
        NeverRefusedWhenPermitted(os, log, |old(log)|);
      case TimedOut =>
        var raised, proved, killed, owned := StopProcessGroup(root, first, exitedOnTerm, later, polls.1);
        clean, groups := proved, owned;
        r := if raised then Raised else if proved then Code(124) else Code(125);
        NeverRefusedWhenPermitted(os, log, |old(log)|);
      case Interrupted =>
        var raised, proved, killed, owned := StopProcessGroup(root, first, exitedOnTerm, later, polls.1);
        clean, groups := proved, owned;
        r := Raised;
    }
  }

  predicate Started(build: Option<int>, spawns: bool) {
    spawns && !(build.Some? && build.value != 0)
  }

  // ---------------------------------------------------------------------------------------------
  // A signal that is not permitted
  // ---------------------------------------------------------------------------------------------

  /** Every group answers, and none may be signalled. */
  const FORBIDDING: System := System((_, _) => Delivered, (_, _, _) => NotPermitted)

  /** The command's root in a group of its own. */
  const ROOT_ALONE: Snapshot := Snapshot([Row(7, 1, 7, 7, false)], 7, 1, 1, {}, true)

  lemma RootGroupIsCovered(groups: set<nat>)
    requires Covers(groups, ROOT_ALONE)
    ensures 7 in groups
  {
    var row := Row(7, 1, 7, 7, false);
    assert row in ROOT_ALONE.rows;
    var pids :| Processes.Least(ROOT_ALONE, pids) && GroupsOf(ROOT_ALONE, pids) - {ROOT_ALONE.runnerGroup} <= groups;
    assert 7 in Seeds(ROOT_ALONE);
    assert row.pid in pids && row.group in GroupsOf(ROOT_ALONE, pids);
  }

  /** Where nothing may be signalled and nothing dies, no group is ever handled without a refusal. */
  lemma ForbiddenIsNotHandled(log: seq<Event>, from: nat, groups: set<nat>, g: nat)
    requires Answered(FORBIDDING, log, from) && Handled(log, from, groups) && g in groups
    ensures Refused(log, from)
  {
    assert forall k :: from <= k < |log| ==> IsAnswer(FORBIDDING, k, log[k]) && log[k] != Probed(g, NoSuchGroup);
    var k :| from <= k < |log| && log[k].Sent? && log[k].group == g && log[k].sig == Kill;
    assert IsAnswer(FORBIDDING, k, log[k]);
  }

  /** A command that timed out, its cleanup unproved: the refused signal raises out of the call, and there is no 125. */
  method RefusedSignalExample() returns (r: Result, ghost log: seq<Event>)
    ensures r == Raised && Refused(log, 0) && Answered(FORBIDDING, log, 0)
  {
    var runner := new Runner(FORBIDDING);
    ghost var clean, groups;
    r, clean, groups := runner.RunCommand(None, true, 7, TimedOut, Some(ROOT_ALONE), false, Some(ROOT_ALONE), (0, 0));
    if r.Code? {
      RootGroupIsCovered(groups);
      ForbiddenIsNotHandled(runner.log, 0, groups, 7);
    }
    log := runner.log;
  }
}
