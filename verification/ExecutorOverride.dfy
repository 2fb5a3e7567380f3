/** The executor when the resolver overrides descriptor.proto. Every parsed file then also
    waits for descriptor.proto, without a cycle check, and a run can get stuck. This module
    says exactly for which files that happens. */
module ExecutorOverride {
  import opened Common
  import opened Executor
  import opened ExecutorSafety
  import opened ExecutorTheorems
  import opened ExecutorTermination

  // Some task has not returned, and no task can move.
  ghost predicate Stuck(w: World, s: State) {
    !AllExited(s) && forall t :: !CanStep(w, s, t)
  }

  // The position of the first entry of a list that has to be compiled.
  function FirstOpen(w: World, list: seq<Name>): (i: nat)
    ensures i <= |list| && (i < |list| ==> !SourceOf(w, list[i]).Prelinked?)
    ensures forall j :: 0 <= j < i ==> SourceOf(w, list[j]).Prelinked?
  {
    if list == [] || !SourceOf(w, list[0]).Prelinked? then 0 else 1 + FirstOpen(w, list[1..])
  }

  // What file `t` waits for as long as nothing but prelinked files is available.
  predicate WaitsFirstFor(w: World, t: Name, d: Name) {
    && SourceOf(w, t).Parsed?
    && var i := FirstOpen(w, BlockList(w, t)); i < Degree(w, t) && BlockList(w, t)[i] == d
  }

  ghost predicate LinkOk(w: World, p: seq<Name>, i: nat) {
    && i < |p| && WaitsFirstFor(w, p[i], if i + 1 < |p| then p[i + 1] else p[0])
    && (forall d :: d in Imports(w, p[i]) ==> d !in p[..i + 1])
  }

  /** A ring that starts at descriptor.proto: each file first waits for the next one, the last
      one for descriptor.proto, and none imports itself or an earlier one. So only the last
      edge, the implicit one, closes the ring. */
  ghost predicate Ring(w: World, p: seq<Name>) {
    w.overridden && |p| > 0 && p[0] == DESCRIPTOR_PROTO && Distinct(p) && forall i: nat :: i < |p| ==> LinkOk(w, p, i)
  }

  // --- A stuck run has a ring ---------------------------------------------------------------

  // A parsed file gets to linking only after descriptor.proto has returned.
  ghost predicate DescriptorFirst(w: World, s: State, t: Name) {
    w.overridden && t in s.tasks && t != DESCRIPTOR_PROTO && SourceOf(w, t).Parsed? &&
    (s.tasks[t].phase.Reacquiring? || s.tasks[t].phase.Linking? || Completed(s, t)) ==>
      DESCRIPTOR_PROTO in s.tasks && s.tasks[DESCRIPTOR_PROTO].phase.Finished()
  }

  // The same for a task that has passed the last entry of its list.
  lemma PassedDescriptor(w: World, s: State, t: Name)
    requires CanStep(w, s, t) && s.tasks[t].phase.Waiting? && DepsOk(w, s, t)
    requires w.overridden && SourceOf(w, t).Parsed? && t != DESCRIPTOR_PROTO
    requires forall i :: 0 <= i < s.tasks[t].phase.next ==> Arrived(w, s, t, i)
    requires s.tasks[t].phase.next == Degree(w, t)
    ensures DESCRIPTOR_PROTO in s.tasks && s.tasks[DESCRIPTOR_PROTO].phase.Finished()
  {
    var list := BlockList(w, t);
    if WantsDescriptor(w, t) {
      assert list[|list| - 1] == DESCRIPTOR_PROTO;
      assert Arrived(w, s, t, |list| - 1);
    } else {
      var i :| 0 <= i < |Imports(w, t)| && Imports(w, t)[i] == DESCRIPTOR_PROTO;
      assert Arrived(w, s, t, i);
    }
  }

  ghost predicate Arrived(w: World, s: State, t: Name, i: int) {
    0 <= i < Degree(w, t) && BlockList(w, t)[i] in s.tasks && s.tasks[BlockList(w, t)[i]].phase.Finished()
  }

  ghost predicate ArrivedOk(w: World, s: State, t: Name)
    requires t in s.tasks
  {
    s.tasks[t].phase.Waiting? ==> forall i :: 0 <= i < s.tasks[t].phase.next ==> Arrived(w, s, t, i)
  }

  ghost predicate OverrideInv(w: World, s: State) {
    forall t :: t in s.tasks ==> ArrivedOk(w, s, t) && DescriptorFirst(w, s, t)
  }

  lemma StepOverrideInv(w: World, total: nat, s: State, t: Name, linkOk: bool)
    requires Inv(w, total, s) && CanStep(w, s, t) && OverrideInv(w, s)
    ensures OverrideInv(w, Step(w, s, t, linkOk))
  {
    var s' := Step(w, s, t, linkOk);
    assert TaskOk(w, s, t);
    StepLater(w, s, t, linkOk);
    forall u | u in s'.tasks
      ensures ArrivedOk(w, s', u) && DescriptorFirst(w, s', u)
    {
      if u in s.tasks && u != t {
        OtherArrived(w, s, s', u);
      } else if u == t {
        MovedArrived(w, s, t, linkOk);
      }
    }
  }

  lemma OtherArrived(w: World, s: State, s': State, u: Name)
    requires Later(s, s') && u in s.tasks && s'.tasks[u] == s.tasks[u]
    requires ArrivedOk(w, s, u) && DescriptorFirst(w, s, u)
    ensures ArrivedOk(w, s', u) && DescriptorFirst(w, s', u)
  {
    if s.tasks[u].phase.Waiting? {
      forall i | 0 <= i < s.tasks[u].phase.next
        ensures Arrived(w, s', u, i)
      {
        assert Arrived(w, s, u, i);
      }
    }
  }

  lemma WaitArrived(w: World, s: State, t: Name)
    requires CanStep(w, s, t) && s.tasks[t].phase.Waiting? && DepsOk(w, s, t) && ArrivedOk(w, s, t)
    requires Later(s, WaitStep(w, s, t))
    ensures var s' := WaitStep(w, s, t); ArrivedOk(w, s', t) && DescriptorFirst(w, s', t)
  {
    var s' := WaitStep(w, s, t);
    forall i | s'.tasks[t].phase.Waiting? && 0 <= i < s'.tasks[t].phase.next
      ensures Arrived(w, s', t, i)
    {
      assert i < s.tasks[t].phase.next ==> Arrived(w, s, t, i);
    }
    if s'.tasks[t].phase.Reacquiring? && w.overridden && SourceOf(w, t).Parsed? && t != DESCRIPTOR_PROTO {
      PassedDescriptor(w, s, t);
    }
  }

  // Other moves start a wait, or go on towards the end.
  lemma OtherPhases(w: World, s: State, t: Name, linkOk: bool)
    requires CanStep(w, s, t) && !s.tasks[t].phase.Waiting?
        && (s.tasks[t].phase.Finished() ==> s.tasks[t].phase.Closing?)
    ensures var p, p' := s.tasks[t].phase, Step(w, s, t, linkOk).tasks[t].phase;
            && (p'.Waiting? ==> p'.next == 0)
            && !p'.Reacquiring?
            && (p'.Linking? ==> p.Reacquiring? || BlockList(w, t) == [])
            && (p'.Finished() && p'.verdict.Ok? ==>
                  p.Linking? || (p.Closing? && p.verdict == p'.verdict) || SourceOf(w, t).Prelinked?)
  {
    match s.tasks[t].phase
    case Resolving =>
    case Checking(_, _, _) => CheckingPhases(w, s, t, linkOk);
    case _ =>
  }

  lemma CheckingPhases(w: World, s: State, t: Name, linkOk: bool)
    requires t in s.tasks && s.tasks[t].phase.Checking?
    ensures var p' := Step(w, s, t, linkOk).tasks[t].phase;
            p'.Checking? || p' == Waiting(0) || (p'.Closing? && p'.verdict.CycleFound?)
  {
    var Checking(i, enter, stack) := s.tasks[t].phase;
    if enter.Some? {
      assert Step(w, s, t, linkOk) == EnterStep(s, t);
    } else if stack != [] {
      assert Step(w, s, t, linkOk) == ScanStep(s, t);
    } else if i < Degree(w, t) {
      assert Step(w, s, t, linkOk) == ImportStep(w, s, t);
    }
  }

  lemma MovedArrived(w: World, s: State, t: Name, linkOk: bool)
    requires CanStep(w, s, t) && DepsOk(w, s, t) && Later(s, Step(w, s, t, linkOk))
    requires ArrivedOk(w, s, t) && DescriptorFirst(w, s, t)
    ensures var s' := Step(w, s, t, linkOk); ArrivedOk(w, s', t) && DescriptorFirst(w, s', t)
  {
    if s.tasks[t].phase.Waiting? {
      WaitArrived(w, s, t);
    } else {
      OtherPhases(w, s, t, linkOk);
      assert w.overridden && SourceOf(w, t).Parsed? && t != DESCRIPTOR_PROTO ==> BlockList(w, t) != [];
    }
  }

  lemma {:induction false} ExecOverrideInv(w: World, total: nat, s: State, moves: seq<Move>)
    requires Inv(w, total, s) && OverrideInv(w, s) && Exec(w, s, moves).Some?
    ensures OverrideInv(w, Exec(w, s, moves).value)
    decreases |moves|
  {
    if moves != [] {
      var s' := Step(w, s, moves[0].task, moves[0].linkOk);
      StepInv(w, total, s, moves[0].task, moves[0].linkOk);
      StepOverrideInv(w, total, s, moves[0].task, moves[0].linkOk);
      ExecOverrideInv(w, total, s', moves[1..]);
    }
  }

  // The entry a waiting task waits for.
  function Awaited(w: World, s: State, t: Name): Name
    requires t in s.tasks && s.tasks[t].phase.Waiting? && s.tasks[t].phase.next < Degree(w, t)
  {
    BlockList(w, t)[s.tasks[t].phase.next]
  }

  // In a stuck state every waiting task waits for another waiting task.
  ghost predicate WaiterBlocked(w: World, s: State, t: Name) {
    && WaiterOk(w, s, t) && SourceOf(w, t).Parsed? && s.tasks[t].phase.next < Degree(w, t)
    && Awaited(w, s, t) in Waiters(s)
  }

  ghost predicate AllBlocked(w: World, s: State) {
    forall t {:trigger WaiterBlocked(w, s, t)} :: t in Waiters(s) ==> WaiterBlocked(w, s, t)
  }

  lemma StuckWaiters(w: World, total: nat, s: State)
    requires Inv(w, total, s) && total > 0 && Stuck(w, s)
    ensures Waiters(s) != {} && AllBlocked(w, s)
  {
    OnlyWaitersLeft(w, total, s);
    forall t | t in Waiters(s)
      ensures WaiterBlocked(w, s, t)
    {
      assert TaskOk(w, s, t) && !CanStep(w, s, t);
      WaiterFacts(w, s, t);
    }
  }

  lemma OnlyWaitersLeft(w: World, total: nat, s: State)
    requires s.permits + |Holders(s)| == total > 0 && Stuck(w, s)
    ensures Waiters(s) != {} && forall t :: t in s.tasks ==> s.tasks[t].phase.Waiting? || s.tasks[t].phase.Exited?
  {
    forall u
      ensures u !in Holders(s)
    {
      assert u in Holders(s) ==> CanStep(w, s, u);
    }
    assert Holders(s) == {};
    forall t | t in s.tasks
      ensures s.tasks[t].phase.Waiting? || s.tasks[t].phase.Exited?
    {
      assert t !in Holders(s) && !CanStep(w, s, t);
    }
    var t :| t in s.tasks && !s.tasks[t].phase.Exited?;
    assert t in Waiters(s);
  }

  lemma ImplicitEntry(w: World, t: Name, i: nat)
    requires i < Degree(w, t)
    ensures BlockList(w, t)[i] in Imports(w, t) || (w.overridden && BlockList(w, t)[i] == DESCRIPTOR_PROTO)
    ensures i >= |Imports(w, t)| ==> BlockList(w, t)[i] == DESCRIPTOR_PROTO && i == |Imports(w, t)|
  {
    if i < |Imports(w, t)| {
      assert BlockList(w, t)[i] == Imports(w, t)[i];
    }
  }

  lemma DescriptorWaits(w: World, s: State)
    requires DistinctStamps(s) && Waiters(s) != {} && AllBlocked(w, s)
    ensures w.overridden && DESCRIPTOR_PROTO in Waiters(s)
  {
    var waiters := Waiters(s);
    forall t | t in waiters
      ensures WaiterOk(w, s, t)
    {
      assert WaiterBlocked(w, s, t);
    }
    var t := WaitsAreWellFounded(w, s, waiters);
    assert WaiterBlocked(w, s, t);
    ImplicitEntry(w, t, s.tasks[t].phase.next);
  }

  lemma FirstOpenIs(w: World, list: seq<Name>, n: nat)
    requires n < |list| && !SourceOf(w, list[n]).Prelinked?
        && forall j :: 0 <= j < n ==> SourceOf(w, list[j]).Prelinked?
    ensures FirstOpen(w, list) == n
  {
  }

  // With descriptor.proto waiting, only prelinked files have completed.
  lemma WaitsForFirstOpen(w: World, s: State, t: Name)
    requires OverrideInv(w, s) && w.overridden && DESCRIPTOR_PROTO in Waiters(s)
    requires t in Waiters(s) && WaiterBlocked(w, s, t) && WaiterBlocked(w, s, Awaited(w, s, t)) && DepsOk(w, s, t)
    requires forall d :: Completed(s, d) ==> !SourceOf(w, d).Unavailable?
    ensures WaitsFirstFor(w, t, Awaited(w, s, t))
  {
    var list, n := BlockList(w, t), s.tasks[t].phase.next;
    forall j | 0 <= j < n
      ensures SourceOf(w, list[j]).Prelinked?
    {
      ImplicitEntry(w, t, n);
      assert list[j] == Imports(w, t)[j] && Completed(s, list[j]);
      assert DescriptorFirst(w, s, list[j]);
    }
    FirstOpenIs(w, list, n);
  }

  ghost predicate EdgeAt(w: World, s: State, p: seq<Name>, i: nat) {
    && i + 1 < |p| && p[i] in Waiters(s) && WaiterBlocked(w, s, p[i]) && Awaited(w, s, p[i]) == p[i + 1]
    && p[i + 1] in Imports(w, p[i])
  }

  // A path along what waiting tasks wait for, from descriptor.proto on.
  ghost predicate WaitPath(w: World, s: State, p: seq<Name>) {
    && |p| > 0 && p[0] == DESCRIPTOR_PROTO && Distinct(p)
    && (forall x :: x in p ==> x in Waiters(s))
    && (forall i: nat :: i + 1 < |p| ==> EdgeAt(w, s, p, i))
  }

  ghost predicate ImportsWithin(w: World, part: seq<Name>, group: set<Name>, k: nat) {
    k + 1 < |part| && part[k + 1] in Imports(w, part[k]) && part[k + 1] in group
  }

  // Each file of a part of the path imports the next one and waits.
  lemma PartImports(w: World, s: State, p: seq<Name>, j: nat, i: nat)
    requires AllBlocked(w, s) && WaitPath(w, s, p) && j <= i < |p|
    ensures var part := p[j..i + 1];
            var group := set x | x in part;
            && (forall t :: t in group ==> WaiterOk(w, s, t))
            && (forall k: nat :: k + 1 < |part| ==> ImportsWithin(w, part, group, k))
  {
    var part := p[j..i + 1];
    var group := set x | x in part;
    forall t | t in group
      ensures WaiterOk(w, s, t)
    {
      assert t in p && WaiterBlocked(w, s, t);
    }
    forall k: nat | k + 1 < |part|
      ensures ImportsWithin(w, part, group, k)
    {
      assert EdgeAt(w, s, p, j + k) && part[k] == p[j + k] && part[k + 1] == p[j + k + 1];
    }
  }

  // Published lists are searched, so no import closes a part of the path to a cycle.
  lemma NoBackEdge(w: World, s: State, p: seq<Name>, j: nat, i: nat)
    requires DistinctStamps(s) && AllBlocked(w, s) && WaitPath(w, s, p) && j <= i < |p|
    ensures p[j] !in Imports(w, p[i])
  {
    var part := p[j..i + 1];
    var group := set x | x in part;
    PartImports(w, s, p, j, i);
    assert part[0] == p[j] && part[0] in group;
    var t := WaitsAreWellFounded(w, s, group);
    var m: nat :| m < |part| && part[m] == t;
    assert m + 1 < |part| ==> ImportsWithin(w, part, group, m);
  }

  // Following the waits leads back to descriptor.proto.
  lemma {:induction false} FollowWaits(w: World, s: State, p: seq<Name>) returns (q: seq<Name>)
    requires DistinctStamps(s) && AllBlocked(w, s) && WaitPath(w, s, p)
    ensures WaitPath(w, s, q)
    ensures WaiterBlocked(w, s, q[|q| - 1]) && Awaited(w, s, q[|q| - 1]) == DESCRIPTOR_PROTO
    decreases |s.tasks| - |p|
  {
    var n := |p| - 1;
    var t := p[n];
    assert t in p && WaiterBlocked(w, s, t);
    var d := Awaited(w, s, t);
    ImplicitEntry(w, t, s.tasks[t].phase.next);
    if d == DESCRIPTOR_PROTO {
      return p;
    }
    if d in p {
      var j :| 0 <= j < |p| && p[j] == d;
      NoBackEdge(w, s, p, j, n);
    }
    Longer(w, s, p, d);
    DistinctFits(p + [d], s.tasks.Keys);
    q := FollowWaits(w, s, p + [d]);
  }

  lemma Longer(w: World, s: State, p: seq<Name>, d: Name)
    requires WaitPath(w, s, p) && d !in p && d in Waiters(s)
    requires WaiterBlocked(w, s, p[|p| - 1]) && Awaited(w, s, p[|p| - 1]) == d && d in Imports(w, p[|p| - 1])
    ensures WaitPath(w, s, p + [d])
  {
    var q := p + [d];
    forall i: nat | i + 1 < |q|
      ensures EdgeAt(w, s, q, i)
    {
      assert p[|p| - 1] in p;
      assert i + 1 < |p| ==> EdgeAt(w, s, p, i);
    }
  }

  ghost predicate ReadyForRing(w: World, s: State, p: seq<Name>) {
    && OverrideInv(w, s) && w.overridden && DistinctStamps(s) && AllBlocked(w, s) && WaitPath(w, s, p)
    && WaiterBlocked(w, s, p[|p| - 1]) && Awaited(w, s, p[|p| - 1]) == DESCRIPTOR_PROTO
    && (forall t :: t in Waiters(s) ==> DepsOk(w, s, t))
    && (forall d :: Completed(s, d) ==> !SourceOf(w, d).Unavailable?)
  }

  lemma NextOfPath(w: World, s: State, p: seq<Name>, i: nat)
    requires ReadyForRing(w, s, p) && i < |p|
    ensures WaitsFirstFor(w, p[i], if i + 1 < |p| then p[i + 1] else p[0])
  {
    PathWaits(w, s, p, i);
    WaitsForFirstOpen(w, s, p[i]);
  }

  // Each member of the path waits for the next one, and the last one for descriptor.proto.
  lemma PathWaits(w: World, s: State, p: seq<Name>, i: nat)
    requires AllBlocked(w, s) && WaitPath(w, s, p) && i < |p|
    requires WaiterBlocked(w, s, p[|p| - 1]) && Awaited(w, s, p[|p| - 1]) == DESCRIPTOR_PROTO
    ensures DESCRIPTOR_PROTO in Waiters(s) && p[i] in Waiters(s) && WaiterBlocked(w, s, p[i])
    ensures var d := if i + 1 < |p| then p[i + 1] else p[0];
            Awaited(w, s, p[i]) == d && WaiterBlocked(w, s, d)
  {
    var d := if i + 1 < |p| then p[i + 1] else p[0];
    assert p[i] in p && d in p && p[0] in p;
    assert i + 1 < |p| ==> EdgeAt(w, s, p, i);
  }

  lemma RingOfPath(w: World, s: State, p: seq<Name>)
    requires ReadyForRing(w, s, p)
    ensures Ring(w, p)
  {
    forall i: nat | i < |p|
      ensures LinkOk(w, p, i)
    {
      NextOfPath(w, s, p, i);
      forall j: nat | j < i + 1
        ensures p[j] !in Imports(w, p[i])
      {
        NoBackEdge(w, s, p, j, i);
      }
      assert forall e :: e in p[..i + 1] ==> e !in Imports(w, p[i]);
    }
  }

  lemma StuckHasRing(w: World, roots: seq<Name>, permits: nat, s: State) returns (p: seq<Name>)
    requires Reachable(w, roots, permits, s) && permits > 0 && Stuck(w, s)
    ensures Ring(w, p) && DESCRIPTOR_PROTO in Waiters(s) && forall x :: x in p ==> x in Waiters(s)
  {
    ReachableInv(w, roots, permits, s);
    var moves: seq<Move> :| Exec(w, Init(roots, permits), moves) == Some(s);
    InitInv(w, roots, permits);
    ExecOverrideInv(w, permits, Init(roots, permits), moves);
    StuckWaiters(w, permits, s);
    InvFacts(w, permits, s);
    p := RingOfWaiters(w, s);
  }

  lemma InvFacts(w: World, total: nat, s: State)
    requires Inv(w, total, s)
    ensures DistinctStamps(s) && forall t :: t in Waiters(s) ==> DepsOk(w, s, t)
    ensures forall d :: Completed(s, d) ==> !SourceOf(w, d).Unavailable?
  {
    forall t | t in s.tasks
      ensures DepsOk(w, s, t) && VerdictOk(w, s, t)
    {
      assert TaskOk(w, s, t);
    }
  }

  lemma RingOfWaiters(w: World, s: State) returns (p: seq<Name>)
    requires OverrideInv(w, s) && DistinctStamps(s) && AllBlocked(w, s) && Waiters(s) != {}
    requires forall t :: t in Waiters(s) ==> DepsOk(w, s, t)
    requires forall d :: Completed(s, d) ==> !SourceOf(w, d).Unavailable?
    ensures Ring(w, p) && DESCRIPTOR_PROTO in Waiters(s) && forall x :: x in p ==> x in Waiters(s)
  {
    DescriptorWaits(w, s);
    p := FollowWaits(w, s, [DESCRIPTOR_PROTO]);
    RingOfPath(w, s, p);
  }

  // --- A ring has a stuck run -----------------------------------------------------------------

  ghost predicate Leads(w: World, s: State, s': State) {
    exists moves: seq<Move> :: Exec(w, s, moves) == Some(s')
  }

  lemma {:induction false} ExecAppend(w: World, s: State, a: seq<Move>, b: seq<Move>)
    requires Exec(w, s, a).Some?
    ensures Exec(w, s, a + b) == Exec(w, Exec(w, s, a).value, b)
    decreases |a|
  {
    if a == [] {
      assert a + b == b;
    } else {
      assert (a + b)[0] == a[0] && (a + b)[1..] == a[1..] + b;
      ExecAppend(w, Step(w, s, a[0].task, a[0].linkOk), a[1..], b);
    }
  }

  lemma LeadsOn(w: World, s: State, s1: State, s2: State)
    requires Leads(w, s, s1) && Leads(w, s1, s2)
    ensures Leads(w, s, s2)
  {
    var a: seq<Move> :| Exec(w, s, a) == Some(s1);
    var b: seq<Move> :| Exec(w, s1, b) == Some(s2);
    ExecAppend(w, s, a, b);
  }

  lemma LeadsStep(w: World, s: State, t: Name)
    requires CanStep(w, s, t)
    ensures Leads(w, s, Step(w, s, t, true))
  {
    assert Exec(w, s, [Move(t, true)]) == Exec(w, Step(w, s, t, true), []);
  }

  lemma LeadsSelf(w: World, s: State)
    ensures Leads(w, s, s)
  {
    assert Exec(w, s, []) == Some(s);
  }

  // The first `n` files of the ring wait; every other task but `active` is as created.
  ghost predicate Parked(w: World, s: State, p: seq<Name>, n: nat, active: Option<Name>) {
    && n <= |p|
    && (forall i :: 0 <= i < n ==> p[i] in s.tasks && s.tasks[p[i]].phase == Waiting(0))
    && (forall u :: u in s.tasks && u !in p[..n] && Some(u) != active ==> s.tasks[u] == FRESH)
  }

  // The task is about to handle entry `j` of its list.
  ghost predicate AtEntry(w: World, s: State, t: Name, j: nat) {
    && t in s.tasks && s.tasks[t].phase == Checking(j, None, []) && j <= Degree(w, t)
    && forall i :: 0 <= i < j ==> BlockList(w, t)[i] in s.tasks
  }

  lemma ParkedStays(w: World, s: State, s': State, p: seq<Name>, n: nat, t: Name)
    requires Parked(w, s, p, n, Some(t)) && OnlyMoves(s, s', t) && t !in p[..n]
    ensures Parked(w, s', p, n, Some(t))
  {
    forall i | 0 <= i < n
      ensures p[i] in s'.tasks && s'.tasks[p[i]].phase == Waiting(0)
    {
      assert p[..n][i] == p[i];
    }
  }

  // The moves for one entry whose task has published nothing, from the view of `t` alone.
  lemma EntryMoves(w: World, s: State, t: Name, j: nat) returns (s': State)
    requires AtEntry(w, s, t, j) && j < |Imports(w, t)|
    requires var dep := BlockList(w, t)[j]; dep != t && (dep in s.tasks ==> s.tasks[dep] == FRESH)
    ensures Leads(w, s, s') && OnlyMoves(s, s', t) && s'.permits == s.permits
    ensures BlockList(w, t)[j] in s'.tasks && s'.tasks[t].phase == Checking(j + 1, None, [])
  {
    var dep := BlockList(w, t)[j];
    var s1 := Step(w, s, t, true);
    LeadsStep(w, s, t);
    assert s1.tasks[t].phase == Checking(j, Some(dep), []) && s1.tasks[dep] == FRESH;
    s' := SearchEmpty(w, s1, t, j, dep);
    LeadsOn(w, s, s1, s');
  }

  lemma ImplicitMove(w: World, s: State, t: Name, j: nat) returns (s': State)
    requires AtEntry(w, s, t, j) && |Imports(w, t)| <= j < Degree(w, t)
    ensures Leads(w, s, s') && OnlyMoves(s, s', t) && s'.permits == s.permits
    ensures BlockList(w, t)[j] in s'.tasks && s'.tasks[t].phase == Checking(j + 1, None, [])
  {
    s' := ImportStep(w, s, t);
    LeadsStep(w, s, t);
  }

  lemma SearchEmpty(w: World, s: State, t: Name, j: nat, dep: Name) returns (s': State)
    requires t in s.tasks && dep in s.tasks && s.tasks[t].phase == Checking(j, Some(dep), []) && s.tasks[dep] == FRESH
    ensures Leads(w, s, s') && OnlyMoves(s, s', t) && s'.permits == s.permits
    ensures s'.tasks[t].phase == Checking(j + 1, None, [])
  {
    var s1 := EnterStep(s, t);
    assert Step(w, s, t, true) == s1;
    LeadsStep(w, s, t);
    EnterEmpty(s, t, j, dep);
    if dep in s.tasks[t].checked {
      return s1;
    }
    s' := LeaveEmpty(w, s1, t, j, dep);
    LeadsOn(w, s, s1, s');
  }

  lemma EnterEmpty(s: State, t: Name, j: nat, dep: Name)
    requires t in s.tasks && dep in s.tasks && s.tasks[t].phase == Checking(j, Some(dep), []) && s.tasks[dep] == FRESH
    ensures var s1 := EnterStep(s, t);
            && OnlyMoves(s, s1, t) && s1.permits == s.permits
            && s1.tasks[t].phase == if dep in s.tasks[t].checked then Checking(j + 1, None, [])
                                    else Checking(j, None, [Frame(dep, [])])
  {
  }

  lemma LeaveEmpty(w: World, s: State, t: Name, j: nat, dep: Name) returns (s': State)
    requires t in s.tasks && s.tasks[t].phase == Checking(j, None, [Frame(dep, [])])
    ensures Leads(w, s, s') && OnlyMoves(s, s', t) && s'.permits == s.permits
    ensures s'.tasks[t].phase == Checking(j + 1, None, [])
  {
    s' := ScanStep(s, t);
    LeadsStep(w, s, t);
  }

  // One entry of the import loop: what it names has published nothing, so the search
  // finds nothing.
  lemma PassEntry(w: World, s: State, p: seq<Name>, n: nat, j: nat) returns (s': State)
    requires Ring(w, p) && n < |p| && Parked(w, s, p, n, Some(p[n])) && AtEntry(w, s, p[n], j) && j < Degree(w, p[n])
    ensures Leads(w, s, s') && Parked(w, s', p, n, Some(p[n])) && AtEntry(w, s', p[n], j + 1) && s'.permits == s.permits
  {
    var t := p[n];
    assert t !in p[..n];
    if j >= |Imports(w, t)| {
      s' := ImplicitMove(w, s, t, j);
    } else {
      FreshImport(w, s, p, n, j);
      s' := EntryMoves(w, s, t, j);
    }
    ParkedStays(w, s, s', p, n, t);
  }

  lemma FreshImport(w: World, s: State, p: seq<Name>, n: nat, j: nat)
    requires Ring(w, p) && n < |p| && Parked(w, s, p, n, Some(p[n])) && j < |Imports(w, p[n])|
    ensures var dep := BlockList(w, p[n])[j]; dep != p[n] && (dep in s.tasks ==> s.tasks[dep] == FRESH)
  {
    var dep := Imports(w, p[n])[j];
    assert LinkOk(w, p, n);
    assert dep in Imports(w, p[n]) && p[..n + 1] == p[..n] + [p[n]];
  }

  lemma {:induction false} PassAll(w: World, s: State, p: seq<Name>, n: nat, j: nat) returns (s': State)
    requires Ring(w, p) && n < |p| && Parked(w, s, p, n, Some(p[n])) && AtEntry(w, s, p[n], j)
    ensures Leads(w, s, s') && Parked(w, s', p, n, Some(p[n])) && AtEntry(w, s', p[n], Degree(w, p[n]))
    ensures s'.permits == s.permits
    decreases Degree(w, p[n]) - j
  {
    if j == Degree(w, p[n]) {
      LeadsSelf(w, s);
      return s;
    }
    var s1 := PassEntry(w, s, p, n, j);
    s' := PassAll(w, s1, p, n, j + 1);
    LeadsOn(w, s, s1, s');
  }

  // The next file of the ring starts, passes its checks and waits.
  lemma ParkNext(w: World, s: State, p: seq<Name>, n: nat) returns (s': State)
    requires Ring(w, p) && n < |p| && Parked(w, s, p, n, None) && p[n] in s.tasks && s.permits > 0
    ensures Leads(w, s, s') && Parked(w, s', p, n + 1, None) && s'.permits > 0
    ensures n + 1 < |p| ==> p[n + 1] in s'.tasks
  {
    var t := p[n];
    assert t !in p[..n] && LinkOk(w, p, n);
    var s1 := StartSearch(w, s, t);
    ParkedStays(w, s, s1, p, n, t);
    var s2 := PassAll(w, s1, p, n, 0);
    LeadsOn(w, s, s1, s2);
    s' := EndSearch(w, s2, t);
    LeadsOn(w, s, s2, s');
    ParkedStays(w, s2, s', p, n, t);
    OneMoreParked(w, s', p, n);
  }

  lemma OneMoreParked(w: World, s: State, p: seq<Name>, n: nat)
    requires n < |p| && Parked(w, s, p, n, Some(p[n])) && p[n] in s.tasks && s.tasks[p[n]].phase == Waiting(0)
    ensures Parked(w, s, p, n + 1, None)
  {
    assert p[..n + 1] == p[..n] + [p[n]];
  }

  lemma EndSearch(w: World, s: State, t: Name) returns (s': State)
    requires AtEntry(w, s, t, Degree(w, t))
    ensures Leads(w, s, s') && OnlyMoves(s, s', t) && s'.permits > 0
    ensures s'.tasks[t].phase == Waiting(0) && forall d :: d in BlockList(w, t) ==> d in s'.tasks
  {
    s' := Step(w, s, t, true);
    LeadsStep(w, s, t);
  }

  lemma StartSearch(w: World, s: State, t: Name) returns (s': State)
    requires t in s.tasks && s.tasks[t] == FRESH && s.permits > 0 && SourceOf(w, t).Parsed? && BlockList(w, t) != []
    ensures Leads(w, s, s') && OnlyMoves(s, s', t) && AtEntry(w, s', t, 0)
  {
    var s1 := Step(w, s, t, true);
    LeadsStep(w, s, t);
    s' := Step(w, s1, t, true);
    LeadsStep(w, s1, t);
    LeadsOn(w, s, s1, s');
  }

  lemma {:induction false} ParkAll(w: World, s: State, p: seq<Name>, n: nat) returns (s': State)
    requires Ring(w, p) && n <= |p| && Parked(w, s, p, n, None) && s.permits > 0
    requires n < |p| ==> p[n] in s.tasks
    ensures Leads(w, s, s') && Parked(w, s', p, |p|, None)
    decreases |p| - n
  {
    if n == |p| {
      LeadsSelf(w, s);
      return s;
    }
    var s1 := ParkNext(w, s, p, n);
    s' := ParkAll(w, s1, p, n + 1);
    LeadsOn(w, s, s1, s');
  }

  // --- Nothing frees a ring that waits ------------------------------------------------------------

  ghost predicate TrappedAt(w: World, s: State, t: Name) {
    t in s.tasks && s.tasks[t].phase.Waiting? && s.tasks[t].phase.next <= FirstOpen(w, BlockList(w, t))
  }

  ghost predicate Trapped(w: World, s: State, p: seq<Name>) {
    forall i: nat :: i < |p| ==> TrappedAt(w, s, p[i])
  }

  // A prelinked file cannot fail.
  lemma PrelinkedSucceeds(w: World, s: State, d: Name)
    requires d in s.tasks && s.tasks[d].phase.Finished() && SourceOf(w, d).Prelinked? && VerdictOk(w, s, d)
    ensures s.tasks[d].phase.verdict.Ok?
  {
    forall p
      ensures !ClosedWalk(w, d, p)
    {
      NoWalkFrom(w, d, p);
    }
  }

  lemma NoWalkFrom(w: World, d: Name, p: seq<Name>)
    requires SourceOf(w, d).Prelinked?
    ensures !ClosedWalk(w, d, p)
  {
    if |p| >= 2 && p[0] == d {
      assert p[1] !in BlockList(w, p[0]);
    }
  }

  lemma StaysTrapped(w: World, total: nat, s: State, p: seq<Name>, t: Name, linkOk: bool)
    requires Ring(w, p) && Inv(w, total, s) && Trapped(w, s, p) && CanStep(w, s, t)
    ensures Trapped(w, Step(w, s, t, linkOk), p)
  {
    var s' := Step(w, s, t, linkOk);
    forall i: nat | i < |p|
      ensures TrappedAt(w, s', p[i])
    {
      assert TrappedAt(w, s, p[i]) && LinkOk(w, p, i);
      if p[i] == t {
        var next := if i + 1 < |p| then p[i + 1] else p[0];
        assert TrappedAt(w, s, next);
        assert forall d :: d in s.tasks ==> TaskOk(w, s, d);
        MemberStaysTrapped(w, s, t, next, linkOk);
      }
    }
  }

  // The first entry that is not prelinked does not return, and the ones before succeed.
  lemma MemberStaysTrapped(w: World, s: State, t: Name, next: Name, linkOk: bool)
    requires TrappedAt(w, s, t) && TrappedAt(w, s, next) && WaitsFirstFor(w, t, next) && CanStep(w, s, t)
    requires forall d :: d in s.tasks ==> VerdictOk(w, s, d)
    ensures TrappedAt(w, Step(w, s, t, linkOk), t)
  {
    var d := BlockList(w, t)[s.tasks[t].phase.next];
    assert s.tasks[t].phase.next < FirstOpen(w, BlockList(w, t)) && SourceOf(w, d).Prelinked?;
    assert d in s.tasks && s.tasks[d].phase.Finished();
    PrelinkedSucceeds(w, s, d);
    PassesPrelinked(w, s, t, linkOk);
  }

  lemma PassesPrelinked(w: World, s: State, t: Name, linkOk: bool)
    requires TrappedAt(w, s, t) && CanStep(w, s, t) && s.tasks[t].phase.next < FirstOpen(w, BlockList(w, t))
    requires s.tasks[BlockList(w, t)[s.tasks[t].phase.next]].phase.verdict.Ok?
    ensures TrappedAt(w, Step(w, s, t, linkOk), t)
  {
    WaitGoesOn(w, s, t);
    assert Step(w, s, t, linkOk) == WaitStep(w, s, t);
  }

  lemma WaitGoesOn(w: World, s: State, t: Name)
    requires CanStep(w, s, t) && s.tasks[t].phase.Waiting? && s.tasks[t].phase.next < Degree(w, t)
    requires s.tasks[BlockList(w, t)[s.tasks[t].phase.next]].phase.verdict.Ok?
    ensures WaitStep(w, s, t).tasks[t].phase == Waiting(s.tasks[t].phase.next + 1)
  {
  }

  // Any run can be continued until nothing can move.
  lemma {:induction false} RunOn(w: World, roots: seq<Name>, m: nat, total: nat, s: State, p: seq<Name>)
      returns (s': State)
    requires Inv(w, total, s) && InBounds(w, roots, s) && DegreeBound(w, m) && Ring(w, p) && Trapped(w, s, p)
    ensures Leads(w, s, s') && Trapped(w, s', p) && forall t :: !CanStep(w, s', t)
    decreases Measure(w, roots, m, s)
  {
    if t :| CanStep(w, s, t) {
      var s1 := Step(w, s, t, true);
      StepInv(w, total, s, t, true);
      assert TaskOk(w, s, t);
      StepInBounds(w, roots, s, t, true);
      StepLowersMeasure(w, roots, m, total, s, t, true);
      StaysTrapped(w, total, s, p, t, true);
      LeadsStep(w, s, t);
      s' := RunOn(w, roots, m, total, s1, p);
      LeadsOn(w, s, s1, s');
    } else {
      LeadsSelf(w, s);
      return s;
    }
  }

  lemma {:induction false} ExecInBounds(w: World, roots: seq<Name>, total: nat, s: State, moves: seq<Move>)
    requires Inv(w, total, s) && InBounds(w, roots, s) && Exec(w, s, moves).Some?
    ensures InBounds(w, roots, Exec(w, s, moves).value)
    decreases |moves|
  {
    if moves != [] {
      StepInv(w, total, s, moves[0].task, moves[0].linkOk);
      assert TaskOk(w, s, moves[0].task);
      StepInBounds(w, roots, s, moves[0].task, moves[0].linkOk);
      ExecInBounds(w, roots, total, Step(w, s, moves[0].task, moves[0].linkOk), moves[1..]);
    }
  }

  lemma RingGetsStuck(w: World, permits: nat, p: seq<Name>) returns (s: State)
    requires Ring(w, p) && permits > 0
    ensures Reachable(w, [DESCRIPTOR_PROTO], permits, s) && Stuck(w, s)
  {
    var roots := [DESCRIPTOR_PROTO];
    var s0 := Init(roots, permits);
    assert p[..0] == [];
    var s1 := ParkAll(w, s0, p, 0);
    forall i: nat | i < |p|
      ensures TrappedAt(w, s1, p[i])
    {
      assert LinkOk(w, p, i);
    }
    var moves: seq<Move> :| Exec(w, s0, moves) == Some(s1);
    InitInv(w, roots, permits);
    ExecInv(w, permits, s0, moves);
    ExecInBounds(w, roots, permits, s0, moves);
    var m := DegreesAreBounded(w.files, w.overridden);
    s := RunOn(w, roots, m, permits, s1, p);
    LeadsOn(w, s0, s1, s);
    assert TrappedAt(w, s, p[0]);
  }

  /** A run can get stuck if and only if the files hold such a ring, whatever the number of
      permits. */
  lemma StuckIffRing(w: World, permits: nat)
    requires permits > 0
    ensures (exists roots, s :: Reachable(w, roots, permits, s) && Stuck(w, s)) <==> (exists p :: Ring(w, p))
  {
    if roots, s :| Reachable(w, roots, permits, s) && Stuck(w, s) {
      var p := StuckHasRing(w, roots, permits, s);
    }
    if p :| Ring(w, p) {
      var s := RingGetsStuck(w, permits, p);
    }
  }

  // The smallest case: descriptor.proto imports a file that imports nothing.
  function TwoFiles(a: Name): World {
    World(map[DESCRIPTOR_PROTO := Parsed([a]), a := Parsed([])], true)
  }

  lemma TwoFilesGetStuck(a: Name, permits: nat)
    requires a != DESCRIPTOR_PROTO && permits > 0
    ensures exists roots, s :: Reachable(TwoFiles(a), roots, permits, s) && Stuck(TwoFiles(a), s)
  {
    var w, p := TwoFiles(a), [DESCRIPTOR_PROTO, a];
    assert BlockList(w, DESCRIPTOR_PROTO) == [a] && BlockList(w, a) == [DESCRIPTOR_PROTO];
    assert LinkOk(w, p, 0) && LinkOk(w, p, 1);
    assert Ring(w, p);
    StuckIffRing(w, permits);
  }
}
