/** Files whose outcome depends on the schedule. From a sound file with a false cycle there is
    always a complete run in which it fails; this module says when there is also one in which it
    completes. */
module ExecutorSchedule {
  import opened Common
  import opened Executor
  import opened ExecutorSafety
  import opened ExecutorTheorems
  import opened ExecutorTermination
  import opened ExecutorOverride
  import opened ExecutorRuns
  import opened ExecutorOutcome
  import CycleSearch
  import S = SearchSteps

  // The file is descriptor.proto or imports it, directly or not.
  ghost predicate ImportsDescriptor(w: World, f: Name) {
    exists p :: WalkTo(w, f, p, DESCRIPTOR_PROTO)
  }

  ghost predicate WalkTo(w: World, f: Name, p: seq<Name>, d: Name) {
    ImportWalk(w, p) && p[0] == f && p[|p| - 1] == d
  }

  ghost predicate Clean(w: World, f: Name) {
    w.overridden && Sound(w, f) && !ImportsDescriptor(w, f)
  }

  lemma CleanFile(w: World, f: Name)
    requires Clean(w, f)
    ensures f != DESCRIPTOR_PROTO && !SourceOf(w, f).Unavailable? && f !in Imports(w, f)
    ensures SourceOf(w, f).Parsed? ==> DESCRIPTOR_PROTO in BlockList(w, f)
  {
    assert WalkTo(w, f, [f], f) && !MissingFrom(w, f, [f]);
    if f in Imports(w, f) {
      ExtendWalk(w, [f], f);
    }
  }

  lemma CleanImport(w: World, f: Name, d: Name)
    requires Clean(w, f) && d in Imports(w, f)
    ensures Clean(w, d)
  {
    forall p
      ensures !WalkTo(w, d, p, DESCRIPTOR_PROTO) && !MissingFrom(w, d, p) && !ImportCycleFrom(w, d, p)
    {
      if ImportWalk(w, p) && p[0] == d {
        var q := [f] + p;
        FromImporter(w, f, p);
        assert !WalkTo(w, f, q, DESCRIPTOR_PROTO) && !MissingFrom(w, f, q) && !ImportCycleFrom(w, f, q);
      }
    }
  }

  lemma FromImporter(w: World, f: Name, p: seq<Name>)
    requires ImportWalk(w, p) && p[0] in Imports(w, f)
    ensures ImportWalk(w, [f] + p) && (ImportCycleFrom(w, p[0], p) ==> ImportCycleFrom(w, f, [f] + p))
  {
    var e := [f, p[0]];
    assert e[..1] + p == [f] + p;
    JoinWalks(w, e, p);
    if ImportCycleFrom(w, p[0], p) {
      ExtendToCycle(w, e, p);
    }
  }

  // --- Descriptor.proto fails -----------------------------------------------------------------

  // An implicit edge is on the walk, so descriptor.proto imports a file that has to be compiled.
  lemma DescriptorImports(w: World, f: Name, q: seq<Name>) returns (x: Name)
    requires FalseCycle(w, f, q)
    ensures w.overridden && x in Imports(w, DESCRIPTOR_PROTO) && SourceOf(w, x).Parsed?
  {
    var j := ImplicitEdge(w, f, q);
    x := NextOf(w, f, q, j + 1);
  }

  // Every place of a closed walk is followed by a file with a list.
  lemma NextOf(w: World, f: Name, q: seq<Name>, j: nat) returns (x: Name)
    requires ClosedWalk(w, f, q) && j < |q|
    ensures x in BlockList(w, q[j]) && SourceOf(w, x).Parsed?
  {
    var n := |q| - 1;
    var k :| 0 <= k < n && q[..n][k] == q[n];
    var m := if j < n then j else k;
    x := q[m + 1];
    assert x in BlockList(w, q[m]);
    WalkGoesOn(w, f, q, if m + 1 < n then m + 1 else k);
  }

  lemma ImplicitEdge(w: World, f: Name, q: seq<Name>) returns (j: nat)
    requires FalseCycle(w, f, q)
    ensures j + 1 < |q| && w.overridden && q[j + 1] == DESCRIPTOR_PROTO
  {
    if i :| 0 <= i < |q| - 1 && q[i + 1] !in Imports(w, q[i]) {
      assert q[i + 1] in BlockList(w, q[i]);
      return i;
    } else {
      assert ImportCycleFrom(w, f, q);
    }
  }

  // Its way back to descriptor.proto.
  ghost function Back(x: Name): seq<Name> {
    if x == DESCRIPTOR_PROTO then [DESCRIPTOR_PROTO, x] else [DESCRIPTOR_PROTO, x, DESCRIPTOR_PROTO]
  }

  lemma BackCloses(w: World, x: Name)
    requires w.overridden && x in Imports(w, DESCRIPTOR_PROTO) && SourceOf(w, x).Parsed?
    ensures ClosedWalk(w, DESCRIPTOR_PROTO, Back(x))
  {
    var q := Back(x);
    assert x != DESCRIPTOR_PROTO ==> DESCRIPTOR_PROTO in BlockList(w, x);
    assert q[..|q| - 1][0] == DESCRIPTOR_PROTO;
    forall j | 0 <= j < |q| - 1
      ensures q[j + 1] in BlockList(w, q[j])
    {
    }
  }

  // Completed, with its list cleared.
  ghost predicate Done(s: State, u: Name) {
    u in s.tasks && s.tasks[u].phase.Exited? && s.tasks[u].phase.verdict.Ok? && s.tasks[u].blockedOn == []
  }

  // Nothing stands in the way of `u`.
  ghost predicate Open(s: State, u: Name) {
    u in s.tasks && (s.tasks[u] == FRESH || s.tasks[u].phase == Waiting(0) || Done(s, u))
  }

  // Descriptor.proto has returned, and nothing stands in the way of clean files.
  ghost predicate Prepared(w: World, roots: seq<Name>, s: State) {
    && Staged(w, roots, s) && NoLinkFailure(s)
    && DESCRIPTOR_PROTO in s.tasks && s.tasks[DESCRIPTOR_PROTO].phase.Exited?
    && forall u :: u in s.tasks && Clean(w, u) ==> Open(s, u)
  }

  // Alone among files that have not started, a file finds no cycle but an import of itself.
  lemma AloneNoCycle(w: World, s: State, x: Name)
    requires x in s.tasks && x !in Imports(w, x) && forall u :: u in s.tasks && u != x ==> s.tasks[u].blockedOn == []
    ensures NoCycle(w, s, x)
  {
    forall p | CycleSearch.CycleFrom(S.Published(s), x, p)
      ensures p[1] !in Imports(w, x)
    {
      assert CycleSearch.EdgeAt(S.Published(s), p, 0);
      assert |p| > 2 ==> CycleSearch.EdgeAt(S.Published(s), p, 1);
    }
  }

  // One of its imports runs first, and waits; then descriptor.proto finds the cycle.
  lemma Prepare(w: World, roots: seq<Name>, permits: nat, x: Name) returns (s: State)
    requires AllRoots(w, roots) && permits > 0
    requires w.overridden && x in Imports(w, DESCRIPTOR_PROTO) && SourceOf(w, x).Parsed?
    ensures Leads(w, Init(roots, permits), s) && Prepared(w, roots, s)
  {
    var s0, d := Init(roots, permits), DESCRIPTOR_PROTO;
    InitStaged(w, roots, permits);
    var s1 := RunFirst(w, roots, s0, x);
    assert Startable(w, s1, d);
    s := RunTask(w, s1, d);
    LeadsOn(w, s0, s1, s);
    DescriptorFails(w, roots, s1, s, x);
    PreparedNow(w, roots, s1, s, x);
  }

  lemma DescriptorFails(w: World, roots: seq<Name>, s: State, s': State, x: Name)
    requires w.overridden && x in Imports(w, DESCRIPTOR_PROTO) && SourceOf(w, x).Parsed?
    requires OnlyFirst(w, roots, s, x) && OnlyTask(s, s', DESCRIPTOR_PROTO) && Ran(w, s', DESCRIPTOR_PROTO)
    requires Finding(w, s', DESCRIPTOR_PROTO)
    ensures s'.tasks[DESCRIPTOR_PROTO].phase.Exited?
  {
    BackCloses(w, x);
    assert x != DESCRIPTOR_PROTO ==> Ran(w, s', x);
    PublishedWalk(w, s', DESCRIPTOR_PROTO, Back(x));
  }

  ghost predicate OnlyFirst(w: World, roots: seq<Name>, s: State, x: Name) {
    && Staged(w, roots, s) && x in s.tasks
    && (forall u :: u in s.tasks && u != x ==> s.tasks[u] == FRESH)
    && (if x == DESCRIPTOR_PROTO then s.tasks[x] == FRESH
        else Ran(w, s, x) && (Clean(w, x) ==> s.tasks[x].phase == Waiting(0)))
  }

  lemma RunFirst(w: World, roots: seq<Name>, s: State, x: Name) returns (s': State)
    requires Staged(w, roots, s) && (forall u :: u in s.tasks ==> s.tasks[u] == FRESH)
    requires x in s.tasks && w.overridden && SourceOf(w, x).Parsed?
    ensures Leads(w, s, s') && OnlyFirst(w, roots, s', x)
  {
    if x == DESCRIPTOR_PROTO {
      LeadsSelf(w, s);
      return s;
    }
    assert Startable(w, s, x);
    s' := RunTask(w, s, x);
    if Clean(w, x) {
      CleanFile(w, x);
      AloneNoCycle(w, s', x);
    }
  }

  lemma PreparedNow(w: World, roots: seq<Name>, s: State, s': State, x: Name)
    requires OnlyFirst(w, roots, s, x) && OnlyTask(s, s', DESCRIPTOR_PROTO) && Ran(w, s', DESCRIPTOR_PROTO)
    requires s'.tasks[DESCRIPTOR_PROTO].phase.Exited?
    ensures Prepared(w, roots, s')
  {
    forall u | u in s'.tasks && Clean(w, u)
      ensures Open(s', u)
    {
      CleanFile(w, u);
    }
  }

  // --- A clean file completes ---------------------------------------------------------------------

  lemma WaitMoves(w: World, s: State, t: Name, i: nat) returns (s': State)
    requires t in s.tasks && s.tasks[t].phase == Waiting(i) && i < Degree(w, t)
    requires var d := BlockList(w, t)[i];
             && d in s.tasks && s.tasks[d].phase.Finished()
             && (i < |Imports(w, t)| ==> s.tasks[d].phase.verdict.Ok?)
    ensures Leads(w, s, s') && Moved(s, s', t, 0) && s'.tasks[t].phase == Waiting(i + 1)
  {
    s' := WaitStep(w, s, t);
    LeadsStep(w, s, t);
  }

  // Everything on the list of `t` has returned, and its imports have completed.
  ghost predicate ListArrived(w: World, s: State, t: Name) {
    forall i: nat :: i < Degree(w, t) ==> EntryArrived(w, s, t, i)
  }

  ghost predicate EntryArrived(w: World, s: State, t: Name, i: nat)
    requires i < Degree(w, t)
  {
    var d := BlockList(w, t)[i];
    && d != t && d in s.tasks && s.tasks[d].phase.Exited?
    && (i < |Imports(w, t)| ==> s.tasks[d].phase.verdict.Ok?)
  }

  lemma {:induction false} WaitOut(w: World, s: State, t: Name, i: nat) returns (s': State)
    requires t in s.tasks && s.tasks[t].phase == Waiting(i) && i <= Degree(w, t) && ListArrived(w, s, t)
    ensures Leads(w, s, s') && Moved(s, s', t, 0) && s'.tasks[t].phase == Waiting(Degree(w, t))
    decreases Degree(w, t) - i
  {
    if i == Degree(w, t) {
      LeadsSelf(w, s);
      return s;
    }
    assert EntryArrived(w, s, t, i);
    var s1 := WaitMoves(w, s, t, i);
    forall j: nat | j < Degree(w, t)
      ensures EntryArrived(w, s1, t, j)
    {
      assert EntryArrived(w, s, t, j);
    }
    s' := WaitOut(w, s1, t, i + 1);
    MoveOn(w, t, s, s1, s', 0, 0);
  }

  // The list is cleared, and a permit is needed again.
  lemma ResumeMoves(w: World, s: State, t: Name) returns (s': State)
    requires t in s.tasks && s.tasks[t].phase == Waiting(Degree(w, t))
    ensures Leads(w, s, s') && s'.tasks.Keys == s.tasks.Keys && s'.permits == s.permits
    ensures forall u :: u in s.tasks && u != t ==> s'.tasks[u] == s.tasks[u]
    ensures s'.tasks[t].phase == Reacquiring && s'.tasks[t].blockedOn == []
  {
    s' := WaitStep(w, s, t);
    LeadsStep(w, s, t);
  }

  lemma ReacquireMoves(w: World, s: State, t: Name) returns (s': State)
    requires t in s.tasks && s.tasks[t].phase == Reacquiring && s.permits > 0
    ensures Leads(w, s, s') && Moved(s, s', t, -1) && s'.tasks[t].phase == Linking
  {
    s' := Step(w, s, t, true);
    LeadsStep(w, s, t);
  }

  lemma LinkAndFinish(w: World, s: State, t: Name) returns (s': State)
    requires t in s.tasks && s.tasks[t].phase == Reacquiring && s.tasks[t].blockedOn == [] && s.permits > 0
    ensures Leads(w, s, s') && Moved(s, s', t, 0) && Done(s', t)
  {
    var s1 := ReacquireMoves(w, s, t);
    s' := FinishMoves(w, s1, t);
    MoveOn(w, t, s, s1, s', -1, 1);
  }

  lemma FinishWaiting(w: World, s: State, t: Name) returns (s': State)
    requires t in s.tasks && s.tasks[t].phase == Waiting(0) && ListArrived(w, s, t) && s.permits > 0
    ensures Leads(w, s, s') && OnlyTask(s, s', t) && Done(s', t)
  {
    var s1 := WaitOut(w, s, t, 0);
    var s2 := ResumeMoves(w, s1, t);
    LeadsOn(w, s, s1, s2);
    s' := LinkAndFinish(w, s2, t);
    LeadsOn(w, s, s2, s');
  }

  ghost predicate ImportsDone(w: World, s: State, t: Name, n: nat) {
    n <= |Imports(w, t)| && forall i: nat :: i < n ==> ImportDone(w, s, t, i)
  }

  ghost predicate ImportDone(w: World, s: State, t: Name, i: nat) {
    i < |Imports(w, t)| && Done(s, Imports(w, t)[i])
  }

  lemma OneMoreImport(w: World, s: State, s': State, t: Name, n: nat, d: Name)
    requires ImportsDone(w, s, t, n) && DoneStays(s, s') && n < |Imports(w, t)| && Imports(w, t)[n] == d && Done(s', d)
    ensures ImportsDone(w, s', t, n + 1)
  {
    forall i: nat | i < n + 1
      ensures ImportDone(w, s', t, i)
    {
      assert i < n ==> ImportDone(w, s, t, i);
    }
  }

  lemma ArrivedIfDone(w: World, s: State, t: Name)
    requires t in s.tasks && !Done(s, t) && ImportsDone(w, s, t, |Imports(w, t)|) && t != DESCRIPTOR_PROTO
    requires DESCRIPTOR_PROTO in s.tasks && s.tasks[DESCRIPTOR_PROTO].phase.Exited?
    ensures ListArrived(w, s, t)
  {
    forall i: nat | i < Degree(w, t)
      ensures EntryArrived(w, s, t, i)
    {
      ImplicitEntry(w, t, i);
      assert i < |Imports(w, t)| ==> BlockList(w, t)[i] == Imports(w, t)[i] && ImportDone(w, s, t, i);
    }
  }

  // With the lists of its imports cleared, the search has nowhere to go.
  lemma ImportsNoCycle(w: World, s: State, t: Name)
    requires t in s.tasks && t !in Imports(w, t) && ImportsDone(w, s, t, |Imports(w, t)|)
    ensures NoCycle(w, s, t)
  {
    forall d | d in Imports(w, t)
      ensures Done(s, d)
    {
      var i: nat :| i < |Imports(w, t)| && Imports(w, t)[i] == d;
      assert ImportDone(w, s, t, i);
    }
    forall p | CycleSearch.CycleFrom(S.Published(s), t, p)
      ensures p[1] !in Imports(w, t)
    {
      assert |p| > 2 ==> CycleSearch.EdgeAt(S.Published(s), p, 1);
      assert |p| == 2 ==> p[1] == t;
    }
  }

  lemma FinishFile(w: World, roots: seq<Name>, s: State, t: Name) returns (s': State)
    requires Prepared(w, roots, s) && t in s.tasks && Clean(w, t) && ImportsDone(w, s, t, |Imports(w, t)|)
    ensures Leads(w, s, s') && OnlyTask(s, s', t) && Done(s', t)
  {
    CleanFile(w, t);
    if Done(s, t) {
      LeadsSelf(w, s);
      return s;
    }
    var s1 := WaitOrDone(w, roots, s, t);
    if Done(s1, t) {
      return s1;
    }
    ArrivedIfDone(w, s1, t);
    s' := FinishWaiting(w, s1, t);
    LeadsOn(w, s, s1, s');
  }

  lemma WaitOrDone(w: World, roots: seq<Name>, s: State, t: Name) returns (s': State)
    requires Prepared(w, roots, s) && t in s.tasks && Clean(w, t) && ImportsDone(w, s, t, |Imports(w, t)|)
    requires !Done(s, t)
    ensures Leads(w, s, s') && OnlyTask(s, s', t) && ImportsDone(w, s', t, |Imports(w, t)|)
    ensures Done(s', t) || s'.tasks[t].phase == Waiting(0)
  {
    CleanFile(w, t);
    assert Open(s, t);
    if s.tasks[t].phase == Waiting(0) {
      LeadsSelf(w, s);
      return s;
    }
    s' := RunTask(w, s, t);
    forall i: nat | i < |Imports(w, t)|
      ensures ImportDone(w, s', t, i)
    {
      assert ImportDone(w, s, t, i) && Imports(w, t)[i] in Imports(w, t);
    }
    ImportsNoCycle(w, s', t);
  }

  // Only `t` has changed, and it is done.
  lemma PreparedStill(w: World, roots: seq<Name>, s: State, s': State, t: Name)
    requires Prepared(w, roots, s) && OnlyTask(s, s', t) && Done(s', t) && t != DESCRIPTOR_PROTO
    ensures Prepared(w, roots, s') && DoneStays(s, s')
  {
    forall u | u in s'.tasks && Clean(w, u)
      ensures Open(s', u)
    {
      assert Open(s, u);
    }
  }

  ghost predicate DoneStays(s: State, s': State) {
    forall u :: Done(s, u) ==> Done(s', u)
  }

  // The path of files that wait to be completed; it cannot close, since its start is sound.
  ghost predicate CleanPath(w: World, roots: seq<Name>, path: seq<Name>) {
    && ImportWalk(w, path) && Distinct(path) && (forall x :: x in path ==> x in RootSet(roots))
    && Clean(w, path[0]) && Clean(w, path[|path| - 1])
  }

  lemma LongerPath(w: World, roots: seq<Name>, path: seq<Name>, d: Name)
    requires AllRoots(w, roots) && CleanPath(w, roots, path) && d in Imports(w, path[|path| - 1])
    ensures CleanPath(w, roots, path + [d]) && |path| < |RootSet(roots)|
  {
    ExtendWalk(w, path, d);
    assert !ImportCycleFrom(w, path[0], path + [d]);
    CleanImport(w, path[|path| - 1], d);
    DistinctFits(path + [d], RootSet(roots));
  }

  // The files that a clean file imports complete one after the other, and then it does.
  lemma {:induction false} CompleteFile(w: World, roots: seq<Name>, s: State, path: seq<Name>) returns (s': State)
    requires AllRoots(w, roots) && Prepared(w, roots, s) && CleanPath(w, roots, path)
    ensures Leads(w, s, s') && Prepared(w, roots, s') && DoneStays(s, s') && Done(s', path[|path| - 1])
    decreases |RootSet(roots)| - |path|, |Imports(w, path[|path| - 1])| + 1
  {
    var t := path[|path| - 1];
    DistinctFits(path, RootSet(roots));
    var s1 := CompleteImports(w, roots, s, path, t, |Imports(w, t)|);
    assert t in path && t in s1.tasks;
    CleanFile(w, t);
    s' := FinishFile(w, roots, s1, t);
    LeadsOn(w, s, s1, s');
    PreparedStill(w, roots, s1, s', t);
  }

  lemma {:induction false} CompleteImports(w: World, roots: seq<Name>, s: State, path: seq<Name>, t: Name, n: nat)
      returns (s': State)
    requires AllRoots(w, roots) && Prepared(w, roots, s) && CleanPath(w, roots, path) && t == path[|path| - 1]
    requires n <= |Imports(w, t)|
    ensures Leads(w, s, s') && Prepared(w, roots, s') && DoneStays(s, s') && ImportsDone(w, s', t, n)
    decreases |RootSet(roots)| - |path|, n
  {
    if n == 0 {
      LeadsSelf(w, s);
      return s;
    }
    var d := Imports(w, t)[n - 1];
    var s1 := CompleteImports(w, roots, s, path, t, n - 1);
    s' := CompleteNext(w, roots, s1, path, d);
    LeadsOn(w, s, s1, s');
    OneMoreImport(w, s1, s', t, n - 1, d);
  }

  lemma {:induction false} CompleteNext(w: World, roots: seq<Name>, s: State, path: seq<Name>, d: Name)
      returns (s': State)
    requires AllRoots(w, roots) && Prepared(w, roots, s) && CleanPath(w, roots, path)
    requires d in Imports(w, path[|path| - 1])
    ensures Leads(w, s, s') && Prepared(w, roots, s') && DoneStays(s, s') && Done(s', d)
    decreases |RootSet(roots)| - |path|, 0
  {
    LongerPath(w, roots, path, d);
    s' := CompleteFile(w, roots, s, path + [d]);
  }

  /** A sound file that does not import descriptor.proto completes in some run, even if a false
      cycle can be closed from it. */
  lemma SomeRunCompletes(w: World, roots: seq<Name>, permits: nat, f: Name, q: seq<Name>) returns (s: State)
    requires AllRoots(w, roots) && permits > 0 && FalseCycle(w, f, q) && !ImportsDescriptor(w, f)
    ensures CompleteRun(w, roots, permits, s) && Completed(s, f)
  {
    var x := DescriptorImports(w, f, q);
    var s1 := Prepare(w, roots, permits, x);
    WalkIsListed(w, roots, f, q, 0);
    assert Distinct([f]) && f in RootSet(roots);
    var s2 := CompleteFile(w, roots, s1, [f]);
    LeadsOn(w, Init(roots, permits), s1, s2);
    s := FinishRun(w, roots, permits, s2);
    if !AllExited(s) {
      var _ := StuckHasRing(w, roots, permits, s);
      assert false;
    }
  }

  // --- A file that imports descriptor.proto cannot complete --------------------------------------------

  // Every compiled file completes after descriptor.proto has, if that does.
  ghost predicate AfterDescriptor(w: World, s: State, t: Name) {
    w.overridden && t != DESCRIPTOR_PROTO && SourceOf(w, t).Parsed?
    && Completed(s, t) && Completed(s, DESCRIPTOR_PROTO) ==>
      Order(s, DESCRIPTOR_PROTO) < Order(s, t)
  }

  ghost predicate OrderInv(w: World, s: State) {
    forall t :: AfterDescriptor(w, s, t)
  }

  lemma StepAfterDescriptor(w: World, total: nat, s: State, t: Name, linkOk: bool)
    requires Inv(w, total, s) && OverrideInv(w, s) && OrderInv(w, s) && CanStep(w, s, t)
    ensures OrderInv(w, Step(w, s, t, linkOk))
  {
    var s' := Step(w, s, t, linkOk);
    assert TaskOk(w, s, t);
    StepLater(w, s, t, linkOk);
    forall u
      ensures AfterDescriptor(w, s', u)
    {
      assert AfterDescriptor(w, s, u);
      if u in s.tasks {
        assert DescriptorFirst(w, s, u);
      }
      if DESCRIPTOR_PROTO in s.tasks {
        assert TaskOk(w, s, DESCRIPTOR_PROTO);
      }
      VerdictMoves(w, s, t, linkOk);
    }
  }

  // A file that completes gets the next place in the order.
  lemma VerdictMoves(w: World, s: State, t: Name, linkOk: bool)
    requires CanStep(w, s, t)
    ensures var p, p' := s.tasks[t].phase, Step(w, s, t, linkOk).tasks[t].phase;
            p'.Finished() && p'.verdict.Ok? ==>
              || (p.Finished() && p.verdict == p'.verdict)
              || (p'.verdict.order == s.clock + 1 && (p.Linking? || SourceOf(w, t).Prelinked?))
  {
    match s.tasks[t].phase
    case Checking(_, _, _) => CheckingPhases(w, s, t, linkOk);
    case _ =>
  }

  lemma {:induction false} ExecAfterDescriptor(w: World, total: nat, s: State, moves: seq<Move>)
    requires Inv(w, total, s) && OverrideInv(w, s) && OrderInv(w, s) && Exec(w, s, moves).Some?
    ensures OrderInv(w, Exec(w, s, moves).value)
    decreases |moves|
  {
    if moves != [] {
      StepInv(w, total, s, moves[0].task, moves[0].linkOk);
      StepOverrideInv(w, total, s, moves[0].task, moves[0].linkOk);
      StepAfterDescriptor(w, total, s, moves[0].task, moves[0].linkOk);
      ExecAfterDescriptor(w, total, Step(w, s, moves[0].task, moves[0].linkOk), moves[1..]);
    }
  }

  // Descriptor.proto does not complete if it imports a file that has to be compiled: each of
  // the two would have to complete before the other.
  lemma DescriptorNeverCompletes(w: World, roots: seq<Name>, permits: nat, s: State, x: Name)
    requires Reachable(w, roots, permits, s)
    requires w.overridden && x in Imports(w, DESCRIPTOR_PROTO) && SourceOf(w, x).Parsed?
    ensures !Completed(s, DESCRIPTOR_PROTO)
  {
    var s0 := Init(roots, permits);
    var moves: seq<Move> :| Exec(w, s0, moves) == Some(s);
    InitInv(w, roots, permits);
    ExecAfterDescriptor(w, permits, s0, moves);
    ReachableInv(w, roots, permits, s);
    InvCompletedInOrder(w, permits, s);
    assert AfterDescriptor(w, s, x);
    OrdersClash(w, s, x);
  }

  lemma OrdersClash(w: World, s: State, x: Name)
    requires CompletedInOrder(w, s) && AfterDescriptor(w, s, x)
    requires w.overridden && x in Imports(w, DESCRIPTOR_PROTO) && SourceOf(w, x).Parsed?
    ensures !Completed(s, DESCRIPTOR_PROTO)
  {
  }

  lemma ImporterNeverCompletes(w: World, roots: seq<Name>, permits: nat, s: State, f: Name, q: seq<Name>)
    requires Reachable(w, roots, permits, s) && FalseCycle(w, f, q) && ImportsDescriptor(w, f)
    ensures !Completed(s, f)
  {
    var x := DescriptorImports(w, f, q);
    DescriptorNeverCompletes(w, roots, permits, s, x);
    var p :| WalkTo(w, f, p, DESCRIPTOR_PROTO);
    if Completed(s, f) {
      ReachableInv(w, roots, permits, s);
      InvCompletedInOrder(w, permits, s);
      CompletedAlong(w, s, p);
      assert false;
    }
  }

  ghost predicate Fails(w: World, roots: seq<Name>, permits: nat, f: Name) {
    exists s :: CompleteRun(w, roots, permits, s) && f in s.tasks && !Completed(s, f)
  }

  ghost predicate Succeeds(w: World, roots: seq<Name>, permits: nat, f: Name) {
    exists s :: CompleteRun(w, roots, permits, s) && Completed(s, f)
  }

  /** A sound file from which a false cycle can be closed fails in some complete run, and it
      completes in another one, of the same roots, if and only if it does not import
      descriptor.proto. */
  lemma ScheduleDecides(w: World, roots: seq<Name>, permits: nat, f: Name, q: seq<Name>)
    requires AllRoots(w, roots) && permits > 0 && FalseCycle(w, f, q)
    ensures Fails(w, roots, permits, f)
    ensures Succeeds(w, roots, permits, f) <==> !ImportsDescriptor(w, f)
  {
    var s := ClosedWalkFails(w, roots, permits, f, q);
    if ImportsDescriptor(w, f) {
      forall s | CompleteRun(w, roots, permits, s)
        ensures !Completed(s, f)
      {
        ImporterNeverCompletes(w, roots, permits, s, f, q);
      }
    } else {
      var s' := SomeRunCompletes(w, roots, permits, f, q);
    }
  }

  // --- The smallest cases ------------------------------------------------------------------------------

  // Walks from `f` in a world in which imports lead only to files without imports.
  lemma ShortWalk(w: World, f: Name, a: Name, p: seq<Name>)
    requires Imports(w, f) == [a] && Imports(w, a) == [] && ImportWalk(w, p) && p[0] == f
    ensures p == [f] || p == [f, a]
  {
    if |p| > 2 {
      WalkStep(w, p, 1);
    }
    if |p| > 1 {
      WalkStep(w, p, 0);
    }
  }

  lemma WalkStep(w: World, p: seq<Name>, j: nat)
    requires ImportWalk(w, p) && j + 1 < |p|
    ensures p[j + 1] in Imports(w, p[j])
  {
  }

  lemma ShortSound(w: World, f: Name, a: Name)
    requires f != a && Imports(w, f) == [a] && Imports(w, a) == []
    requires SourceOf(w, f).Parsed? && SourceOf(w, a).Parsed?
    ensures Sound(w, f)
  {
    forall p
      ensures !MissingFrom(w, f, p) && !ImportCycleFrom(w, f, p)
    {
      if ImportWalk(w, p) && p[0] == f {
        ShortWalk(w, f, a, p);
      }
    }
  }

  /** An overriding descriptor.proto that imports one file without imports is sound and fails in
      every complete run. */
  lemma SoundDescriptorFails(a: Name, permits: nat)
    requires a != DESCRIPTOR_PROTO && permits > 0
    ensures Sound(TwoFiles(a), DESCRIPTOR_PROTO)
    ensures exists roots :: Fails(TwoFiles(a), roots, permits, DESCRIPTOR_PROTO)
    ensures forall roots :: !Succeeds(TwoFiles(a), roots, permits, DESCRIPTOR_PROTO)
  {
    var w, d := TwoFiles(a), DESCRIPTOR_PROTO;
    ShortSound(w, d, a);
    BackCloses(w, a);
    var roots := SomeRoots(w);
    ScheduleDecides(w, roots, permits, d, Back(a));
    forall roots, s | CompleteRun(w, roots, permits, s)
      ensures !Completed(s, d)
    {
      DescriptorNeverCompletes(w, roots, permits, s, a);
    }
  }

  // With a third file that imports the second one.
  function ThreeFiles(a: Name, y: Name): World {
    World(map[DESCRIPTOR_PROTO := Parsed([a]), a := Parsed([]), y := Parsed([a])], true)
  }

  /** The third file is sound, and whether it completes depends on the schedule. */
  lemma ThirdFileDepends(a: Name, y: Name, permits: nat)
    requires a != DESCRIPTOR_PROTO && y != DESCRIPTOR_PROTO && a != y && permits > 0
    ensures var w := ThreeFiles(a, y);
            Sound(w, y) && exists roots :: Fails(w, roots, permits, y) && Succeeds(w, roots, permits, y)
  {
    var w, d := ThreeFiles(a, y), DESCRIPTOR_PROTO;
    ShortSound(w, y, a);
    var q := [y, a, d, a];
    assert BlockList(w, a) == [d] && BlockList(w, d) == [a] && BlockList(w, y) == [a, d];
    assert q[..3][1] == a;
    assert ClosedWalk(w, y, q);
    forall p
      ensures !WalkTo(w, y, p, d)
    {
      if ImportWalk(w, p) && p[0] == y {
        ShortWalk(w, y, a, p);
      }
    }
    var roots := SomeRoots(w);
    ScheduleDecides(w, roots, permits, y, q);
  }
}
