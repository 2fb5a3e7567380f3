/** For which files the outcome of a compilation depends on nothing but the files, when the
    resolver overrides descriptor.proto. */
module ExecutorOutcome {
  import opened Common
  import opened Executor
  import opened ExecutorSafety
  import opened ExecutorTheorems
  import opened ExecutorTermination
  import opened ExecutorOverride
  import opened ExecutorRuns
  import CycleSearch
  import S = SearchSteps

  // All tasks have returned, and linking itself failed nowhere.
  ghost predicate CompleteRun(w: World, roots: seq<Name>, permits: nat, s: State) {
    Reachable(w, roots, permits, s) && AllExited(s) && NoLinkFailure(s)
  }

  // In every complete run the file completes exactly if it is sound.
  ghost predicate FilesDecide(w: World, permits: nat, f: Name) {
    forall roots, s :: CompleteRun(w, roots, permits, s) && f in s.tasks ==> (Completed(s, f) <==> Sound(w, f))
  }

  // --- Any run can be continued to its end ------------------------------------------------------

  ghost predicate KeepsExited(s: State, s': State) {
    forall t :: t in s.tasks && s.tasks[t].phase.Exited? ==> t in s'.tasks && s'.tasks[t] == s.tasks[t]
  }

  lemma MovedLinks(w: World, s: State, t: Name)
    requires CanStep(w, s, t)
    requires s.tasks[t].phase.Finished() ==> !s.tasks[t].phase.verdict.LinkFailed?
    ensures var p := Step(w, s, t, true).tasks[t].phase;
            p.Finished() ==> !p.verdict.LinkFailed?
  {
    match s.tasks[t].phase
    case Checking(_, _, _) => CheckingPhases(w, s, t, true);
    case _ =>
  }

  lemma StepLinks(w: World, s: State, t: Name)
    requires CanStep(w, s, t) && NoLinkFailure(s)
    ensures NoLinkFailure(Step(w, s, t, true)) && KeepsExited(s, Step(w, s, t, true))
  {
    MovedLinks(w, s, t);
  }

  lemma {:induction false} RunToEnd(w: World, roots: seq<Name>, m: nat, total: nat, s: State) returns (s': State)
    requires Inv(w, total, s) && InBounds(w, roots, s) && DegreeBound(w, m) && NoLinkFailure(s)
    ensures Leads(w, s, s') && NoLinkFailure(s') && KeepsExited(s, s') && forall t :: !CanStep(w, s', t)
    decreases Measure(w, roots, m, s)
  {
    if t :| CanStep(w, s, t) {
      var s1 := Step(w, s, t, true);
      StepInv(w, total, s, t, true);
      assert TaskOk(w, s, t);
      StepInBounds(w, roots, s, t, true);
      StepLowersMeasure(w, roots, m, total, s, t, true);
      StepLinks(w, s, t);
      LeadsStep(w, s, t);
      s' := RunToEnd(w, roots, m, total, s1);
      LeadsOn(w, s, s1, s');
    } else {
      LeadsSelf(w, s);
      return s;
    }
  }

  lemma FinishRun(w: World, roots: seq<Name>, permits: nat, s: State) returns (s': State)
    requires Leads(w, Init(roots, permits), s) && NoLinkFailure(s)
    ensures Reachable(w, roots, permits, s') && NoLinkFailure(s') && KeepsExited(s, s')
        && forall t :: !CanStep(w, s', t)
  {
    var s0 := Init(roots, permits);
    var moves: seq<Move> :| Exec(w, s0, moves) == Some(s);
    InitInv(w, roots, permits);
    ExecInv(w, permits, s0, moves);
    ExecInBounds(w, roots, permits, s0, moves);
    var m := DegreesAreBounded(w.files, w.overridden);
    s' := RunToEnd(w, roots, m, permits, s);
    LeadsOn(w, s0, s, s');
  }

  // --- All tasks publish, one after the other ----------------------------------------------------

  // The roots are all names that a file may need.
  ghost predicate AllRoots(w: World, roots: seq<Name>) {
    && DESCRIPTOR_PROTO in roots && (forall f :: f in w.files ==> f in roots)
    && (forall f, d :: d in Imports(w, f) ==> d in roots)
  }

  lemma {:induction false} AsSequence(names: set<Name>) returns (xs: seq<Name>)
    ensures Distinct(xs) && forall x :: x in xs <==> x in names
    decreases |names|
  {
    if names == {} {
      return [];
    }
    var x :| x in names;
    var rest := AsSequence(names - {x});
    xs := [x] + rest;
  }

  lemma SomeRoots(w: World) returns (roots: seq<Name>)
    ensures AllRoots(w, roots)
  {
    var names := w.files.Keys + {DESCRIPTOR_PROTO} + set f, d | f in w.files && d in Imports(w, f) :: d;
    roots := AsSequence(names);
    forall f, d | d in Imports(w, f)
      ensures d in roots
    {
      assert f in w.files && d in names;
    }
  }

  // A state in which every name has a task, and some may not have started.
  ghost predicate Staged(w: World, roots: seq<Name>, s: State) {
    AllNamed(w, s) && s.permits > 0 && forall f :: f in s.tasks <==> f in roots
  }

  lemma InitStaged(w: World, roots: seq<Name>, permits: nat)
    requires AllRoots(w, roots) && permits > 0
    ensures Staged(w, roots, Init(roots, permits))
    ensures forall f :: f in roots ==> Init(roots, permits).tasks[f] == FRESH
  {
    var s := Init(roots, permits);
    forall t, d | t in s.tasks && d in BlockList(w, t)
      ensures d in s.tasks
    {
      assert d in Imports(w, t) || d == DESCRIPTOR_PROTO;
    }
  }

  ghost function RootSet(roots: seq<Name>): set<Name> {
    set x | x in roots
  }

  ghost predicate AllRan(w: World, s: State, names: set<Name>) {
    forall x :: x in names ==> Ran(w, s, x)
  }

  // Names that have not started are as created.
  ghost predicate Untouched(s: State, names: set<Name>) {
    forall x :: x in names ==> x in s.tasks && s.tasks[x] == FRESH
  }

  // Every task of a group runs, and no other one does.
  lemma {:induction false} RunEach(w: World, roots: seq<Name>, s: State, names: set<Name>, rest: set<Name>)
      returns (s': State)
    requires Staged(w, roots, s) && names !! rest && Untouched(s, names) && Untouched(s, rest)
    ensures Leads(w, s, s') && Staged(w, roots, s') && AllRan(w, s', names) && Untouched(s', rest)
    decreases |names|
  {
    if names == {} {
      LeadsSelf(w, s);
      return s;
    }
    var x :| x in names;
    var s1 := RunEach(w, roots, s, names - {x}, rest + {x});
    s' := RunOne(w, roots, s1, names - {x}, x, rest);
    LeadsOn(w, s, s1, s');
    assert names == names - {x} + {x};
  }

  lemma RunOne(w: World, roots: seq<Name>, s: State, ran: set<Name>, x: Name, rest: set<Name>) returns (s': State)
    requires Staged(w, roots, s) && AllRan(w, s, ran) && Untouched(s, rest + {x}) && x !in ran && x !in rest
    ensures Leads(w, s, s') && Staged(w, roots, s') && AllRan(w, s', ran + {x}) && Untouched(s', rest)
    ensures OnlyTask(s, s', x) && Ran(w, s', x) && Finding(w, s', x)
  {
    assert Startable(w, s, x);
    s' := RunTask(w, s, x);
    OneMoreRan(w, roots, s, s', ran, x, rest);
  }

  lemma OneMoreRan(w: World, roots: seq<Name>, s: State, s': State, ran: set<Name>, x: Name, rest: set<Name>)
    requires Staged(w, roots, s) && AllRan(w, s, ran) && Untouched(s, rest) && x !in ran && x !in rest
    requires OnlyTask(s, s', x) && Ran(w, s', x)
    ensures Staged(w, roots, s') && AllRan(w, s', ran + {x}) && Untouched(s', rest)
  {
    forall y | y in ran
      ensures Ran(w, s', y)
    {
      assert Ran(w, s, y);
    }
  }

  // --- A false cycle is found ----------------------------------------------------------------------

  // A walk along the lists of files that have run is a walk along published lists.
  lemma PublishedWalk(w: World, s: State, t: Name, q: seq<Name>)
    requires ClosedWalk(w, t, q) && forall j :: 0 <= j < |q| - 1 ==> Ran(w, s, q[j])
    ensures !NoCycle(w, s, t)
  {
    var g := S.Published(s);
    forall j: nat | j + 1 < |q|
      ensures CycleSearch.EdgeAt(g, q, j)
    {
      assert Ran(w, s, q[j]) && q[j + 1] in BlockList(w, q[j]);
    }
    IsCycle(w, s, t, q);
  }

  // Files on the way have imports, hence are known.
  lemma WalkIsListed(w: World, roots: seq<Name>, t: Name, q: seq<Name>, j: nat)
    requires AllRoots(w, roots) && ClosedWalk(w, t, q) && j < |q| - 1
    ensures q[j] in roots && q[j] in w.files && SourceOf(w, q[j]).Parsed?
  {
    assert q[j + 1] in BlockList(w, q[j]);
  }

  // A ring is a closed walk from descriptor.proto.
  lemma RingCloses(w: World, p: seq<Name>)
    requires Ring(w, p)
    ensures ClosedWalk(w, DESCRIPTOR_PROTO, p + [DESCRIPTOR_PROTO])
  {
    var q := p + [DESCRIPTOR_PROTO];
    forall j | 0 <= j < |q| - 1
      ensures q[j + 1] in BlockList(w, q[j])
    {
      assert LinkOk(w, p, j);
    }
    assert q[..|q| - 1] == p && p[0] in p;
    assert BlockList(w, DESCRIPTOR_PROTO) == Imports(w, DESCRIPTOR_PROTO);
    assert q[0 + 1] in BlockList(w, q[0]);
  }

  // What the run that looks for the cycle has done: `s2` before the last task, `f`, and `s3` after.
  ghost predicate LastRan(w: World, roots: seq<Name>, f: Name, s2: State, s3: State) {
    && AllRan(w, s3, RootSet(roots)) && OnlyTask(s2, s3, f) && (forall x :: x in s3.tasks <==> x in roots)
    && f in s3.tasks && Finding(w, s3, f)
    && (f != DESCRIPTOR_PROTO ==>
          && AllRan(w, s2, RootSet(roots) - {f})
          && DESCRIPTOR_PROTO in s2.tasks && Finding(w, s2, DESCRIPTOR_PROTO))
  }

  // All tasks run, descriptor.proto after the others, and `f` at the end.
  lemma RunInOrder(w: World, roots: seq<Name>, permits: nat, f: Name) returns (s2: State, s3: State)
    requires AllRoots(w, roots) && permits > 0 && f in roots
    ensures Leads(w, Init(roots, permits), s3) && LastRan(w, roots, f, s2, s3)
  {
    var s0, all := Init(roots, permits), RootSet(roots);
    InitStaged(w, roots, permits);
    s2 := RunAllBut(w, roots, s0, f);
    s3 := RunOne(w, roots, s2, all - {f}, f, {});
    LeadsOn(w, s0, s2, s3);
    assert all - {f} + {f} == all;
  }

  lemma RunAllBut(w: World, roots: seq<Name>, s: State, f: Name) returns (s': State)
    requires AllRoots(w, roots) && Staged(w, roots, s) && f in roots && Untouched(s, RootSet(roots))
    ensures Leads(w, s, s') && Staged(w, roots, s') && AllRan(w, s', RootSet(roots) - {f}) && Untouched(s', {f})
    ensures f != DESCRIPTOR_PROTO ==> DESCRIPTOR_PROTO in s'.tasks && Finding(w, s', DESCRIPTOR_PROTO)
  {
    var early := RootSet(roots) - {f} - {DESCRIPTOR_PROTO};
    var late := {f} + {DESCRIPTOR_PROTO};
    s' := RunEach(w, roots, s, early, late);
    if f == DESCRIPTOR_PROTO {
      assert early == RootSet(roots) - {f} && late == {f};
    } else {
      var s1 := s';
      s' := RunOne(w, roots, s1, early, DESCRIPTOR_PROTO, {f});
      LeadsOn(w, s, s1, s');
      assert early + {DESCRIPTOR_PROTO} == RootSet(roots) - {f};
    }
  }

  lemma RanLinks(w: World, roots: seq<Name>, s: State)
    requires AllRan(w, s, RootSet(roots)) && forall x :: x in s.tasks <==> x in roots
    ensures NoLinkFailure(s)
  {
    forall t | t in s.tasks
      ensures s.tasks[t].phase.Finished() ==> !s.tasks[t].phase.verdict.LinkFailed?
    {
      assert t in RootSet(roots) && Ran(w, s, t);
    }
  }

  // Every closed walk of lists from `f` makes it fail.
  lemma LastReports(w: World, roots: seq<Name>, f: Name, q: seq<Name>, s2: State, s3: State)
    requires AllRoots(w, roots) && LastRan(w, roots, f, s2, s3) && ClosedWalk(w, f, q)
    ensures s3.tasks[f].phase.Exited? && !Completed(s3, f)
  {
    forall j | 0 <= j < |q| - 1
      ensures Ran(w, s3, q[j])
    {
      WalkIsListed(w, roots, f, q, j);
    }
    PublishedWalk(w, s3, f, q);
    WalkIsListed(w, roots, f, q, 0);
    assert q[0 + 1] in BlockList(w, q[0]);
  }

  // Descriptor.proto finds every ring that `f` is not on.
  lemma RingIsFound(w: World, roots: seq<Name>, f: Name, s2: State, s3: State, p: seq<Name>)
    requires AllRoots(w, roots) && LastRan(w, roots, f, s2, s3) && Ring(w, p) && f !in p
    ensures DESCRIPTOR_PROTO in s3.tasks && s3.tasks[DESCRIPTOR_PROTO].phase.Exited?
  {
    var d := DESCRIPTOR_PROTO;
    RingCloses(w, p);
    var q := p + [d];
    assert d in p && f != d;
    assert q[0 + 1] in BlockList(w, q[0]);
    forall j | 0 <= j < |q| - 1
      ensures Ran(w, s2, q[j])
    {
      WalkIsListed(w, roots, d, q, j);
      assert q[j] in p && q[j] in RootSet(roots) - {f};
    }
    WalkIsListed(w, roots, d, q, 0);
    PublishedWalk(w, s2, d, q);
  }

  /** Whatever the files are: if the lists that tasks publish close a walk from a file, there is a
      complete run in which that file fails. */
  lemma ClosedWalkFails(w: World, roots: seq<Name>, permits: nat, f: Name, q: seq<Name>) returns (s: State)
    requires AllRoots(w, roots) && permits > 0 && ClosedWalk(w, f, q)
    ensures CompleteRun(w, roots, permits, s) && f in s.tasks && !Completed(s, f)
  {
    WalkIsListed(w, roots, f, q, 0);
    var s2, s3 := RunInOrder(w, roots, permits, f);
    LastReports(w, roots, f, q, s2, s3);
    RanLinks(w, roots, s3);
    s := FinishRun(w, roots, permits, s3);
    if !AllExited(s) {
      var p := StuckHasRing(w, roots, permits, s);
      assert f !in Waiters(s);
      RingIsFound(w, roots, f, s2, s3, p);
      assert false;
    }
  }

  /** The files alone decide whether `f` completes if and only if no false cycle can be closed
      from it. */
  lemma FilesDecideIff(w: World, permits: nat, f: Name)
    requires permits > 0
    ensures FilesDecide(w, permits, f) <==> forall q :: !FalseCycle(w, f, q)
  {
    if q :| FalseCycle(w, f, q) {
      var roots := SomeRoots(w);
      var s := ClosedWalkFails(w, roots, permits, f, q);
      assert !(Completed(s, f) <==> Sound(w, f));
    } else {
      forall roots, s | CompleteRun(w, roots, permits, s) && f in s.tasks
        ensures Completed(s, f) <==> Sound(w, f)
      {
        OutcomeIsDeterminate(w, roots, permits, s, f);
        assert forall p :: !LinkFailureFrom(w, s, f, p);
      }
    }
  }
}
