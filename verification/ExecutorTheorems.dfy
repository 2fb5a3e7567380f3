/** The main results about the executor, over all reachable states and all runs. */
module ExecutorTheorems {
  import opened Common
  import opened Executor
  import opened ExecutorSafety

  // --- Permits ------------------------------------------------------------------

  // Permits available and permits held always add up to the configured total, and a
  // task that waits for imports or has returned holds none.
  lemma PermitsConserved(w: World, roots: seq<Name>, permits: nat, s: State)
    requires Reachable(w, roots, permits, s)
    ensures s.permits + |Holders(s)| == permits
    ensures forall t :: t in s.tasks && (s.tasks[t].phase.Waiting? || s.tasks[t].phase.Exited?) ==> t !in Holders(s)
  {
    ReachableInv(w, roots, permits, s);
  }

  // --- Deadlock freedom -----------------------------------------------------------

  // The implicit dependency on an overridden descriptor.proto is awaited without a cycle
  // check. It is harmless when descriptor.proto itself never waits.
  predicate DescriptorNeverWaits(w: World) {
    !w.overridden || Imports(w, DESCRIPTOR_PROTO) == []
  }

  // What the invariant says about a waiting task.
  ghost predicate WaiterOk(w: World, s: State, t: Name) {
    && t in s.tasks && s.tasks[t].phase.Waiting?
    && s.tasks[t].stamp > 0
    && s.tasks[t].blockedOn == BlockList(w, t) != []
    && t !in s.tasks[t].checked
    && (forall d :: d in Imports(w, t) ==> d in s.tasks[t].checked)
    && (forall x, d ::
          x in s.tasks[t].checked && x in s.tasks && 0 < s.tasks[x].stamp < s.tasks[t].stamp
            && d in s.tasks[x].blockedOn
          ==> Settled(s, t, d))
  }

  lemma WaiterFacts(w: World, s: State, t: Name)
    requires t in s.tasks && TaskOk(w, s, t) && s.tasks[t].phase.Waiting?
    ensures WaiterOk(w, s, t)
  {
    var k := s.tasks[t];
    forall d | d in Imports(w, t)
      ensures d in k.checked
    {
      var j :| 0 <= j < |Imports(w, t)| && Imports(w, t)[j] == d;
      assert Searched(w, t, k.phase) == |Imports(w, t)|;
    }
    forall x, d | x in k.checked && x in s.tasks && 0 < s.tasks[x].stamp < k.stamp && d in s.tasks[x].blockedOn
      ensures Settled(s, t, d)
    {
      assert Settled(s, t, d) || Outstanding(k.phase, x, d);
    }
  }

  // `t` imports no member of the group.
  ghost predicate FreeOf(w: World, t: Name, group: set<Name>) {
    forall d :: d in Imports(w, t) ==> d !in group
  }

  lemma LastPublisher(w: World, s: State, group: set<Name>) returns (t: Name)
    requires group != {} && forall t :: t in group ==> WaiterOk(w, s, t)
    ensures t in group && t in s.tasks
        && forall u :: u in group ==> u in s.tasks && s.tasks[u].stamp <= s.tasks[t].stamp
    decreases |group|
  {
    t :| t in group;
    var rest := group - {t};
    assert WaiterOk(w, s, t) && group == rest + {t};
    if rest != {} {
      assert forall u :: u in rest ==> WaiterOk(w, s, u);
      var r := LastPublisher(w, s, rest);
      if s.tasks[t].stamp <= s.tasks[r].stamp {
        t := r;
      }
      assert forall u :: u in rest ==> s.tasks[u].stamp <= s.tasks[r].stamp;
    }
  }

  // The waits-for relation is well-founded: every group of waiting tasks has a member
  // that imports no other member. The last publisher of the group saw the lists of all
  // the others, so the members it visited form a smaller group of the same kind.
  lemma {:induction false} WaitsAreWellFounded(w: World, s: State, group: set<Name>) returns (t: Name)
    requires DistinctStamps(s)
    requires group != {} && forall t :: t in group ==> WaiterOk(w, s, t)
    ensures t in group && FreeOf(w, t, group)
    decreases |group|
  {
    var last := LastPublisher(w, s, group);
    if FreeOf(w, last, group) {
      return last;
    }
    var d :| d in Imports(w, last) && d in group;
    assert WaiterOk(w, s, d) && WaiterOk(w, s, last);
    var seen := group * s.tasks[last].checked;
    assert d in seen && last !in seen;
    SubsetSize(seen, group);
    t := WaitsAreWellFounded(w, s, seen);
    forall e | e in Imports(w, t)
      ensures e !in group
    {
      VisitedStaysInside(w, s, group, last, t, e);
    }
  }

  // What a visited member is blocked on has been visited as well, if it is a member.
  lemma VisitedStaysInside(w: World, s: State, group: set<Name>, last: Name, t: Name, e: Name)
    requires DistinctStamps(s) && last in s.tasks && last in group && t in group && t in s.tasks[last].checked
    requires forall u :: u in group ==> WaiterOk(w, s, u) && s.tasks[u].stamp <= s.tasks[last].stamp
    requires e in BlockList(w, t)
    ensures e in group ==> e in s.tasks[last].checked
  {
    assert WaiterOk(w, s, last) && WaiterOk(w, s, t);
    assert s.tasks[t].stamp < s.tasks[last].stamp;
    assert Settled(s, last, e);
  }

  // The tasks that wait for imports.
  ghost function Waiters(s: State): set<Name> {
    set t | t in s.tasks && s.tasks[t].phase.Waiting?
  }

  lemma SomeWaiterCanMove(w: World, total: nat, s: State)
    requires Inv(w, total, s) && DescriptorNeverWaits(w) && Waiters(s) != {}
    requires forall u :: u in s.tasks ==> s.tasks[u].phase.Waiting? || s.tasks[u].phase.Exited?
    ensures exists t :: CanStep(w, s, t)
  {
    forall t | t in Waiters(s)
      ensures WaiterOk(w, s, t)
    {
      assert TaskOk(w, s, t);
      WaiterFacts(w, s, t);
    }
    var t := WaitsAreWellFounded(w, s, Waiters(s));
    assert DepsOk(w, s, t) by {
      assert TaskOk(w, s, t);
    }
    var i := s.tasks[t].phase.next;
    if i < Degree(w, t) {
      var d := BlockList(w, t)[i];
      assert d in s.tasks && d !in Waiters(s) by {
        if i >= |Imports(w, t)| {
          assert d in Waiters(s) ==> WaiterOk(w, s, d);
        }
      }
    }
    assert CanStep(w, s, t);
  }

  // While a task is unfinished, some task can move.
  lemma NoDeadlock(w: World, roots: seq<Name>, permits: nat, s: State)
    requires Reachable(w, roots, permits, s) && permits > 0 && DescriptorNeverWaits(w)
    requires !AllExited(s)
    ensures exists t :: CanStep(w, s, t)
  {
    ReachableInv(w, roots, permits, s);
    if holder :| holder in Holders(s) {
      assert CanStep(w, s, holder);
    } else if t :| t in s.tasks && (s.tasks[t].phase.Queued? || s.tasks[t].phase.Reacquiring?) {
      assert Holders(s) == {};
      assert CanStep(w, s, t);
    } else {
      var u :| u in s.tasks && !s.tasks[u].phase.Exited?;
      assert forall x :: x in s.tasks ==> x !in Holders(s);
      assert u in Waiters(s);
      SomeWaiterCanMove(w, permits, s);
    }
  }

  // --- Linking order ----------------------------------------------------------------

  ghost predicate ImportWalk(w: World, p: seq<Name>) {
    |p| > 0 && forall j :: 0 <= j < |p| - 1 ==> p[j + 1] in Imports(w, p[j])
  }

  // Imports of a completed file completed before it.
  ghost predicate CompletedInOrder(w: World, s: State) {
    forall t, d :: Completed(s, t) && d in Imports(w, t) ==> Completed(s, d) && Order(s, d) < Order(s, t)
  }

  ghost function Order(s: State, t: Name): nat
    requires Completed(s, t)
  {
    s.tasks[t].phase.verdict.order
  }

  lemma InvCompletedInOrder(w: World, total: nat, s: State)
    requires Inv(w, total, s)
    ensures CompletedInOrder(w, s)
  {
    forall t, d | Completed(s, t) && d in Imports(w, t)
      ensures Completed(s, d) && Order(s, d) < Order(s, t)
    {
      assert TaskOk(w, s, t);
    }
  }

  // Along an import walk that starts at a completed file, all files are completed, each
  // one before its predecessor.
  lemma {:induction false} CompletedAlong(w: World, s: State, p: seq<Name>)
    requires CompletedInOrder(w, s) && ImportWalk(w, p) && Completed(s, p[0])
    ensures Completed(s, p[|p| - 1]) && (|p| > 1 ==> Order(s, p[|p| - 1]) < Order(s, p[0]))
    decreases |p|
  {
    if |p| > 1 {
      assert p[1] in Imports(w, p[0]);
      CompletedAlong(w, s, p[1..]);
    }
  }

  // A task links only when everything it imports, directly or not, has completed.
  lemma LinksAfterTransitiveImports(w: World, roots: seq<Name>, permits: nat, s: State, p: seq<Name>)
    requires Reachable(w, roots, permits, s) && ImportWalk(w, p) && |p| >= 2
    requires p[0] in s.tasks && (s.tasks[p[0]].phase.Linking? || Completed(s, p[0]))
    ensures Completed(s, p[|p| - 1])
  {
    ReachableInv(w, roots, permits, s);
    assert TaskOk(w, s, p[0]);
    assert p[1] in Imports(w, p[0]);
    InvCompletedInOrder(w, permits, s);
    CompletedAlong(w, s, p[1..]);
  }

  // An import walk from `f` that comes back to one of its names.
  ghost predicate ImportCycleFrom(w: World, f: Name, p: seq<Name>) {
    |p| >= 2 && p[0] == f && ImportWalk(w, p) && p[|p| - 1] in p[..|p| - 1]
  }

  // No file that imports itself, directly or through others, ever completes, and
  // neither does a file that imports such a file.
  lemma CompletedHasNoCycle(w: World, roots: seq<Name>, permits: nat, s: State, f: Name, p: seq<Name>)
    requires Reachable(w, roots, permits, s) && Completed(s, f)
    ensures !ImportCycleFrom(w, f, p)
  {
    ReachableInv(w, roots, permits, s);
    InvCompletedInOrder(w, permits, s);
    OrderExcludesCycles(w, s, f, p);
  }

  lemma OrderExcludesCycles(w: World, s: State, f: Name, p: seq<Name>)
    requires CompletedInOrder(w, s) && Completed(s, f)
    ensures !ImportCycleFrom(w, f, p)
  {
    if ImportCycleFrom(w, f, p) {
      var i :| 0 <= i < |p| - 1 && p[..|p| - 1][i] == p[|p| - 1];
      CompletedAlong(w, s, p[..i + 1]);
      CompletedAlong(w, s, p[i..]);
      assert false;
    }
  }

  // --- The outcome does not depend on the schedule ------------------------------------------

  // What decides whether a file can compile, said about the files alone: nothing it
  // reaches is missing, and no import cycle can be reached from it.
  ghost predicate Sound(w: World, f: Name) {
    (forall p :: !MissingFrom(w, f, p)) && (forall p :: !ImportCycleFrom(w, f, p))
  }

  // An import walk from `f` to a file that cannot be found.
  ghost predicate MissingFrom(w: World, f: Name, p: seq<Name>) {
    ImportWalk(w, p) && p[0] == f && SourceOf(w, p[|p| - 1]).Unavailable?
  }

  /** A sound file from which the lists that tasks publish close a walk all the same. Some edge
      of it is an implicit dependency. */
  ghost predicate FalseCycle(w: World, f: Name, q: seq<Name>) {
    Sound(w, f) && ClosedWalk(w, f, q)
  }

  // Linking the file itself failed.
  ghost predicate LinkFailedAt(s: State, f: Name) {
    f in s.tasks && s.tasks[f].phase.Exited? && s.tasks[f].phase.verdict.LinkFailed?
  }

  // An import walk from `f` to such a file.
  ghost predicate LinkFailureFrom(w: World, s: State, f: Name, p: seq<Name>) {
    ImportWalk(w, p) && p[0] == f && LinkFailedAt(s, p[|p| - 1])
  }

  ghost predicate NoLinkFailure(s: State) {
    forall t :: t in s.tasks && s.tasks[t].phase.Finished() ==> !s.tasks[t].phase.verdict.LinkFailed?
  }

  ghost predicate AllFailed(s: State, c: seq<Name>) {
    forall i :: 0 <= i < |c| ==> !Completed(s, c[i])
  }

  // The file has reported a cycle of published lists.
  ghost predicate Reported(w: World, s: State, f: Name) {
    && f in s.tasks && s.tasks[f].phase.Exited? && s.tasks[f].phase.verdict.CycleFound?
    && ClosedWalk(w, f, s.tasks[f].phase.verdict.sequence)
  }

  // A failed file leads, along failed imports, to a missing file, to a file that has reported a
  // cycle or could not be linked, or around an import cycle. The walk `p` collects the failed files; it cannot
  // repeat one without closing a cycle.
  lemma {:induction false} FailureIsTraced(w: World, s: State, p: seq<Name>) returns (c: seq<Name>)
    requires AllExited(s) && forall t :: t in s.tasks ==> VerdictOk(w, s, t)
    requires ImportWalk(w, p) && Distinct(p) && forall x :: x in p ==> x in s.tasks && !Completed(s, x)
    ensures Trace(w, s, c) && c[0] == p[0]
    decreases |s.tasks| - |p|
  {
    var last := p[|p| - 1];
    assert last in s.tasks && !Completed(s, last) && VerdictOk(w, s, last);
    var d := WhyFailed(w, s, last);
    if d.None? {
      return p;
    }
    c := p + [d.value];
    ExtendWalk(w, p, d.value);
    if d.value !in p {
      DistinctFits(c, s.tasks.Keys);
      c := FailureIsTraced(w, s, c);
    }
  }

  // A failed file is missing, has reported a cycle, could not be linked, or has an import that
  // failed.
  lemma WhyFailed(w: World, s: State, f: Name) returns (d: Option<Name>)
    requires f in s.tasks && s.tasks[f].phase.Exited? && !Completed(s, f) && VerdictOk(w, s, f)
    ensures d.Some? ==> d.value in Imports(w, f) && d.value in s.tasks && !Completed(s, d.value)
    ensures d.None? ==> SourceOf(w, f).Unavailable? || Reported(w, s, f) || LinkFailedAt(s, f)
  {
    d := if s.tasks[f].phase.verdict.ImportFailed? then Some(s.tasks[f].phase.verdict.dep) else None;
  }

  ghost predicate Trace(w: World, s: State, c: seq<Name>) {
    && ImportWalk(w, c) && AllFailed(s, c)
    && var last := c[|c| - 1];
       SourceOf(w, last).Unavailable? || Reported(w, s, last) || LinkFailedAt(s, last) || ImportCycleFrom(w, c[0], c)
  }

  // An import walk through failed files that ends at a missing file or at one that could not
  // be linked, or closes a cycle.
  ghost predicate Cause(w: World, s: State, c: seq<Name>) {
    && ImportWalk(w, c) && AllFailed(s, c)
    && (SourceOf(w, c[|c| - 1]).Unavailable? || LinkFailedAt(s, c[|c| - 1]) || ImportCycleFrom(w, c[0], c))
  }

  // Unless there is a false cycle, a failed file leads, along failed imports, to a missing file,
  // to one that could not be linked, or to a cycle.
  lemma FailureHasCause(w: World, s: State, f: Name) returns (c: seq<Name>)
    requires AllExited(s) && forall t :: t in s.tasks ==> VerdictOk(w, s, t)
    requires CompletedInOrder(w, s) && f in s.tasks && !Completed(s, f) && forall q :: !FalseCycle(w, f, q)
    ensures Cause(w, s, c) && c[0] == f
  {
    c := FailureIsTraced(w, s, [f]);
    if !Cause(w, s, c) {
      var last := c[|c| - 1];
      var q := s.tasks[last].phase.verdict.sequence;
      ExtendToClosed(w, c, q);
      assert !FalseCycle(w, f, c[..|c| - 1] + q);
      c := WhyUnsound(w, f);
      if ImportCycleFrom(w, f, c) {
        CycleFails(w, s, c);
      } else {
        MissingFails(w, s, c);
      }
    }
  }

  // What can be closed from an import can be closed from the importer.
  lemma ExtendToClosed(w: World, p: seq<Name>, q: seq<Name>)
    requires ImportWalk(w, p) && ClosedWalk(w, p[|p| - 1], q)
    ensures ClosedWalk(w, p[0], p[..|p| - 1] + q)
  {
    var c, n := p[..|p| - 1] + q, |p| - 1;
    forall j | 0 <= j < |c| - 1
      ensures c[j + 1] in BlockList(w, c[j])
    {
      if j < n {
        assert p[j + 1] in Imports(w, p[j]);
      } else {
        assert q[j - n + 1] in BlockList(w, q[j - n]);
      }
    }
    assert n > 0 ==> p[0 + 1] in Imports(w, p[0]);
    var i :| 0 <= i < |q| - 1 && q[..|q| - 1][i] == q[|q| - 1];
    assert c[..|c| - 1][n + i] == c[|c| - 1];
  }

  lemma WhyUnsound(w: World, f: Name) returns (q: seq<Name>)
    requires !Sound(w, f)
    ensures ImportWalk(w, q) && q[0] == f && (SourceOf(w, q[|q| - 1]).Unavailable? || ImportCycleFrom(w, f, q))
  {
    if p :| ImportCycleFrom(w, f, p) {
      q := p;
    } else {
      q :| MissingFrom(w, f, q);
    }
  }

  // No file on the way to a missing one has completed.
  lemma MissingFails(w: World, s: State, c: seq<Name>)
    requires CompletedInOrder(w, s) && ImportWalk(w, c) && SourceOf(w, c[|c| - 1]).Unavailable?
    requires forall t :: t in s.tasks ==> VerdictOk(w, s, t)
    ensures AllFailed(s, c)
  {
    var last := c[|c| - 1];
    assert last in s.tasks ==> VerdictOk(w, s, last);
    assert !Completed(s, last);
    forall i | 0 <= i < |c|
      ensures !Completed(s, c[i])
    {
      if Completed(s, c[i]) {
        CompletedAlong(w, s, c[i..]);
        assert false;
      }
    }
  }

  // No file on the way to a cycle, or on it, has completed.
  lemma CycleFails(w: World, s: State, c: seq<Name>)
    requires CompletedInOrder(w, s) && |c| > 0 && ImportCycleFrom(w, c[0], c)
    ensures AllFailed(s, c)
  {
    forall i | 0 <= i < |c|
      ensures !Completed(s, c[i])
    {
      if Completed(s, c[i]) {
        CompletedAlong(w, s, c[i..]);
        LoopFails(w, s, c);
        assert false;
      }
    }
  }

  lemma LoopFails(w: World, s: State, c: seq<Name>)
    requires CompletedInOrder(w, s) && |c| > 0 && ImportCycleFrom(w, c[0], c)
    ensures !Completed(s, c[|c| - 1])
  {
    if Completed(s, c[|c| - 1]) {
      var k :| 0 <= k < |c| - 1 && c[..|c| - 1][k] == c[|c| - 1];
      CompletedAlong(w, s, c[k..]);
      assert false;
    }
  }

  // A cause tells against the files or against linking.
  lemma CauseIsUnsound(w: World, s: State, c: seq<Name>)
    requires Cause(w, s, c)
    ensures !Sound(w, c[0]) || LinkFailureFrom(w, s, c[0], c)
  {
    assert MissingFrom(w, c[0], c) || ImportCycleFrom(w, c[0], c) || LinkFailureFrom(w, s, c[0], c);
  }

  // Nothing comes after a descriptor.proto without imports, so that no walk comes back
  // through it.
  lemma HarmlessDescriptor(w: World, f: Name, q: seq<Name>)
    requires DescriptorNeverWaits(w)
    ensures !FalseCycle(w, f, q)
  {
    if ClosedWalk(w, f, q) {
      forall j | 0 <= j < |q| - 1
        ensures q[j + 1] in Imports(w, q[j])
      {
        if q[j + 1] !in Imports(w, q[j]) {
          NothingAfterDescriptor(w, f, q, j + 1);
        }
      }
      assert ImportCycleFrom(w, f, q);
    }
  }

  lemma NothingAfterDescriptor(w: World, f: Name, q: seq<Name>, j: nat)
    requires DescriptorNeverWaits(w) && w.overridden && ClosedWalk(w, f, q)
    ensures j < |q| ==> q[j] != DESCRIPTOR_PROTO
  {
    var k :| 0 <= k < |q| - 1 && q[..|q| - 1][k] == q[|q| - 1];
    WalkGoesOn(w, f, q, k);
    if j < |q| - 1 {
      WalkGoesOn(w, f, q, j);
    }
  }

  lemma WalkGoesOn(w: World, f: Name, q: seq<Name>, j: nat)
    requires ClosedWalk(w, f, q) && j < |q| - 1
    ensures BlockList(w, q[j]) != []
  {
    assert q[j + 1] in BlockList(w, q[j]);
  }

  lemma ExtendWalk(w: World, p: seq<Name>, d: Name)
    requires ImportWalk(w, p) && d in Imports(w, p[|p| - 1])
    ensures ImportWalk(w, p + [d])
    ensures d in p ==> ImportCycleFrom(w, p[0], p + [d])
  {
    JoinWalks(w, p, [p[|p| - 1], d]);
    assert p[..|p| - 1] + [p[|p| - 1], d] == p + [d];
    assert (p + [d])[..|p|] == p;
  }

  lemma ExtendToCycle(w: World, p: seq<Name>, q: seq<Name>)
    requires ImportWalk(w, p) && ImportCycleFrom(w, p[|p| - 1], q)
    ensures ImportCycleFrom(w, p[0], p[..|p| - 1] + q)
  {
    var c, n := p[..|p| - 1] + q, |p| - 1;
    JoinWalks(w, p, q);
    var i :| 0 <= i < |q| - 1 && q[..|q| - 1][i] == q[|q| - 1];
    assert c[..|c| - 1][n + i] == c[|c| - 1];
  }

  lemma JoinWalks(w: World, p: seq<Name>, q: seq<Name>)
    requires ImportWalk(w, p) && ImportWalk(w, q) && q[0] == p[|p| - 1]
    ensures ImportWalk(w, p[..|p| - 1] + q)
  {
    var c, n := p[..|p| - 1] + q, |p| - 1;
    forall j | 0 <= j < |c| - 1
      ensures c[j + 1] in Imports(w, c[j])
    {
      if j < n {
        assert p[j + 1] in Imports(w, p[j]);
      } else {
        assert q[j - n + 1] in Imports(w, q[j - n]);
      }
    }
  }

  // When all tasks have returned, a file from which no false cycle can be closed has completed
  // exactly if it is sound and linking failed for nothing it imports, directly or not. The order
  // of the moves does not matter.
  lemma OutcomeIsDeterminate(w: World, roots: seq<Name>, permits: nat, s: State, f: Name)
    requires Reachable(w, roots, permits, s) && AllExited(s)
    requires f in s.tasks && forall q :: !FalseCycle(w, f, q)
    ensures Completed(s, f) <==> Sound(w, f) && forall p :: !LinkFailureFrom(w, s, f, p)
  {
    ReachableInv(w, roots, permits, s);
    if Completed(s, f) {
      forall p
        ensures !MissingFrom(w, f, p) && !LinkFailureFrom(w, s, f, p)
      {
        if ImportWalk(w, p) && p[0] == f {
          InvCompletedInOrder(w, permits, s);
          CompletedAlong(w, s, p);
          assert TaskOk(w, s, p[|p| - 1]);
        }
      }
      forall p
        ensures !ImportCycleFrom(w, f, p)
      {
        CompletedHasNoCycle(w, roots, permits, s, f, p);
      }
    } else {
      assert forall t :: t in s.tasks ==> TaskOk(w, s, t);
      InvCompletedInOrder(w, permits, s);
      var c := FailureHasCause(w, s, f);
      CauseIsUnsound(w, s, c);
    }
  }
}
