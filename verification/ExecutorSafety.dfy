/** What every interleaving of the executor keeps: permits are conserved, searches cover
    what was published before them, reported cycles are real, and a file is linked only
    after everything it imports has completed. */
module ExecutorSafety {
  import opened Common
  import opened Executor

  // --- How one task may change over time --------------------------------------

  ghost predicate TaskLater(clock: nat, k: Task, k': Task) {
    && (k.stamp > 0 ==> k'.stamp == k.stamp && (k'.blockedOn == k.blockedOn || k'.blockedOn == []))
    && (k.stamp == 0 ==> k'.stamp == 0 || k'.stamp > clock)
    && (k.phase.Finished() ==> k'.phase.Finished() && k'.phase.verdict == k.phase.verdict)
  }

  ghost predicate Later(s: State, s': State) {
    && s.clock <= s'.clock
    && (forall u :: u in s.tasks ==> u in s'.tasks && TaskLater(s.clock, s.tasks[u], s'.tasks[u]))
    && (forall u :: u in s'.tasks && u !in s.tasks ==> s'.tasks[u] == FRESH)
  }

  // --- The invariant, task by task --------------------------------------------

  ghost predicate PublishedOk(w: World, s: State, t: Name)
    requires t in s.tasks
  {
    var k := s.tasks[t];
    && (k.blockedOn == [] || k.blockedOn == BlockList(w, t))
    && k.stamp <= s.clock
    && (k.stamp == 0 ==> k.blockedOn == [])
    && (k.phase.Queued? || k.phase.Resolving? ==> k.stamp == 0)
    && (k.phase.Checking? || k.phase.Waiting? ==> k.stamp > 0 && k.blockedOn == BlockList(w, t) != [])
    && (k.phase.Checking? || k.phase.Waiting? || k.phase.Reacquiring? || k.phase.Linking? ==>
          SourceOf(w, t).Parsed?)
  }

  ghost predicate DistinctStamps(s: State) {
    forall t, u :: t in s.tasks && u in s.tasks && t != u && s.tasks[t].stamp > 0 ==>
      s.tasks[t].stamp != s.tasks[u].stamp
  }

  // The result whose list holds entry `j` of the search stack.
  function Under(t: Name, stack: seq<Frame>, j: nat): Name
    requires j <= |stack|
  {
    if j == 0 then t else stack[j - 1].name
  }

  ghost predicate FrameOk(w: World, s: State, t: Name, j: nat)
    requires t in s.tasks && s.tasks[t].phase.Checking? && j < |s.tasks[t].phase.stack|
  {
    var stack := s.tasks[t].phase.stack;
    && stack[j].name in s.tasks
    && stack[j].name in s.tasks[t].checked
    && stack[j].name in BlockList(w, Under(t, stack, j))
    && (forall d :: d in stack[j].pending ==> d in BlockList(w, stack[j].name))
  }

  // The search stack is an import path from the task.
  ghost predicate StackOk(w: World, s: State, t: Name)
    requires t in s.tasks
  {
    s.tasks[t].phase.Checking? ==>
      var Checking(i, enter, stack) := s.tasks[t].phase;
      && i <= Degree(w, t)
      && (enter.Some? || stack != [] ==> i < |Imports(w, t)|)
      && (forall j: nat :: j < |stack| ==> FrameOk(w, s, t, j))
      && (enter.Some? ==> enter.value in s.tasks && enter.value != t &&
                          enter.value in BlockList(w, Under(t, stack, |stack|)))
      && (stack != [] ==> stack[0].name == Imports(w, t)[i])
      && (stack == [] && enter.Some? ==> enter.value == Imports(w, t)[i])
  }

  // Nothing is left to do about `d`: it is not `t` itself, and `t` has visited it or
  // did so before `d` had published anything.
  ghost predicate Settled(s: State, t: Name, d: Name)
    requires t in s.tasks
  {
    d != t &&
    (d in s.tasks[t].checked || d !in s.tasks || s.tasks[d].stamp == 0 || s.tasks[d].stamp > s.tasks[t].stamp)
  }

  // The search of `t` still has `d`, an entry of the list of `x`, ahead of it.
  ghost predicate Outstanding(p: Phase, x: Name, d: Name) {
    p.Checking? && ((exists f :: f in p.stack && f.name == x && d in f.pending) || p.enter == Some(d))
  }

  // The number of explicit imports that the search of `t` is done with.
  function Searched(w: World, t: Name, p: Phase): nat {
    if p.Checking? && p.next < |Imports(w, t)| then p.next else |Imports(w, t)|
  }

  ghost predicate CoverOk(w: World, s: State, t: Name)
    requires t in s.tasks
  {
    var k := s.tasks[t];
    k.phase.Checking? || k.phase.Waiting? ==>
      && t !in k.checked
      && (forall j :: 0 <= j < Searched(w, t, k.phase) ==> Imports(w, t)[j] in k.checked)
      && (forall x, d ::
            x in k.checked && x in s.tasks && 0 < s.tasks[x].stamp < k.stamp && d in s.tasks[x].blockedOn ==>
            Settled(s, t, d) || Outstanding(k.phase, x, d))
  }

  // The file's result is available and is not an error.
  ghost predicate Completed(s: State, f: Name) {
    f in s.tasks && s.tasks[f].phase.Finished() && s.tasks[f].phase.verdict.Ok?
  }

  ghost predicate ImportsCompleted(w: World, s: State, t: Name) {
    forall d :: d in Imports(w, t) ==> Completed(s, d)
  }

  ghost predicate DepsOk(w: World, s: State, t: Name)
    requires t in s.tasks
  {
    match s.tasks[t].phase
    case Checking(i, _, _) => i <= Degree(w, t) && forall j :: 0 <= j < i ==> BlockList(w, t)[j] in s.tasks
    case Waiting(i) =>
      && i <= Degree(w, t)
      && (forall d :: d in BlockList(w, t) ==> d in s.tasks)
      && (forall j :: 0 <= j < i && j < |Imports(w, t)| ==> Completed(s, Imports(w, t)[j]))
    case Reacquiring => ImportsCompleted(w, s, t)
    case Linking => ImportsCompleted(w, s, t)
    case _ => true
  }

  // A walk along published lists whose last name occurs before. It starts at `t`, with an
  // explicit import.
  ghost predicate ClosedWalk(w: World, t: Name, p: seq<Name>) {
    && |p| >= 2
    && p[0] == t
    && p[1] in Imports(w, t)
    && (forall j :: 0 <= j < |p| - 1 ==> p[j + 1] in BlockList(w, p[j]))
    && p[|p| - 1] in p[..|p| - 1]
  }

  // Every verdict has its reason.
  ghost predicate VerdictOk(w: World, s: State, t: Name)
    requires t in s.tasks
  {
    s.tasks[t].phase.Finished() ==>
      match s.tasks[t].phase.verdict
      case Ok(n) =>
        && !SourceOf(w, t).Unavailable?
        && n <= s.clock
        && (forall d :: d in Imports(w, t) ==> Completed(s, d) && s.tasks[d].phase.verdict.order < n)
      case NoSource => SourceOf(w, t).Unavailable?
      case CycleFound(p) => ClosedWalk(w, t, p)
      case ImportFailed(d) => d in Imports(w, t) && d in s.tasks && s.tasks[d].phase.Finished() && !Completed(s, d)
      case LinkFailed => SourceOf(w, t).Parsed? && ImportsCompleted(w, s, t)
  }

  ghost predicate TaskOk(w: World, s: State, t: Name)
    requires t in s.tasks
  {
    PublishedOk(w, s, t) && StackOk(w, s, t) && CoverOk(w, s, t) && DepsOk(w, s, t) && VerdictOk(w, s, t)
  }

  ghost function Holders(s: State): set<Name> {
    set t | t in s.tasks && s.tasks[t].phase.Holds()
  }

  ghost predicate Inv(w: World, total: nat, s: State) {
    && s.permits + |Holders(s)| == total
    && DistinctStamps(s)
    && (forall t :: t in s.tasks ==> TaskOk(w, s, t))
  }

  // --- Preservation -----------------------------------------------------------

  lemma InitInv(w: World, roots: seq<Name>, permits: nat)
    ensures Inv(w, permits, Init(roots, permits))
  {
    assert Holders(Init(roots, permits)) == {};
  }

  lemma StepLater(w: World, s: State, t: Name, linkOk: bool)
    requires CanStep(w, s, t) && PublishedOk(w, s, t)
    ensures Later(s, Step(w, s, t, linkOk))
  {
    var s' := Step(w, s, t, linkOk);
    assert TaskLater(s.clock, s.tasks[t], s'.tasks[t]) by {
      match s.tasks[t].phase
      case Checking(_, _, _) => CheckingLater(w, s, t, linkOk);
      case _ =>
    }
    OthersLater(s, s', t);
  }

  lemma OthersLater(s: State, s': State, t: Name)
    requires t in s.tasks && OnlyMoves(s, s', t) && TaskLater(s.clock, s.tasks[t], s'.tasks[t])
    ensures Later(s, s')
  {
  }

  lemma CheckingLater(w: World, s: State, t: Name, linkOk: bool)
    requires t in s.tasks && s.tasks[t].phase.Checking?
    ensures TaskLater(s.clock, s.tasks[t], Step(w, s, t, linkOk).tasks[t])
  {
    var Checking(i, enter, stack) := s.tasks[t].phase;
    if enter.Some? {
      assert Step(w, s, t, linkOk) == EnterStep(s, t);
    } else if stack != [] {
      assert Step(w, s, t, linkOk) == ScanStep(s, t);
    } else if i < Degree(w, t) {
      assert Step(w, s, t, linkOk) == ImportStep(w, s, t);
    }
  }

  // A task that does not move keeps its part of the invariant while others move.
  lemma OtherTaskOk(w: World, s: State, s': State, u: Name)
    requires Later(s, s') && u in s.tasks && s'.tasks[u] == s.tasks[u] && TaskOk(w, s, u)
    requires forall x :: x in s.tasks ==> PublishedOk(w, s, x)
    ensures TaskOk(w, s', u)
  {
    var k := s.tasks[u];
    if k.phase.Checking? {
      forall j: nat | j < |k.phase.stack|
        ensures FrameOk(w, s', u, j)
      {
        assert FrameOk(w, s, u, j);
      }
    }
    if k.phase.Checking? || k.phase.Waiting? {
      forall x, d | x in k.checked && x in s'.tasks && 0 < s'.tasks[x].stamp < k.stamp && d in s'.tasks[x].blockedOn
        ensures Settled(s', u, d) || Outstanding(k.phase, x, d)
      {
        assert x in s.tasks && s.tasks[x].stamp == s'.tasks[x].stamp && d in s.tasks[x].blockedOn;
        assert Settled(s, u, d) || Outstanding(k.phase, x, d);
      }
    }
  }

  // The sequence of the search lists the stack from the bottom up.
  lemma {:induction false} SequenceAt(t: Name, stack: seq<Frame>, j: nat)
    requires j <= |stack|
    ensures |Sequence(t, stack)| == |stack| + 1 && Sequence(t, stack)[j] == Under(t, stack, j)
    decreases |stack|
  {
    if stack != [] {
      SequenceAt(t, stack[..|stack| - 1], if j < |stack| then j else 0);
    }
  }

  lemma ResolveOk(w: World, total: nat, s: State, t: Name)
    requires Inv(w, total, s) && t in s.tasks && s.tasks[t].phase.Resolving?
    ensures TaskOk(w, ResolveStep(w, s, t), t)
  {
    assert TaskOk(w, s, t);
  }

  ghost predicate AtImport(w: World, s: State, t: Name) {
    && t in s.tasks && s.tasks[t].phase.Checking? && s.tasks[t].phase.next < Degree(w, t)
    && s.tasks[t].phase.enter.None? && s.tasks[t].phase.stack == []
  }

  lemma ImportCover(w: World, s: State, t: Name)
    requires AtImport(w, s, t) && CoverOk(w, s, t)
    ensures CoverOk(w, ImportStep(w, s, t), t)
  {
    var s', k := ImportStep(w, s, t), s.tasks[t];
    if s'.tasks[t].phase.Checking? {
      forall x, d | x in k.checked && x in s'.tasks && 0 < s'.tasks[x].stamp < k.stamp && d in s'.tasks[x].blockedOn
        ensures Settled(s', t, d)
      {
        assert Settled(s, t, d) || Outstanding(k.phase, x, d);
      }
    }
  }

  lemma ImportDeps(w: World, s: State, t: Name)
    requires AtImport(w, s, t) && DepsOk(w, s, t)
    ensures DepsOk(w, ImportStep(w, s, t), t) && VerdictOk(w, ImportStep(w, s, t), t)
  {
    var i := s.tasks[t].phase.next;
    var dep := BlockList(w, t)[i];
    if i < |Imports(w, t)| && dep == t {
      assert [t, dep][..1] == [t];
      assert ClosedWalk(w, t, [t, dep]);
    }
  }

  lemma ImportOk(w: World, s: State, t: Name)
    requires AtImport(w, s, t) && TaskOk(w, s, t)
    ensures TaskOk(w, ImportStep(w, s, t), t)
  {
    ImportCover(w, s, t);
    ImportDeps(w, s, t);
    assert PublishedOk(w, ImportStep(w, s, t), t);
    assert StackOk(w, ImportStep(w, s, t), t);
  }

  lemma EnterStack(w: World, s: State, t: Name)
    requires t in s.tasks && StackOk(w, s, t) && s.tasks[t].phase.Checking? && s.tasks[t].phase.enter.Some?
    requires forall x :: x in s.tasks ==> PublishedOk(w, s, x)
    ensures StackOk(w, EnterStep(s, t), t)
  {
    var s', k := EnterStep(s, t), s.tasks[t];
    forall j: nat | j < |s'.tasks[t].phase.stack|
      ensures FrameOk(w, s', t, j)
    {
      if j < |k.phase.stack| {
        assert FrameOk(w, s, t, j);
      } else {
        assert PublishedOk(w, s, k.phase.enter.value);
      }
    }
  }

  lemma EnterCover(w: World, s: State, t: Name)
    requires t in s.tasks && s.tasks[t].phase.Checking? && s.tasks[t].phase.enter.Some?
    requires CoverOk(w, s, t) && StackOk(w, s, t)
    ensures CoverOk(w, EnterStep(s, t), t)
  {
    var s', k := EnterStep(s, t), s.tasks[t];
    var k', stack := s'.tasks[t], k.phase.stack;
    forall x, d | x in k'.checked && x in s'.tasks && 0 < s'.tasks[x].stamp < k'.stamp && d in s'.tasks[x].blockedOn
      ensures Settled(s', t, d) || Outstanding(k'.phase, x, d)
    {
      if x in k.checked {
        assert Settled(s, t, d) || Outstanding(k.phase, x, d);
        if Outstanding(k.phase, x, d) && k.phase.enter != Some(d) {
          var f :| f in stack && f.name == x && d in f.pending;
          assert f in k'.phase.stack;
        }
      } else {
        assert k'.phase.stack[|stack|] == Frame(x, s.tasks[x].blockedOn);
      }
    }
  }

  lemma EnterOk(w: World, s: State, t: Name)
    requires t in s.tasks && TaskOk(w, s, t) && s.tasks[t].phase.Checking? && s.tasks[t].phase.enter.Some?
    requires forall x :: x in s.tasks ==> PublishedOk(w, s, x)
    ensures TaskOk(w, EnterStep(s, t), t)
  {
    EnterStack(w, s, t);
    EnterCover(w, s, t);
  }

  // The frame on top returns.
  lemma ScanPop(w: World, s: State, t: Name)
    requires t in s.tasks && StackOk(w, s, t) && s.tasks[t].phase.Checking?
    requires s.tasks[t].phase.enter.None? && s.tasks[t].phase.stack != []
    requires s.tasks[t].phase.stack[|s.tasks[t].phase.stack| - 1].pending == []
    ensures StackOk(w, ScanStep(s, t), t)
  {
    var s', stack := ScanStep(s, t), s.tasks[t].phase.stack;
    forall j: nat | j < |s'.tasks[t].phase.stack|
      ensures FrameOk(w, s', t, j)
    {
      assert FrameOk(w, s, t, j);
    }
  }

  // The frame on top goes on to its next entry.
  lemma ScanNext(w: World, s: State, t: Name)
    requires t in s.tasks && StackOk(w, s, t) && s.tasks[t].phase.Checking?
    requires s.tasks[t].phase.enter.None? && s.tasks[t].phase.stack != []
    requires s.tasks[t].phase.stack[|s.tasks[t].phase.stack| - 1].pending != []
    ensures StackOk(w, ScanStep(s, t), t)
  {
    var s', stack := ScanStep(s, t), s.tasks[t].phase.stack;
    var n := |stack| - 1;
    assert FrameOk(w, s, t, n);
    SequenceAt(t, stack, 0);
    if s'.tasks[t].phase.Checking? {
      forall j: nat | j < |s'.tasks[t].phase.stack|
        ensures FrameOk(w, s', t, j)
      {
        assert FrameOk(w, s, t, j);
      }
    }
  }

  lemma ScanStack(w: World, s: State, t: Name)
    requires t in s.tasks && StackOk(w, s, t) && s.tasks[t].phase.Checking?
    requires s.tasks[t].phase.enter.None? && s.tasks[t].phase.stack != []
    ensures StackOk(w, ScanStep(s, t), t)
  {
    if s.tasks[t].phase.stack[|s.tasks[t].phase.stack| - 1].pending == [] {
      ScanPop(w, s, t);
    } else {
      ScanNext(w, s, t);
    }
  }

  lemma ScanCover(w: World, s: State, t: Name)
    requires t in s.tasks && s.tasks[t].phase.Checking?
    requires s.tasks[t].phase.enter.None? && s.tasks[t].phase.stack != []
    requires CoverOk(w, s, t) && StackOk(w, s, t)
    ensures CoverOk(w, ScanStep(s, t), t)
  {
    var s', k := ScanStep(s, t), s.tasks[t];
    var k', stack := s'.tasks[t], k.phase.stack;
    assert FrameOk(w, s, t, 0);
    if k'.phase.Checking? {
      forall x, d | x in k'.checked && x in s'.tasks && 0 < s'.tasks[x].stamp < k'.stamp && d in s'.tasks[x].blockedOn
        ensures Settled(s', t, d) || Outstanding(k'.phase, x, d)
      {
        assert Settled(s, t, d) || Outstanding(k.phase, x, d);
        if !Settled(s, t, d) {
          var f :| f in stack && f.name == x && d in f.pending;
          OutstandingAfterScan(s, t, f, d);
        }
      }
    }
  }

  lemma ScanOk(w: World, s: State, t: Name)
    requires t in s.tasks && TaskOk(w, s, t) && s.tasks[t].phase.Checking?
    requires s.tasks[t].phase.enter.None? && s.tasks[t].phase.stack != []
    ensures TaskOk(w, ScanStep(s, t), t)
  {
    ScanStack(w, s, t);
    ScanCover(w, s, t);
    assert FrameOk(w, s, t, 0);
    if ScanStep(s, t).tasks[t].phase.Closing? {
      WalkOfStack(w, s, t);
    }
  }

  // A name that is still pending before a turn of the loop is pending after it, or it
  // is the one just taken, which is about to be entered unless it has no result.
  lemma OutstandingAfterScan(s: State, t: Name, f: Frame, d: Name)
    requires t in s.tasks && s.tasks[t].phase.Checking? && s.tasks[t].phase.stack != []
    requires f in s.tasks[t].phase.stack && d in f.pending
    requires ScanStep(s, t).tasks[t].phase.Checking?
    ensures var s' := ScanStep(s, t);
            Outstanding(s'.tasks[t].phase, f.name, d) || Settled(s', t, d)
  {
    var stack := s.tasks[t].phase.stack;
    var n := |stack| - 1;
    var p' := ScanStep(s, t).tasks[t].phase;
    var j :| 0 <= j <= n && stack[j] == f;
    if j < n {
      assert p'.stack[j] == f;
    } else if d != f.pending[0] {
      assert p'.stack[n] == Frame(f.name, f.pending[1..]);
    } else {
      SequenceAt(t, stack, 0);
      assert t in Sequence(t, stack);
    }
  }

  lemma FirstOfStack(w: World, s: State, t: Name)
    requires t in s.tasks && StackOk(w, s, t) && s.tasks[t].phase.Checking? && s.tasks[t].phase.stack != []
    ensures var q := Sequence(t, s.tasks[t].phase.stack);
            |q| > 1 && q[1] in Imports(w, t)
  {
    SequenceAt(t, s.tasks[t].phase.stack, 1);
  }

  lemma WalkOfStack(w: World, s: State, t: Name)
    requires t in s.tasks && StackOk(w, s, t) && s.tasks[t].phase.Checking? && s.tasks[t].phase.stack != []
    requires ScanStep(s, t).tasks[t].phase.Closing?
    ensures var p := ScanStep(s, t).tasks[t].phase.verdict.sequence;
            ClosedWalk(w, t, p)
  {
    var stack := s.tasks[t].phase.stack;
    var n := |stack|;
    assert FrameOk(w, s, t, n - 1);
    var p := Sequence(t, stack) + [stack[n - 1].pending[0]];
    SequenceAt(t, stack, 0);
    SequenceAt(t, stack, n);
    FirstOfStack(w, s, t);
    forall j | 0 <= j < |p| - 1
      ensures p[j + 1] in BlockList(w, p[j])
    {
      SequenceAt(t, stack, j);
      if j < n {
        SequenceAt(t, stack, j + 1);
        assert FrameOk(w, s, t, j);
      }
    }
    assert p[..|p| - 1] == Sequence(t, stack);
  }

  // Moving on from waiting for one dependency to waiting for the next keeps the cover.
  lemma WaitCover(w: World, s: State, t: Name)
    requires CanStep(w, s, t) && s.tasks[t].phase.Waiting? && CoverOk(w, s, t)
    ensures CoverOk(w, WaitStep(w, s, t), t)
  {
    var s', k := WaitStep(w, s, t), s.tasks[t];
    if s'.tasks[t].phase.Waiting? {
      forall x, d | x in k.checked && x in s'.tasks && 0 < s'.tasks[x].stamp < k.stamp && d in s'.tasks[x].blockedOn
        ensures Settled(s', t, d)
      {
        assert Settled(s, t, d) || Outstanding(k.phase, x, d);
      }
    }
  }

  lemma WaitDeps(w: World, s: State, t: Name)
    requires CanStep(w, s, t) && s.tasks[t].phase.Waiting? && DepsOk(w, s, t)
    ensures DepsOk(w, WaitStep(w, s, t), t) && VerdictOk(w, WaitStep(w, s, t), t)
  {
    var s' := WaitStep(w, s, t);
    assert forall d :: Completed(s, d) ==> Completed(s', d);
    var i := s.tasks[t].phase.next;
    if i < |Imports(w, t)| {
      assert BlockList(w, t)[i] == Imports(w, t)[i];
    }
  }

  lemma WaitOk(w: World, s: State, t: Name)
    requires CanStep(w, s, t) && TaskOk(w, s, t) && s.tasks[t].phase.Waiting?
    ensures TaskOk(w, WaitStep(w, s, t), t)
  {
    WaitCover(w, s, t);
    WaitDeps(w, s, t);
  }

  lemma MovedTaskOk(w: World, total: nat, s: State, t: Name, linkOk: bool)
    requires Inv(w, total, s) && CanStep(w, s, t)
    ensures TaskOk(w, Step(w, s, t, linkOk), t)
  {
    assert TaskOk(w, s, t);
    assert forall d :: d in s.tasks ==> TaskOk(w, s, d);
    var k := s.tasks[t];
    match k.phase
    case Resolving => ResolveOk(w, total, s, t);
    case Checking(i, enter, stack) =>
      if enter.Some? {
        EnterOk(w, s, t);
      } else if stack != [] {
        ScanOk(w, s, t);
      } else if i < Degree(w, t) {
        ImportOk(w, s, t);
      } else {
        StartWaitingOk(w, s, t);
      }
    case Waiting(_) => WaitOk(w, s, t);
    case _ => PlainStepOk(w, s, t, linkOk);
  }

  // Steps that only take or return a permit or record the outcome of linking.
  lemma PlainStepOk(w: World, s: State, t: Name, linkOk: bool)
    requires CanStep(w, s, t) && TaskOk(w, s, t)
    requires forall d :: Completed(s, d) ==> s.tasks[d].phase.verdict.order <= s.clock
    requires var p := s.tasks[t].phase; p.Queued? || p.Reacquiring? || p.Linking? || p.Closing?
    ensures TaskOk(w, Step(w, s, t, linkOk), t)
  {
    StepLater(w, s, t, linkOk);
    var s' := Step(w, s, t, linkOk);
    if ImportsCompleted(w, s, t) {
      CompletedStays(w, s, t, s');
    }
    assert PublishedOk(w, s', t);
    assert DepsOk(w, s', t);
    assert VerdictOk(w, s', t);
  }

  lemma CompletedStays(w: World, s: State, t: Name, s': State)
    requires Later(s, s') && ImportsCompleted(w, s, t)
    ensures ImportsCompleted(w, s', t)
  {
  }

  lemma StartWaitingOk(w: World, s: State, t: Name)
    requires t in s.tasks && TaskOk(w, s, t)
    requires s.tasks[t].phase.Checking? && s.tasks[t].phase.enter.None? && s.tasks[t].phase.stack == []
    requires s.tasks[t].phase.next == Degree(w, t)
    ensures TaskOk(w, Put(s, t, s.tasks[t].(phase := Waiting(0))).(permits := s.permits + 1), t)
  {
    var k := s.tasks[t];
    var s' := Put(s, t, k.(phase := Waiting(0))).(permits := s.permits + 1);
    forall x, d | x in k.checked && x in s'.tasks && 0 < s'.tasks[x].stamp < k.stamp && d in s'.tasks[x].blockedOn
      ensures Settled(s', t, d)
    {
      assert Settled(s, t, d) || Outstanding(k.phase, x, d);
    }
  }

  function HeldBy(p: Phase): nat {
    if p.Holds() then 1 else 0
  }

  lemma HoldersMove(s: State, s': State, t: Name)
    requires t in s.tasks && OnlyMoves(s, s', t)
    ensures |Holders(s')| == |Holders(s)| - HeldBy(s.tasks[t].phase) + HeldBy(s'.tasks[t].phase)
  {
    forall u | u != t
      ensures u in Holders(s) <==> u in Holders(s')
    {
      assert u in s'.tasks && u !in s.tasks ==> s'.tasks[u] == FRESH;
    }
    SizeApartFrom(Holders(s), Holders(s'), t);
  }

  lemma SizeApartFrom(a: set<Name>, b: set<Name>, t: Name)
    requires forall u :: u != t ==> (u in a <==> u in b)
    ensures |b| == |a| - (if t in a then 1 else 0) + (if t in b then 1 else 0)
  {
    assert a - {t} == b - {t};
    assert |a - {t}| == |a| - if t in a then 1 else 0;
    assert |b - {t}| == |b| - if t in b then 1 else 0;
  }

  // A step takes a permit exactly when the task starts to hold one, and gives it back
  // exactly when the task stops holding it.
  lemma StepPermits(w: World, s: State, t: Name, linkOk: bool)
    requires CanStep(w, s, t)
    ensures var s' := Step(w, s, t, linkOk);
            && s'.permits + HeldBy(s'.tasks[t].phase) == s.permits + HeldBy(s.tasks[t].phase)
            && s'.permits + |Holders(s')| == s.permits + |Holders(s)|
  {
    var s' := Step(w, s, t, linkOk);
    HoldersMove(s, s', t);
    match s.tasks[t].phase
    case Checking(_, _, _) => CheckingPermits(w, s, t, linkOk);
    case _ =>
  }

  lemma CheckingPermits(w: World, s: State, t: Name, linkOk: bool)
    requires t in s.tasks && s.tasks[t].phase.Checking?
    ensures var s' := Step(w, s, t, linkOk);
            s'.permits + HeldBy(s'.tasks[t].phase) == s.permits + HeldBy(s.tasks[t].phase)
  {
    var Checking(i, enter, stack) := s.tasks[t].phase;
    if enter.Some? {
      assert Step(w, s, t, linkOk) == EnterStep(s, t);
    } else if stack != [] {
      assert Step(w, s, t, linkOk) == ScanStep(s, t);
    } else if i < Degree(w, t) {
      assert Step(w, s, t, linkOk) == ImportStep(w, s, t);
    }
  }

  lemma StepStamps(w: World, s: State, t: Name, linkOk: bool)
    requires CanStep(w, s, t) && DistinctStamps(s)
    requires forall x :: x in s.tasks ==> PublishedOk(w, s, x)
    ensures DistinctStamps(Step(w, s, t, linkOk))
  {
    StepLater(w, s, t, linkOk);
    var s' := Step(w, s, t, linkOk);
    forall x, y | x in s'.tasks && y in s'.tasks && x != y && s'.tasks[x].stamp > 0
      ensures s'.tasks[x].stamp != s'.tasks[y].stamp
    {
      assert x in s.tasks;
      assert y in s.tasks ==> PublishedOk(w, s, y);
      assert PublishedOk(w, s, x);
    }
  }

  lemma StepInv(w: World, total: nat, s: State, t: Name, linkOk: bool)
    requires Inv(w, total, s) && CanStep(w, s, t)
    ensures Inv(w, total, Step(w, s, t, linkOk))
  {
    var s' := Step(w, s, t, linkOk);
    StepPermits(w, s, t, linkOk);
    StepStamps(w, s, t, linkOk);
    StepLater(w, s, t, linkOk);
    forall u | u in s'.tasks
      ensures TaskOk(w, s', u)
    {
      if u == t {
        MovedTaskOk(w, total, s, t, linkOk);
      } else if u in s.tasks {
        OtherTaskOk(w, s, s', u);
      }
    }
  }

  lemma {:induction false} ExecInv(w: World, total: nat, s: State, moves: seq<Move>)
    requires Inv(w, total, s) && Exec(w, s, moves).Some?
    ensures Inv(w, total, Exec(w, s, moves).value)
    decreases |moves|
  {
    if moves != [] {
      StepInv(w, total, s, moves[0].task, moves[0].linkOk);
      ExecInv(w, total, Step(w, s, moves[0].task, moves[0].linkOk), moves[1..]);
    }
  }

  lemma ReachableInv(w: World, roots: seq<Name>, permits: nat, s: State)
    requires Reachable(w, roots, permits, s)
    ensures Inv(w, permits, s)
  {
    var moves: seq<Move> :| Exec(w, Init(roots, permits), moves) == Some(s);
    InitInv(w, roots, permits);
    ExecInv(w, permits, Init(roots, permits), moves);
  }
}
