/** Every run of the executor is finite, and it can only end with all tasks returned. */
module ExecutorTermination {
  import opened Common
  import opened Executor
  import opened ExecutorSafety
  import opened ExecutorTheorems

  // All names that can ever get a task.
  ghost function Universe(w: World, roots: seq<Name>): set<Name> {
    (set f | f in roots) + {DESCRIPTOR_PROTO} + set f, d | f in w.files && d in Imports(w, f) :: d
  }

  ghost predicate DegreeBound(w: World, m: nat) {
    forall f :: Degree(w, f) <= m
  }

  lemma {:induction false} DegreesAreBounded(files: map<Name, Source>, overridden: bool) returns (m: nat)
    ensures DegreeBound(World(files, overridden), m)
    decreases |files|
  {
    var w := World(files, overridden);
    if files == map[] {
      return 1;
    }
    var f :| f in files;
    var rest := World(files - {f}, overridden);
    var r := DegreesAreBounded(rest.files, overridden);
    m := r + Degree(w, f);
    forall g
      ensures Degree(w, g) <= m
    {
      if g != f {
        assert SourceOf(rest, g) == SourceOf(w, g);
        assert Degree(rest, g) == Degree(w, g);
      }
    }
  }

  ghost predicate InBounds(w: World, roots: seq<Name>, s: State) {
    && s.tasks.Keys <= Universe(w, roots)
    && (forall t :: t in s.tasks ==> s.tasks[t].checked <= s.tasks.Keys)
  }

  lemma StepNames(w: World, s: State, t: Name, linkOk: bool)
    requires CanStep(w, s, t)
    ensures var s' := Step(w, s, t, linkOk);
            forall x :: x in s'.tasks ==> x in s.tasks || x in BlockList(w, t)
  {
  }

  lemma StepChecked(w: World, s: State, t: Name, linkOk: bool)
    requires CanStep(w, s, t) && StackOk(w, s, t) && s.tasks[t].checked <= s.tasks.Keys
    ensures Step(w, s, t, linkOk).tasks[t].checked <= s.tasks.Keys
  {
  }

  lemma StepInBounds(w: World, roots: seq<Name>, s: State, t: Name, linkOk: bool)
    requires CanStep(w, s, t) && StackOk(w, s, t) && InBounds(w, roots, s)
    ensures InBounds(w, roots, Step(w, s, t, linkOk))
  {
    var s' := Step(w, s, t, linkOk);
    StepNames(w, s, t, linkOk);
    StepChecked(w, s, t, linkOk);
    forall x | x in s'.tasks
      ensures x in Universe(w, roots) && s'.tasks[x].checked <= s'.tasks.Keys
    {
      if x !in s.tasks {
        var i :| 0 <= i < Degree(w, t) && BlockList(w, t)[i] == x;
        InUniverse(w, roots, t, i);
        assert s'.tasks[x] == FRESH;
      }
    }
  }

  lemma InUniverse(w: World, roots: seq<Name>, t: Name, i: nat)
    requires i < Degree(w, t)
    ensures BlockList(w, t)[i] in Universe(w, roots)
  {
    if i < |Imports(w, t)| {
      assert t in w.files && Imports(w, t)[i] in Imports(w, t);
    }
  }

  // --- A measure that every step lowers -------------------------------------------------

  ghost function PendingWork(stack: seq<Frame>): nat {
    if stack == [] then 0 else PendingWork(stack[..|stack| - 1]) + 2 * |stack[|stack| - 1].pending| + 1
  }

  // What visiting `k` more names can take, with lists of up to `m` names: a product, spelled
  // out as a sum.
  ghost function Visits(k: int, m: nat): int
    decreases if k < 0 then -k else k
  {
    if k == 0 then 0 else if k > 0 then Visits(k - 1, m) + 2 * m + 2 else Visits(k + 1, m) - 2 * m - 2
  }

  lemma VisitsDrop(k: int, m: nat)
    ensures Visits(k, m) == Visits(k - 1, m) + 2 * m + 2
  {
  }

  lemma {:induction false} VisitsNonNegative(k: nat, m: nat)
    ensures Visits(k, m) >= 0
  {
    if k > 0 {
      VisitsNonNegative(k - 1, m);
    }
  }

  // What is left of the import loop and of the search, for a task with degree `d`, in a
  // universe of `n` names and degrees up to `m`.
  ghost function SearchWork(n: nat, m: nat, d: nat, p: Phase, checked: set<Name>): int
    requires p.Checking?
  {
    3 * (d - p.next)
    - (if p.enter.Some? || p.stack != [] then 2 else 0)
    + (if p.enter.Some? then 1 else 0)
    + PendingWork(p.stack)
    + Visits(n - |checked|, m)
  }

  // The most that can be left when the import loop starts.
  ghost function FullSearch(n: nat, m: nat): nat {
    VisitsNonNegative(n, m);
    6 + 4 * m + Visits(n, m)
  }

  ghost function Rank(w: World, n: nat, m: nat, k: Task, t: Name): int {
    match k.phase
    case Queued => FullSearch(n, m) + 1
    case Resolving => FullSearch(n, m)
    case Checking(_, _, _) => 5 + m + SearchWork(n, m, Degree(w, t), k.phase, k.checked)
    case Waiting(i) => 4 + (Degree(w, t) - i)
    case Reacquiring => 3
    case Linking => 2
    case Closing(_) => 1
    case Exited(_) => 0
  }

  // A name without a task still has everything ahead of it.
  ghost function Left(w: World, n: nat, m: nat, s: State, t: Name): int {
    if t in s.tasks then Rank(w, n, m, s.tasks[t], t) else FullSearch(n, m) + 2
  }

  lemma EnterLowers(w: World, n: nat, m: nat, s: State, t: Name)
    requires t in s.tasks && s.tasks[t].phase.Checking? && s.tasks[t].phase.enter.Some?
    requires DegreeBound(w, m) && forall x :: x in s.tasks ==> PublishedOk(w, s, x)
    ensures Rank(w, n, m, EnterStep(s, t).tasks[t], t) < Rank(w, n, m, s.tasks[t], t)
  {
    var k, k' := s.tasks[t], EnterStep(s, t).tasks[t];
    var x := k.phase.enter.value;
    if x !in k.checked {
      var list := if x in s.tasks then s.tasks[x].blockedOn else [];
      assert |list| <= m by {
        assert Degree(w, x) <= m;
        assert x in s.tasks ==> PublishedOk(w, s, x);
      }
      PushedWork(n, m, Degree(w, t), k.phase, k.checked, x, list);
    }
  }

  // Entering a result costs one visit and leaves its list to be examined.
  lemma PushedWork(n: nat, m: nat, d: nat, p: Phase, checked: set<Name>, x: Name, list: seq<Name>)
    requires p.Checking? && p.enter.Some? && x !in checked && |list| <= m
    ensures SearchWork(n, m, d, Checking(p.next, None, p.stack + [Frame(x, list)]), checked + {x}) <
            SearchWork(n, m, d, p, checked)
  {
    var stack := p.stack + [Frame(x, list)];
    assert stack[..|stack| - 1] == p.stack;
    assert |checked + {x}| == |checked| + 1;
    VisitsDrop(n - |checked|, m);
  }

  lemma ScanLowers(w: World, n: nat, m: nat, s: State, t: Name)
    requires t in s.tasks && s.tasks[t].phase.Checking?
    requires s.tasks[t].phase.enter.None? && s.tasks[t].phase.stack != []
    requires ScanStep(s, t).tasks[t].phase.Checking?
    ensures Rank(w, n, m, ScanStep(s, t).tasks[t], t) < Rank(w, n, m, s.tasks[t], t)
  {
    var stack, stack' := s.tasks[t].phase.stack, ScanStep(s, t).tasks[t].phase.stack;
    if stack[|stack| - 1].pending != [] {
      assert stack'[..|stack'| - 1] == stack[..|stack| - 1];
    }
  }

  lemma WorkPositive(n: nat, m: nat, d: nat, p: Phase, checked: set<Name>)
    requires p.Checking? && p.next <= d && |checked| <= n
    requires p.enter.Some? || p.stack != [] ==> p.next < d
    ensures SearchWork(n, m, d, p, checked) >= 0
  {
    VisitsNonNegative(n - |checked|, m);
  }

  // The checked names fit into the universe.
  lemma SearchWorkPositive(w: World, roots: seq<Name>, m: nat, s: State, t: Name)
    requires t in s.tasks && s.tasks[t].phase.Checking? && InBounds(w, roots, s)
    requires s.tasks[t].phase.next <= Degree(w, t)
    requires s.tasks[t].phase.enter.Some? || s.tasks[t].phase.stack != [] ==> s.tasks[t].phase.next < Degree(w, t)
    ensures SearchWork(|Universe(w, roots)|, m, Degree(w, t), s.tasks[t].phase, s.tasks[t].checked) >= 0
  {
    SubsetSize(s.tasks[t].checked, Universe(w, roots));
    WorkPositive(|Universe(w, roots)|, m, Degree(w, t), s.tasks[t].phase, s.tasks[t].checked);
  }

  // The task that moves gets closer to its end.
  lemma StepLowersRank(w: World, n: nat, m: nat, s: State, t: Name, linkOk: bool)
    requires CanStep(w, s, t) && DegreeBound(w, m) && DepsOk(w, s, t)
    requires forall x :: x in s.tasks ==> PublishedOk(w, s, x)
    requires s.tasks[t].phase.Checking? ==>
               SearchWork(n, m, Degree(w, t), s.tasks[t].phase, s.tasks[t].checked) >= 0
    ensures Rank(w, n, m, Step(w, s, t, linkOk).tasks[t], t) < Rank(w, n, m, s.tasks[t], t)
  {
    var p := s.tasks[t].phase;
    assert Degree(w, t) <= m;
    match p
    case Checking(_, _, _) => CheckingLowers(w, n, m, s, t, linkOk);
    case Resolving => ResolveLowers(w, n, m, s, t);
    case Waiting(_) => WaitLowers(w, n, m, s, t);
    case _ =>
  }

  lemma WaitLowers(w: World, n: nat, m: nat, s: State, t: Name)
    requires CanStep(w, s, t) && s.tasks[t].phase.Waiting? && DepsOk(w, s, t)
    ensures Rank(w, n, m, WaitStep(w, s, t).tasks[t], t) < Rank(w, n, m, s.tasks[t], t)
  {
  }

  lemma CheckingLowers(w: World, n: nat, m: nat, s: State, t: Name, linkOk: bool)
    requires t in s.tasks && s.tasks[t].phase.Checking? && DegreeBound(w, m)
    requires forall x :: x in s.tasks ==> PublishedOk(w, s, x)
    requires SearchWork(n, m, Degree(w, t), s.tasks[t].phase, s.tasks[t].checked) >= 0
    ensures Rank(w, n, m, Step(w, s, t, linkOk).tasks[t], t) < Rank(w, n, m, s.tasks[t], t)
  {
    var Checking(i, enter, stack) := s.tasks[t].phase;
    assert Degree(w, t) <= m;
    if enter.Some? {
      EnterLowers(w, n, m, s, t);
    } else if stack != [] {
      if ScanStep(s, t).tasks[t].phase.Checking? {
        ScanLowers(w, n, m, s, t);
      }
    } else if i < Degree(w, t) {
      ImportLowers(w, n, m, s, t);
    }
  }

  lemma ResolveLowers(w: World, n: nat, m: nat, s: State, t: Name)
    requires t in s.tasks && s.tasks[t].phase.Resolving? && Degree(w, t) <= m
    ensures Rank(w, n, m, ResolveStep(w, s, t).tasks[t], t) < Rank(w, n, m, s.tasks[t], t)
  {
    var none: set<Name> := {};
    assert PendingWork([]) == 0 && n - |none| == n;
    VisitsNonNegative(n, m);
  }

  lemma ImportLowers(w: World, n: nat, m: nat, s: State, t: Name)
    requires t in s.tasks && s.tasks[t].phase.Checking? && s.tasks[t].phase.next < Degree(w, t)
    requires s.tasks[t].phase.enter.None? && s.tasks[t].phase.stack == []
    requires SearchWork(n, m, Degree(w, t), s.tasks[t].phase, s.tasks[t].checked) >= 0
    ensures Rank(w, n, m, ImportStep(w, s, t).tasks[t], t) < Rank(w, n, m, s.tasks[t], t)
  {
  }

  // Adding up over a set of names; the same set is always taken apart in the same order.
  ghost function TotalLeft(w: World, n: nat, m: nat, s: State, names: set<Name>): int {
    if names == {} then 0
    else var x := Pick(names); Left(w, n, m, s, x) + TotalLeft(w, n, m, s, names - {x})
  }

  ghost function Pick(names: set<Name>): Name
    requires names != {}
  {
    var x :| x in names; x
  }

  lemma {:induction false} TotalLowers(w: World, n: nat, m: nat, s: State, s': State, names: set<Name>, t: Name)
    requires forall x :: x in names ==> 0 <= Left(w, n, m, s', x) <= Left(w, n, m, s, x)
    requires t in names ==> Left(w, n, m, s', t) < Left(w, n, m, s, t)
    ensures 0 <= TotalLeft(w, n, m, s', names) <= TotalLeft(w, n, m, s, names)
    ensures t in names ==> TotalLeft(w, n, m, s', names) < TotalLeft(w, n, m, s, names)
    decreases |names|
  {
    if names != {} {
      TotalLowers(w, n, m, s, s', names - {Pick(names)}, t);
    }
  }

  ghost function Measure(w: World, roots: seq<Name>, m: nat, s: State): int {
    TotalLeft(w, |Universe(w, roots)|, m, s, Universe(w, roots))
  }

  lemma RankNonNegative(w: World, roots: seq<Name>, m: nat, total: nat, s: State, x: Name)
    requires Inv(w, total, s) && InBounds(w, roots, s) && x in s.tasks
    ensures 0 <= Rank(w, |Universe(w, roots)|, m, s.tasks[x], x)
  {
    assert TaskOk(w, s, x);
    if s.tasks[x].phase.Checking? {
      SearchWorkPositive(w, roots, m, s, x);
    }
  }

  lemma StepLowersMeasure(w: World, roots: seq<Name>, m: nat, total: nat, s: State, t: Name, linkOk: bool)
    requires Inv(w, total, s) && CanStep(w, s, t) && InBounds(w, roots, s) && DegreeBound(w, m)
    ensures 0 <= Measure(w, roots, m, Step(w, s, t, linkOk)) < Measure(w, roots, m, s)
  {
    var s', n := Step(w, s, t, linkOk), |Universe(w, roots)|;
    assert TaskOk(w, s, t) && forall x :: x in s.tasks ==> TaskOk(w, s, x);
    if s.tasks[t].phase.Checking? {
      SearchWorkPositive(w, roots, m, s, t);
    }
    StepLowersRank(w, n, m, s, t, linkOk);
    StepInv(w, total, s, t, linkOk);
    StepInBounds(w, roots, s, t, linkOk);
    RankNonNegative(w, roots, m, total, s', t);
    forall x | x in Universe(w, roots)
      ensures 0 <= Left(w, n, m, s', x) <= Left(w, n, m, s, x)
    {
      if x in s.tasks && x != t {
        assert s'.tasks[x] == s.tasks[x];
        RankNonNegative(w, roots, m, total, s, x);
      } else if x !in s.tasks && x in s'.tasks {
        assert s'.tasks[x] == FRESH;
      }
    }
    assert t in Universe(w, roots);
    TotalLowers(w, n, m, s, s', Universe(w, roots), t);
  }

  // No run from `s` is longer than the measure of `s`.
  lemma {:induction false} RunsAreShort(w: World, roots: seq<Name>, m: nat, total: nat, s: State, moves: seq<Move>)
    requires Inv(w, total, s) && InBounds(w, roots, s) && DegreeBound(w, m) && Exec(w, s, moves).Some?
    ensures moves != [] ==> |moves| <= Measure(w, roots, m, s)
    decreases |moves|
  {
    if moves != [] {
      StepInv(w, total, s, moves[0].task, moves[0].linkOk);
      assert TaskOk(w, s, moves[0].task);
      StepInBounds(w, roots, s, moves[0].task, moves[0].linkOk);
      StepLowersMeasure(w, roots, m, total, s, moves[0].task, moves[0].linkOk);
      RunsAreShort(w, roots, m, total, Step(w, s, moves[0].task, moves[0].linkOk), moves[1..]);
    }
  }

  // --- Main results ---------------------------------------------------------------------

  // For given files and roots there is a bound on the length of all runs.
  lemma AllRunsAreFinite(w: World, roots: seq<Name>, permits: nat) returns (bound: nat)
    ensures forall moves: seq<Move> :: Exec(w, Init(roots, permits), moves).Some? ==> |moves| <= bound
  {
    var m := DegreesAreBounded(w.files, w.overridden);
    var s := Init(roots, permits);
    InitInv(w, roots, permits);
    var measure := Measure(w, roots, m, s);
    bound := if measure < 0 then 0 else measure;
    forall moves: seq<Move> | Exec(w, s, moves).Some?
      ensures |moves| <= bound
    {
      RunsAreShort(w, roots, m, permits, s, moves);
    }
  }

  // A run that cannot be continued has brought every task to its end.
  lemma MaximalRunsFinish(w: World, roots: seq<Name>, permits: nat, s: State)
    requires Reachable(w, roots, permits, s) && permits > 0 && DescriptorNeverWaits(w)
    ensures (forall t :: !CanStep(w, s, t)) <==> AllExited(s)
  {
    if !AllExited(s) {
      NoDeadlock(w, roots, permits, s);
    }
  }
}
