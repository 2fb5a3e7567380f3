/** Runs of the executor in which one task after the other is left alone until it has returned
    or waits. What such a task finds out is what the recursive search says about the lists that
    are published when it starts. */
module ExecutorRuns {
  import opened Common
  import opened Executor
  import opened ExecutorSafety
  import opened ExecutorTheorems
  import opened ExecutorOverride
  import CycleSearch
  import S = SearchSteps

  lemma {:induction false} AloneLeads(w: World, t: Name, s: State, s': State, n: nat)
    requires S.Leads(S.Alone(w, t), s, s', n)
    ensures Leads(w, s, s')
    decreases n
  {
    if n == 0 {
      LeadsSelf(w, s);
    } else {
      var s1 := Step(w, s, t, true);
      LeadsStep(w, s, t);
      AloneLeads(w, t, s1, s', n - 1);
      LeadsOn(w, s, s1, s');
    }
  }

  // --- The search of one task ---------------------------------------------------------------

  // The task has published its list, and every name on it has a task.
  ghost predicate Ready(w: World, s: State, t: Name) {
    t in s.tasks && s.tasks[t].blockedOn == BlockList(w, t) && forall d :: d in BlockList(w, t) ==> d in s.tasks
  }

  // No cycle of published lists can be reached through an import of `t`.
  ghost predicate NoCycle(w: World, s: State, t: Name) {
    forall p :: CycleSearch.CycleFrom(S.Published(s), t, p) ==> p[1] !in Imports(w, t)
  }

  ghost function Importing(s: State, t: Name, i: nat, checked: set<Name>): State
    requires t in s.tasks
  {
    S.At(s, t, Checking(i, None, []), checked)
  }

  lemma ImportMoves(w: World, s: State, t: Name, i: nat, checked: set<Name>)
    requires Ready(w, s, t) && i < |Imports(w, t)|
    ensures var dep := Imports(w, t)[i];
            && dep in s.tasks
            && S.Alone(w, t)(Importing(s, t, i, checked))
               == Some(if dep == t then S.At(s, t, Closing(CycleFound([t, dep])), checked)
                       else S.Entering(s, t, i, dep, [], checked))
  {
    var a, dep := Importing(s, t, i, checked), BlockList(w, t)[i];
    assert dep in BlockList(w, t) && dep in a.tasks;
    S.PutTwice(s, t, a.tasks[t], ImportStep(w, a, t).tasks[t]);
  }

  // The first `i` imports have been searched.
  ghost predicate SearchedTo(w: World, s: State, t: Name, i: nat, checked: set<Name>, finished: seq<Name>) {
    && i <= |Imports(w, t)| && CycleSearch.Marks(S.Published(s), [t], checked, finished)
    && forall j :: 0 <= j < i ==> Imports(w, t)[j] != t && Imports(w, t)[j] in finished
  }

  // How the import loop ends.
  ghost predicate LoopEnds(w: World, s: State, t: Name, phase: Phase) {
    if NoCycle(w, s, t) then phase == Checking(|Imports(w, t)|, None, [])
    else phase.Closing? && phase.verdict.CycleFound?
  }

  lemma {:induction false} ImportLoop(w: World, s: State, t: Name, i: nat, checked: set<Name>, finished: seq<Name>)
      returns (phase: Phase, checked': set<Name>)
    requires Ready(w, s, t) && SearchedTo(w, s, t, i, checked, finished)
    ensures Leads(w, Importing(s, t, i, checked), S.At(s, t, phase, checked')) && LoopEnds(w, s, t, phase)
    decreases |Imports(w, t)| - i
  {
    if i == |Imports(w, t)| {
      LeadsSelf(w, Importing(s, t, i, checked));
      AllSearched(w, s, t, checked, finished);
      return Checking(i, None, []), checked;
    }
    var f;
    phase, checked', f := ImportTurn(w, s, t, i, checked, finished);
    if phase == Checking(i + 1, None, []) {
      var c := checked';
      phase, checked' := ImportLoop(w, s, t, i + 1, c, f);
      LeadsOn(w, Importing(s, t, i, checked), Importing(s, t, i + 1, c), S.At(s, t, phase, checked'));
    }
  }

  // One turn of the loop goes on to the next import or ends it.
  lemma ImportTurn(w: World, s: State, t: Name, i: nat, checked: set<Name>, finished: seq<Name>)
      returns (phase: Phase, checked': set<Name>, finished': seq<Name>)
    requires Ready(w, s, t) && SearchedTo(w, s, t, i, checked, finished) && i < |Imports(w, t)|
    ensures Leads(w, Importing(s, t, i, checked), S.At(s, t, phase, checked'))
    ensures || (phase == Checking(i + 1, None, []) && SearchedTo(w, s, t, i + 1, checked', finished'))
            || (phase.Closing? && LoopEnds(w, s, t, phase))
  {
    var a, dep := Importing(s, t, i, checked), Imports(w, t)[i];
    ImportMoves(w, s, t, i, checked);
    FirstEdge(w, s, t, i);
    if dep == t {
      IsCycle(w, s, t, [t, dep]);
      MoveLeads(w, t, a, S.At(s, t, Closing(CycleFound([t, dep])), checked));
      return Closing(CycleFound([t, dep])), checked, finished;
    }
    var e := S.Entering(s, t, i, dep, [], checked);
    MoveLeads(w, t, a, e);
    var r, f := VisitImport(w, s, t, i, checked, finished);
    LeadsOn(w, a, e, S.Returned(s, t, i, [], r));
    if r.0.Some? {
      IsCycle(w, s, t, r.0.value);
      return Closing(CycleFound(r.0.value)), r.1, f;
    }
    return Checking(i + 1, None, []), r.1, f;
  }

  lemma MoveLeads(w: World, t: Name, s: State, s': State)
    requires S.Alone(w, t)(s) == Some(s')
    ensures Leads(w, s, s')
  {
    LeadsStep(w, s, t);
  }

  // The recursive search from one import.
  lemma VisitImport(w: World, s: State, t: Name, i: nat, checked: set<Name>, finished: seq<Name>)
      returns (r: S.Answer, finished': seq<Name>)
    requires Ready(w, s, t) && SearchedTo(w, s, t, i, checked, finished) && i < |Imports(w, t)|
    requires var dep := Imports(w, t)[i];
             dep != t && dep in s.tasks && CycleSearch.Walk(S.Published(s), [t, dep])
    ensures Leads(w, S.Entering(s, t, i, Imports(w, t)[i], [], checked), S.Returned(s, t, i, [], r))
    ensures r.0.Some? ==> CycleSearch.CycleFrom(S.Published(s), t, r.0.value) && r.0.value[1] == Imports(w, t)[i]
    ensures r.0.None? ==> SearchedTo(w, s, t, i + 1, r.1, finished')
  {
    var g, dep := S.Published(s), Imports(w, t)[i];
    r := CycleSearch.Visit(g, dep, [t], checked);
    assert [t] + [dep] == [t, dep];
    finished' := CycleSearch.VisitMeans(g, dep, [t], checked, finished);
    var n := S.VisitAlone(w, s, t, i, dep, [], checked);
    AloneLeads(w, t, S.Entering(s, t, i, dep, [], checked), S.Returned(s, t, i, [], r), n);
  }

  lemma FirstEdge(w: World, s: State, t: Name, i: nat)
    requires Ready(w, s, t) && i < |Imports(w, t)|
    ensures var dep := Imports(w, t)[i];
            CycleSearch.Walk(S.Published(s), [t, dep])
              && (dep == t ==> CycleSearch.CycleFrom(S.Published(s), t, [t, dep]))
  {
    var g, dep := S.Published(s), Imports(w, t)[i];
    assert dep == BlockList(w, t)[i] && dep in CycleSearch.Succ(g, t);
    CycleSearch.WalkExtends(g, [t], dep);
    assert [t] + [dep] == [t, dep];
  }

  lemma IsCycle(w: World, s: State, t: Name, q: seq<Name>)
    requires CycleSearch.CycleFrom(S.Published(s), t, q) && q[1] in Imports(w, t)
    ensures !NoCycle(w, s, t)
  {
  }

  lemma AllSearched(w: World, s: State, t: Name, checked: set<Name>, finished: seq<Name>)
    requires SearchedTo(w, s, t, |Imports(w, t)|, checked, finished)
    ensures NoCycle(w, s, t)
  {
    forall p
      ensures CycleSearch.CycleFrom(S.Published(s), t, p) ==> p[1] !in Imports(w, t)
    {
      CycleSearch.NoCycleLeft(S.Published(s), t, Imports(w, t), finished, p);
    }
  }

  // --- One task, left alone -------------------------------------------------------------------

  // Nothing but task `t` has changed.
  ghost predicate OnlyTask(s: State, s': State, t: Name) {
    && s'.tasks.Keys == s.tasks.Keys && s'.permits == s.permits
    && forall u :: u in s.tasks && u != t ==> s'.tasks[u] == s.tasks[u]
  }

  // The task has published its list, and waits or has returned.
  ghost predicate Ran(w: World, s: State, t: Name) {
    && t in s.tasks && s.tasks[t].blockedOn == BlockList(w, t)
    && (s.tasks[t].phase == Waiting(0)
        || (s.tasks[t].phase.Exited? && !s.tasks[t].phase.verdict.LinkFailed?))
  }

  // What it has found.
  ghost predicate Finding(w: World, s: State, t: Name)
    requires t in s.tasks
  {
    && (SourceOf(w, t).Prelinked? ==> Completed(s, t))
    && (SourceOf(w, t).Parsed? && BlockList(w, t) != [] ==>
          if NoCycle(w, s, t) then s.tasks[t].phase == Waiting(0)
          else s.tasks[t].phase.Exited? && s.tasks[t].phase.verdict.CycleFound?)
  }

  // Every name that a file may need has a task.
  ghost predicate AllNamed(w: World, s: State) {
    forall t, d :: t in s.tasks && d in BlockList(w, t) ==> d in s.tasks
  }

  ghost predicate Startable(w: World, s: State, t: Name) {
    t in s.tasks && s.tasks[t] == FRESH && s.permits > 0 && AllNamed(w, s)
  }

  /** A task that has not started runs until it waits or has returned. It reports a cycle exactly
      when one of the published lists can be reached through its imports. */
  lemma RunTask(w: World, s: State, t: Name) returns (s': State)
    requires Startable(w, s, t)
    ensures Leads(w, s, s') && OnlyTask(s, s', t) && Ran(w, s', t) && Finding(w, s', t)
  {
    if SourceOf(w, t).Parsed? && BlockList(w, t) != [] {
      s' := RunSearch(w, s, t);
    } else {
      s' := RunPlain(w, s, t);
    }
  }

  // Only the phase of `t` and the number of permits have changed, and the latter by `d`.
  ghost predicate Moved(s: State, s': State, t: Name, d: int) {
    && s'.tasks.Keys == s.tasks.Keys && s'.permits == s.permits + d
    && (forall u :: u in s.tasks && u != t ==> s'.tasks[u] == s.tasks[u])
    && (t in s.tasks ==> s'.tasks[t].blockedOn == s.tasks[t].blockedOn)
  }

  lemma MoveOn(w: World, t: Name, s: State, s1: State, s2: State, d: int, e: int)
    requires Leads(w, s, s1) && Leads(w, s1, s2) && Moved(s, s1, t, d) && Moved(s1, s2, t, e)
    ensures Leads(w, s, s2) && Moved(s, s2, t, d + e)
  {
    LeadsOn(w, s, s1, s2);
  }

  lemma StartMoves(w: World, s: State, t: Name) returns (s': State)
    requires t in s.tasks && s.tasks[t].phase.Queued? && s.permits > 0
    ensures Leads(w, s, s') && Moved(s, s', t, -1) && s'.tasks[t] == s.tasks[t].(phase := Resolving)
  {
    s' := Step(w, s, t, true);
    LeadsStep(w, s, t);
  }

  // A file without anything to wait for.
  lemma ResolveMoves(w: World, s: State, t: Name) returns (s': State)
    requires t in s.tasks && s.tasks[t].phase.Resolving? && (SourceOf(w, t).Parsed? ==> BlockList(w, t) == [])
    ensures Leads(w, s, s') && Moved(s, s', t, 0)
    ensures match SourceOf(w, t)
            case Unavailable => s'.tasks[t].phase == Closing(NoSource)
            case Prelinked => s'.tasks[t].phase.Closing? && s'.tasks[t].phase.verdict.Ok?
            case Parsed(_) => s'.tasks[t].phase == Linking
  {
    s' := ResolveStep(w, s, t);
    LeadsStep(w, s, t);
  }

  lemma LinkMoves(w: World, s: State, t: Name) returns (s': State)
    requires t in s.tasks && s.tasks[t].phase.Linking?
    ensures Leads(w, s, s') && Moved(s, s', t, 0) && s'.tasks[t].phase.Closing? && s'.tasks[t].phase.verdict.Ok?
  {
    s' := CompleteStep(s, t);
    LeadsStep(w, s, t);
  }

  lemma CloseMoves(w: World, s: State, t: Name) returns (s': State)
    requires t in s.tasks && s.tasks[t].phase.Closing?
    ensures Leads(w, s, s') && Moved(s, s', t, 1) && s'.tasks[t].phase == Exited(s.tasks[t].phase.verdict)
  {
    s' := Step(w, s, t, true);
    LeadsStep(w, s, t);
  }

  lemma ParkMoves(w: World, s: State, t: Name) returns (s': State)
    requires t in s.tasks && s.tasks[t].phase == Checking(Degree(w, t), None, [])
    ensures Leads(w, s, s') && Moved(s, s', t, 1) && s'.tasks[t].phase == Waiting(0)
  {
    s' := Step(w, s, t, true);
    LeadsStep(w, s, t);
  }

  lemma RunPlain(w: World, s: State, t: Name) returns (s': State)
    requires Startable(w, s, t) && (SourceOf(w, t).Parsed? ==> BlockList(w, t) == [])
    ensures Leads(w, s, s') && OnlyTask(s, s', t) && Ran(w, s', t) && Finding(w, s', t)
  {
    var s1 := StartMoves(w, s, t);
    s' := PlainMoves(w, s1, t);
    MoveOn(w, t, s, s1, s', -1, 1);
    PlainRan(w, s, s', t);
  }

  lemma PlainMoves(w: World, s: State, t: Name) returns (s': State)
    requires t in s.tasks && s.tasks[t].phase.Resolving? && (SourceOf(w, t).Parsed? ==> BlockList(w, t) == [])
    ensures Leads(w, s, s') && Moved(s, s', t, 1) && s'.tasks[t].phase.Exited?
    ensures s'.tasks[t].phase.verdict == NoSource || s'.tasks[t].phase.verdict.Ok?
    ensures SourceOf(w, t).Prelinked? ==> s'.tasks[t].phase.verdict.Ok?
  {
    var s1 := ResolveMoves(w, s, t);
    s' := FinishMoves(w, s1, t);
    MoveOn(w, t, s, s1, s', 0, 1);
  }

  lemma PlainRan(w: World, s: State, s': State, t: Name)
    requires Startable(w, s, t) && Moved(s, s', t, 0) && BlockList(w, t) == [] && s'.tasks[t].phase.Exited?
    requires s'.tasks[t].phase.verdict == NoSource || s'.tasks[t].phase.verdict.Ok?
    requires SourceOf(w, t).Prelinked? ==> s'.tasks[t].phase.verdict.Ok?
    ensures OnlyTask(s, s', t) && Ran(w, s', t) && Finding(w, s', t)
  {
  }

  // Linking, if that is left to do, and the end.
  lemma FinishMoves(w: World, s: State, t: Name) returns (s': State)
    requires t in s.tasks && (s.tasks[t].phase.Linking? || s.tasks[t].phase.Closing?)
    ensures Leads(w, s, s') && Moved(s, s', t, 1) && s'.tasks[t].phase.Exited?
    ensures var p, v := s.tasks[t].phase, s'.tasks[t].phase.verdict;
            if p.Linking? then v.Ok? else v == p.verdict
  {
    if s.tasks[t].phase.Linking? {
      var s1 := LinkMoves(w, s, t);
      s' := CloseMoves(w, s1, t);
      MoveOn(w, t, s, s1, s', 0, 1);
    } else {
      s' := CloseMoves(w, s, t);
    }
  }

  // The search begins: the list is published, and nothing is checked.
  lemma OpenMoves(w: World, s: State, t: Name) returns (s': State)
    requires t in s.tasks && s.tasks[t].phase.Resolving? && SourceOf(w, t).Parsed? && BlockList(w, t) != []
    ensures Leads(w, s, s') && s'.tasks.Keys == s.tasks.Keys && s'.permits == s.permits
    ensures forall u :: u in s.tasks && u != t ==> s'.tasks[u] == s.tasks[u]
    ensures s'.tasks[t].blockedOn == BlockList(w, t) && Importing(s', t, 0, {}) == s'
  {
    s' := ResolveStep(w, s, t);
    LeadsStep(w, s, t);
    S.PutTwice(s, t, s'.tasks[t], s'.tasks[t]);
  }

  lemma RunSearch(w: World, s: State, t: Name) returns (s': State)
    requires Startable(w, s, t) && SourceOf(w, t).Parsed? && BlockList(w, t) != []
    ensures Leads(w, s, s') && OnlyTask(s, s', t) && Ran(w, s', t) && Finding(w, s', t)
  {
    var s1 := StartMoves(w, s, t);
    var a := OpenMoves(w, s1, t);
    LeadsOn(w, s, s1, a);
    s' := SearchMoves(w, a, t);
    LeadsOn(w, s, a, s');
    SearchRan(w, a, s', t);
  }

  // The whole search, from the publication of the list on.
  lemma SearchMoves(w: World, s: State, t: Name) returns (s': State)
    requires Ready(w, s, t) && Importing(s, t, 0, {}) == s
    ensures Leads(w, s, s') && Moved(s, s', t, 1) && Ends(w, s, t, s'.tasks[t].phase)
  {
    NothingMarked(s, t);
    var phase, c := ImportLoop(w, s, t, 0, {}, []);
    var a := S.At(s, t, phase, c);
    s' := EndLoop(w, s, t, phase, c);
    MoveOn(w, t, s, a, s', 0, 1);
  }

  // How the whole search ends.
  ghost predicate Ends(w: World, s: State, t: Name, phase: Phase) {
    if NoCycle(w, s, t) then phase == Waiting(0) else phase.Exited? && phase.verdict.CycleFound?
  }

  lemma SearchRan(w: World, s: State, s': State, t: Name)
    requires Ready(w, s, t) && Moved(s, s', t, 1) && Ends(w, s, t, s'.tasks[t].phase) && SourceOf(w, t).Parsed?
    ensures Ran(w, s', t) && Finding(w, s', t)
  {
    SameLists(w, s, s', t);
  }

  lemma NothingMarked(s: State, t: Name)
    ensures CycleSearch.Marks(S.Published(s), [t], {}, [])
  {
  }

  // The permit goes back, at the end of the search or after an error.
  lemma EndLoop(w: World, s: State, t: Name, phase: Phase, checked: set<Name>) returns (s': State)
    requires Ready(w, s, t) && LoopEnds(w, s, t, phase)
    ensures Leads(w, S.At(s, t, phase, checked), s') && Moved(S.At(s, t, phase, checked), s', t, 1)
    ensures Ends(w, s, t, s'.tasks[t].phase)
  {
    var a := S.At(s, t, phase, checked);
    if !NoCycle(w, s, t) {
      s' := CloseMoves(w, a, t);
    } else if |Imports(w, t)| == Degree(w, t) {
      s' := ParkMoves(w, a, t);
    } else {
      var b := Importing(s, t, Degree(w, t), checked);
      ImplicitMoves(w, s, t, checked);
      MoveLeads(w, t, a, b);
      s' := ParkMoves(w, b, t);
      MoveOn(w, t, a, b, s', 0, 1);
    }
  }

  // The implicit dependency is there already, and is not searched.
  lemma ImplicitMoves(w: World, s: State, t: Name, checked: set<Name>)
    requires Ready(w, s, t) && |Imports(w, t)| < Degree(w, t)
    ensures S.Alone(w, t)(Importing(s, t, |Imports(w, t)|, checked)) == Some(Importing(s, t, Degree(w, t), checked))
  {
    var a, dep := Importing(s, t, |Imports(w, t)|, checked), BlockList(w, t)[|Imports(w, t)|];
    assert dep in BlockList(w, t) && dep in a.tasks;
    S.PutTwice(s, t, a.tasks[t], ImportStep(w, a, t).tasks[t]);
  }

  lemma SameLists(w: World, s: State, s': State, t: Name)
    requires s'.tasks.Keys == s.tasks.Keys && t in s.tasks && s'.tasks[t].blockedOn == s.tasks[t].blockedOn
    requires forall u :: u in s.tasks && u != t ==> s'.tasks[u] == s.tasks[u]
    ensures S.Published(s') == S.Published(s) && (NoCycle(w, s', t) <==> NoCycle(w, s, t))
  {
  }
}
