/** The search of CycleSearch, which is one recursive call, and the search of Executor, which
    other tasks can interrupt at every turn, are the same search: a task that is left alone gets
    from the entry of a call to its return, and finds there what the call returns. */
module SearchSteps {
  import opened Common
  import opened Executor
  import CycleSearch

  type Answer = (Option<seq<Name>>, set<Name>)

  // The lists that are published in a state.
  ghost function Published(s: State): CycleSearch.Graph {
    map u | u in s.tasks :: s.tasks[u].blockedOn
  }

  // Task `t` at another point of its search.
  ghost function At(s: State, t: Name, phase: Phase, checked: set<Name>): State
    requires t in s.tasks
  {
    Put(s, t, s.tasks[t].(phase := phase, checked := checked))
  }

  lemma PutTwice(s: State, t: Name, k: Task, k': Task)
    ensures Put(Put(s, t, k), t, k') == Put(s, t, k')
  {
    assert s.tasks[t := k][t := k'] == s.tasks[t := k'];
  }

  // `n` steps of any deterministic system.
  ghost function Iterate<S>(next: S -> Option<S>, s: S, n: nat): Option<S> {
    if n == 0 then Some(s)
    else if next(s).None? then None
    else Iterate(next, next(s).value, n - 1)
  }

  ghost predicate Leads<S>(next: S -> Option<S>, s: S, s': S, n: nat) {
    Iterate(next, s, n) == Some(s')
  }

  lemma LeadsMore<S>(next: S -> Option<S>, s: S, s1: S, s2: S, n: nat)
    requires next(s) == Some(s1) && Leads(next, s1, s2, n)
    ensures Leads(next, s, s2, n + 1)
  {
  }

  lemma LeadsOne<S>(next: S -> Option<S>, s: S, s': S)
    requires next(s) == Some(s')
    ensures Leads(next, s, s', 1)
  {
    assert Iterate(next, s', 0) == Some(s');
  }

  lemma {:induction false} LeadsOn<S>(next: S -> Option<S>, s: S, s1: S, s2: S, m: nat, n: nat)
    requires Leads(next, s, s1, m) && Leads(next, s1, s2, n)
    ensures Leads(next, s, s2, m + n)
    decreases m
  {
    if m > 0 {
      LeadsOn(next, next(s).value, s1, s2, m - 1, n);
    }
  }

  lemma LeadsThrough<S>(next: S -> Option<S>, s: S, s1: S, s2: S, s3: S, m: nat, n: nat) returns (k: nat)
    requires next(s) == Some(s1) && Leads(next, s1, s2, m) && Leads(next, s2, s3, n)
    ensures Leads(next, s, s3, k)
  {
    k := m + n + 1;
    LeadsOn(next, s1, s2, s3, m, n);
    LeadsMore(next, s, s1, s3, m + n);
  }

  // A move of task `t`, and of no other.
  ghost function Alone(w: World, t: Name): State -> Option<State> {
    (s: State) => if CanStep(w, s, t) then Some(Step(w, s, t, true)) else None
  }

  // Where a call that stands above `stack` leaves the task when it answers `r`.
  ghost function Returned(s: State, t: Name, i: nat, stack: seq<Frame>, r: Answer): State
    requires t in s.tasks
  {
    if r.0.Some? then At(s, t, Closing(CycleFound(r.0.value)), r.1)
    else At(s, t, Checking(if stack == [] then i + 1 else i, None, stack), r.1)
  }

  // --- One move ----------------------------------------------------------------------------

  ghost function Entering(s: State, t: Name, i: nat, x: Name, stack: seq<Frame>, checked: set<Name>): State
    requires t in s.tasks
  {
    At(s, t, Checking(i, Some(x), stack), checked)
  }

  ghost function Scanning(s: State, t: Name, i: nat, stack: seq<Frame>, top: Frame, checked: set<Name>): State
    requires t in s.tasks
  {
    At(s, t, Checking(i, None, stack + [top]), checked)
  }

  lemma EnterMoves(w: World, s: State, t: Name, i: nat, x: Name, stack: seq<Frame>, checked: set<Name>)
    requires t in s.tasks && x in s.tasks
    ensures Alone(w, t)(Entering(s, t, i, x, stack, checked))
         == Some(if x in checked then Returned(s, t, i, stack, (None, checked))
                 else Scanning(s, t, i, stack, Frame(x, s.tasks[x].blockedOn), checked + {x}))
  {
    var a := Entering(s, t, i, x, stack, checked);
    assert a.tasks[x].blockedOn == s.tasks[x].blockedOn;
    var k := EnterStep(a, t).tasks[t];
    PutTwice(s, t, a.tasks[t], k);
  }

  lemma ReturnMoves(w: World, s: State, t: Name, i: nat, x: Name, stack: seq<Frame>, checked: set<Name>)
    requires t in s.tasks
    ensures Alone(w, t)(Scanning(s, t, i, stack, Frame(x, []), checked))
         == Some(Returned(s, t, i, stack, (None, checked)))
  {
    ReturnStep(s, t, i, x, stack, checked);
    var a := Scanning(s, t, i, stack, Frame(x, []), checked);
    assert Step(w, a, t, true) == ScanStep(a, t);
  }

  lemma ReturnStep(s: State, t: Name, i: nat, x: Name, stack: seq<Frame>, checked: set<Name>)
    requires t in s.tasks
    ensures ScanStep(Scanning(s, t, i, stack, Frame(x, []), checked), t) == Returned(s, t, i, stack, (None, checked))
  {
    var a, all := Scanning(s, t, i, stack, Frame(x, []), checked), stack + [Frame(x, [])];
    assert a.tasks[t].phase == Checking(i, None, all) && all[|all| - 1].pending == [] && all[..|all| - 1] == stack;
    PutTwice(s, t, a.tasks[t], ScanStep(a, t).tasks[t]);
  }

  lemma ScanMoves(w: World, s: State, t: Name, i: nat, x: Name, deps: seq<Name>, stack: seq<Frame>, checked: set<Name>)
    requires t in s.tasks && deps != []
    ensures var path := Sequence(t, stack + [Frame(x, deps)]);
            var rest := stack + [Frame(x, deps[1..])];
            Alone(w, t)(Scanning(s, t, i, stack, Frame(x, deps), checked))
            == Some(if deps[0] in path then Returned(s, t, i, stack, (Some(path + [deps[0]]), checked))
                    else At(s, t, Checking(i, if deps[0] in s.tasks then Some(deps[0]) else None, rest), checked))
  {
    var a := Scanning(s, t, i, stack, Frame(x, deps), checked);
    assert (stack + [Frame(x, deps)])[..|stack|] == stack;
    PutTwice(s, t, a.tasks[t], ScanStep(a, t).tasks[t]);
  }

  lemma Pushed(t: Name, stack: seq<Frame>, f: Frame)
    ensures Sequence(t, stack + [f]) == Sequence(t, stack) + [f.name]
  {
    assert (stack + [f])[..|stack|] == stack;
  }

  // --- A whole call ------------------------------------------------------------------------------

  /** checkForDependencyCycle for `x`, called above `stack`. */
  lemma {:induction false} VisitAlone(w: World, s: State, t: Name, i: nat, x: Name, stack: seq<Frame>,
      checked: set<Name>) returns (n: nat)
    requires t in s.tasks && x in s.tasks
    ensures Leads(Alone(w, t), Entering(s, t, i, x, stack, checked),
                  Returned(s, t, i, stack, CycleSearch.Visit(Published(s), x, Sequence(t, stack), checked)), n)
    decreases Published(s).Keys - checked, 0
  {
    var a := Entering(s, t, i, x, stack, checked);
    EnterMoves(w, s, t, i, x, stack, checked);
    if x in checked {
      n := 1;
      LeadsOne(Alone(w, t), a, Returned(s, t, i, stack, (None, checked)));
    } else {
      var top := Frame(x, s.tasks[x].blockedOn);
      n := ScanAlone(w, s, t, i, x, top.pending, stack, checked + {x});
      Pushed(t, stack, top);
      var r := CycleSearch.Scan(Published(s), top.pending, Sequence(t, stack + [top]), checked + {x});
      LeadsMore(Alone(w, t), a, Scanning(s, t, i, stack, top, checked + {x}), Returned(s, t, i, stack, r), n);
      n := n + 1;
    }
  }

  // The loop of that call, with `deps` still ahead.
  lemma {:induction false} ScanAlone(w: World, s: State, t: Name, i: nat, x: Name, deps: seq<Name>, stack: seq<Frame>,
      checked: set<Name>) returns (n: nat)
    requires t in s.tasks
    ensures var path := Sequence(t, stack + [Frame(x, deps)]);
            Leads(Alone(w, t), Scanning(s, t, i, stack, Frame(x, deps), checked),
                  Returned(s, t, i, stack, CycleSearch.Scan(Published(s), deps, path, checked)), n)
    decreases Published(s).Keys - checked, |deps|
  {
    var a := Scanning(s, t, i, stack, Frame(x, deps), checked);
    var path := Sequence(t, stack + [Frame(x, deps)]);
    if deps == [] {
      n := 1;
      ReturnMoves(w, s, t, i, x, stack, checked);
      LeadsOne(Alone(w, t), a, Returned(s, t, i, stack, (None, checked)));
    } else {
      ScanMoves(w, s, t, i, x, deps, stack, checked);
      if deps[0] in path {
        n := 1;
        LeadsOne(Alone(w, t), a, Returned(s, t, i, stack, (Some(path + [deps[0]]), checked)));
      } else {
        n := ScanRest(w, s, t, i, x, deps, stack, checked);
      }
    }
  }

  // What Scan answers when the first entry is not on the path.
  ghost predicate ScansAs(g: CycleSearch.Graph, deps: seq<Name>, path: seq<Name>, checked: set<Name>, r: Answer) {
    CycleSearch.Scan(g, deps, path, checked) == r
  }

  lemma ScansOn(g: CycleSearch.Graph, deps: seq<Name>, path: seq<Name>, checked: set<Name>)
    requires deps != [] && deps[0] !in path
    ensures deps[0] !in g ==> ScansAs(g, deps, path, checked, CycleSearch.Scan(g, deps[1..], path, checked))
    ensures deps[0] in g ==>
        var r := CycleSearch.Visit(g, deps[0], path, checked);
        ScansAs(g, deps, path, checked, if r.0.Some? then r else CycleSearch.Scan(g, deps[1..], path, r.1))
  {
  }

  lemma {:induction false} ScanRest(w: World, s: State, t: Name, i: nat, x: Name, deps: seq<Name>, stack: seq<Frame>,
      checked: set<Name>) returns (n: nat)
    requires t in s.tasks && deps != [] && deps[0] !in Sequence(t, stack + [Frame(x, deps)])
    ensures var path := Sequence(t, stack + [Frame(x, deps)]);
            Leads(Alone(w, t), Scanning(s, t, i, stack, Frame(x, deps), checked),
                  Returned(s, t, i, stack, CycleSearch.Scan(Published(s), deps, path, checked)), n)
    decreases Published(s).Keys - checked, |deps|, 0
  {
    var a := Scanning(s, t, i, stack, Frame(x, deps), checked);
    var g, path := Published(s), Sequence(t, stack + [Frame(x, deps)]);
    ScanMoves(w, s, t, i, x, deps, stack, checked);
    Pushed(t, stack, Frame(x, deps));
    Pushed(t, stack, Frame(x, deps[1..]));
    ScansOn(g, deps, path, checked);
    if deps[0] !in s.tasks {
      n := ScanAlone(w, s, t, i, x, deps[1..], stack, checked);
      var r := CycleSearch.Scan(g, deps[1..], path, checked);
      LeadsMore(Alone(w, t), a, Scanning(s, t, i, stack, Frame(x, deps[1..]), checked), Returned(s, t, i, stack, r), n);
      n := n + 1;
    } else {
      n := ScanFirst(w, s, t, i, x, deps, stack, checked);
    }
  }

  // The first entry has a result, and its own call comes first.
  lemma {:induction false} ScanFirst(w: World, s: State, t: Name, i: nat, x: Name, deps: seq<Name>, stack: seq<Frame>,
      checked: set<Name>) returns (n: nat)
    requires t in s.tasks && deps != [] && deps[0] in s.tasks && deps[0] !in Sequence(t, stack + [Frame(x, deps)])
    ensures var path := Sequence(t, stack + [Frame(x, deps)]);
            Leads(Alone(w, t), Scanning(s, t, i, stack, Frame(x, deps), checked),
                  Returned(s, t, i, stack, CycleSearch.Scan(Published(s), deps, path, checked)), n)
    decreases Published(s).Keys - checked, |deps|, 0, 0
  {
    var a := Scanning(s, t, i, stack, Frame(x, deps), checked);
    var g, path, top := Published(s), Sequence(t, stack + [Frame(x, deps)]), Frame(x, deps[1..]);
    var e := Entering(s, t, i, deps[0], stack + [top], checked);
    var r := CycleSearch.Visit(g, deps[0], path, checked);
    assert Alone(w, t)(a) == Some(e) by { ScanMoves(w, s, t, i, x, deps, stack, checked); }
    assert path == Sequence(t, stack + [top]) by {
      Pushed(t, stack, Frame(x, deps));
      Pushed(t, stack, top);
    }
    n := VisitAlone(w, s, t, i, deps[0], stack + [top], checked);
    CallReturned(s, t, i, stack, top, r);
    var all := CycleSearch.Scan(g, deps, path, checked);
    if r.0.Some? {
      assert all == r by { ScansOn(g, deps, path, checked); }
      LeadsMore(Alone(w, t), a, e, Returned(s, t, i, stack, all), n);
      n := n + 1;
    } else {
      var n' := ScanAlone(w, s, t, i, x, deps[1..], stack, r.1);
      assert all == CycleSearch.Scan(g, deps[1..], path, r.1) by { ScansOn(g, deps, path, checked); }
      n := LeadsThrough(Alone(w, t), a, e, Scanning(s, t, i, stack, top, r.1), Returned(s, t, i, stack, all), n, n');
    }
  }

  // The answer of an inner call: a cycle ends the search, and otherwise the loop goes on.
  lemma CallReturned(s: State, t: Name, i: nat, stack: seq<Frame>, top: Frame, r: Answer)
    requires t in s.tasks
    ensures Returned(s, t, i, stack + [top], r)
         == if r.0.Some? then Returned(s, t, i, stack, r) else Scanning(s, t, i, stack, top, r.1)
  {
  }
}
