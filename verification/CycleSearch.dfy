/** checkForDependencyCycle of compiler.go on a fixed set of published lists: the search
    that a task runs over all its imports reports an error exactly when an import cycle
    can be reached from the task, and what it reports is such a cycle. */
module CycleSearch {
  import opened Common

  type Name = string

  // The registered results, each with the list it is blocked on.
  type Graph = map<Name, seq<Name>>

  function Succ(g: Graph, x: Name): seq<Name> {
    if x in g then g[x] else []
  }

  ghost predicate EdgeAt(g: Graph, p: seq<Name>, j: nat) {
    j + 1 < |p| && p[j + 1] in Succ(g, p[j])
  }

  ghost predicate Walk(g: Graph, p: seq<Name>) {
    |p| > 0 && forall j: nat :: j + 1 < |p| ==> EdgeAt(g, p, j)
  }

  lemma SubWalk(g: Graph, p: seq<Name>, a: nat, b: nat)
    requires Walk(g, p) && a < b <= |p|
    ensures Walk(g, p[a..b])
  {
    forall j: nat | j + 1 < |p[a..b]|
      ensures EdgeAt(g, p[a..b], j)
    {
      assert EdgeAt(g, p, a + j);
    }
  }

  // A walk from `name` that comes back to one of its names.
  ghost predicate CycleFrom(g: Graph, name: Name, p: seq<Name>) {
    |p| >= 2 && Walk(g, p) && p[0] == name && p[|p| - 1] in p[..|p| - 1]
  }

  // Each finished name is followed only by names finished earlier and by names that are
  // blocked on nothing.
  ghost predicate Ordered(g: Graph, root: Name, finished: seq<Name>) {
    forall i, d :: 0 <= i < |finished| && d in Succ(g, finished[i]) ==>
      d != root && (Succ(g, d) != [] ==> d in finished[..i])
  }

  lemma OrderedAppend(g: Graph, root: Name, finished: seq<Name>, x: Name)
    requires Ordered(g, root, finished)
    requires forall d :: d in Succ(g, x) ==> d != root && (Succ(g, d) != [] ==> d in finished)
    ensures Ordered(g, root, finished + [x])
  {
    var f := finished + [x];
    forall i, d | 0 <= i < |f| && d in Succ(g, f[i])
      ensures d != root && (Succ(g, d) != [] ==> d in f[..i])
    {
      if i < |finished| {
        assert f[..i] == finished[..i];
      } else {
        assert f[..i] == finished;
      }
    }
  }

  // A walk through finished names moves towards the front of the list.
  lemma {:induction false} WalkDescends(g: Graph, root: Name, finished: seq<Name>, p: seq<Name>, i: nat)
      returns (k: nat)
    requires Ordered(g, root, finished) && Walk(g, p) && i < |finished| && p[0] == finished[i]
    requires Succ(g, p[|p| - 1]) != []
    ensures k <= i && finished[k] == p[|p| - 1] && (|p| > 1 ==> k < i)
    ensures p[|p| - 1] != root || |p| == 1
    decreases |p|
  {
    k := i;
    if |p| > 1 {
      var d := p[1];
      assert EdgeAt(g, p, 0) && d in Succ(g, finished[i]) && d != root;
      assert |p| > 2 ==> EdgeAt(g, p, 1);
      var j :| 0 <= j < i && finished[..i][j] == d;
      SubWalk(g, p, 1, |p|);
      k := WalkDescends(g, root, finished, p[1..|p|], j);
    }
  }

  // Everything checked has returned, except the results on the current path.
  ghost predicate Marks(g: Graph, path: seq<Name>, checked: set<Name>, finished: seq<Name>) {
    && |path| > 0
    && Ordered(g, path[0], finished)
    && Distinct(finished)
    && checked <= g.Keys
    && (forall x :: x in checked <==> x in finished || x in path[1..])
  }

  lemma MarkEntered(g: Graph, path: seq<Name>, x: Name, checked: set<Name>, finished: seq<Name>)
    requires Marks(g, path, checked, finished) && x in g
    ensures Marks(g, path + [x], checked + {x}, finished)
  {
    assert (path + [x])[1..] == path[1..] + [x];
  }

  lemma MarkReturned(g: Graph, path: seq<Name>, x: Name, checked: set<Name>, finished: seq<Name>)
    requires Marks(g, path + [x], checked, finished) && |path| > 0 && x !in finished
    requires forall d :: d in Succ(g, x) ==> d != path[0] && (d in g ==> d in finished)
    ensures Marks(g, path, checked, finished + [x])
  {
    assert (path + [x])[1..] == path[1..] + [x];
    OrderedAppend(g, path[0], finished, x);
  }

  lemma WalkExtends(g: Graph, p: seq<Name>, d: Name)
    requires Walk(g, p) && d in Succ(g, p[|p| - 1])
    ensures Walk(g, p + [d])
    ensures d in p ==> CycleFrom(g, p[0], p + [d])
  {
    assert (p + [d])[..|p|] == p;
    forall j: nat | j + 1 < |p + [d]|
      ensures EdgeAt(g, p + [d], j)
    {
      assert j + 1 < |p| ==> EdgeAt(g, p, j);
    }
  }

  // What the search answers from `res` on, and what it has checked then. `path` is where the
  // search stands, and `res` comes next.
  ghost function Visit(g: Graph, res: Name, path: seq<Name>, checked: set<Name>): (r: (Option<seq<Name>>, set<Name>))
    requires res in g
    ensures r.1 >= checked
    decreases g.Keys - checked, 0
  {
    if res in checked then (None, checked) else Scan(g, g[res], path + [res], checked + {res})
  }

  // The same for the rest of a list.
  ghost function Scan(g: Graph, deps: seq<Name>, path: seq<Name>,
      checked: set<Name>): (r: (Option<seq<Name>>, set<Name>))
    ensures r.1 >= checked
    decreases g.Keys - checked, |deps|
  {
    if deps == [] then (None, checked)
    else if deps[0] in path then (Some(path + [deps[0]]), checked)
    else if deps[0] !in g then Scan(g, deps[1..], path, checked)
    else
      var r := Visit(g, deps[0], path, checked);
      if r.0.Some? then r else Scan(g, deps[1..], path, r.1)
  }

  // What has been left finished by a search that answers `r`: all it was, and none of the path.
  ghost predicate Leaves(path: seq<Name>, finished: seq<Name>, finished': seq<Name>) {
    && (forall x :: x in finished ==> x in finished')
    && (forall x :: x in path && x !in finished ==> x !in finished')
  }

  /** What the search means: an error is a walk from the start of the path that comes back to
      itself, and without one `res` and all it leads to are finished, in an order that excludes
      cycles. `finished` are the results whose call has returned, in order. */
  lemma {:induction false} VisitMeans(g: Graph, res: Name, path: seq<Name>, checked: set<Name>, finished: seq<Name>)
      returns (finished': seq<Name>)
    requires res in g && res !in path && |path| > 0
    requires Walk(g, path + [res]) && Marks(g, path, checked, finished)
    ensures Leaves(path, finished, finished')
    ensures var r := Visit(g, res, path, checked);
            if r.0.Some? then CycleFrom(g, path[0], r.0.value) && path + [res] <= r.0.value
            else Marks(g, path, r.1, finished') && res in finished'
    decreases g.Keys - checked, 0
  {
    if res in checked {
      assert res !in path[1..];
      return finished;
    }
    assert res !in finished;
    MarkEntered(g, path, res, checked, finished);
    var f := ScanMeans(g, g[res], path + [res], checked + {res}, finished);
    assert res in path + [res];
    if Visit(g, res, path, checked).0.Some? {
      return f;
    }
    MarkReturned(g, path, res, Visit(g, res, path, checked).1, f);
    finished' := f + [res];
  }

  // Entries of the list of `x`.
  ghost predicate Follow(g: Graph, x: Name, deps: seq<Name>) {
    forall d :: d in deps ==> d in Succ(g, x)
  }

  lemma FollowRest(g: Graph, x: Name, deps: seq<Name>)
    requires Follow(g, x, deps) && deps != []
    ensures deps[0] in Succ(g, x) && Follow(g, x, deps[1..])
  {
    assert deps[0] in deps;
    assert forall d :: d in deps[1..] ==> d in deps;
  }

  // The same for the rest of a list.
  lemma {:induction false} ScanMeans(g: Graph, deps: seq<Name>, path: seq<Name>, checked: set<Name>,
      finished: seq<Name>)
      returns (finished': seq<Name>)
    requires Walk(g, path) && Marks(g, path, checked, finished) && Follow(g, path[|path| - 1], deps)
    ensures Leaves(path, finished, finished')
    ensures var r := Scan(g, deps, path, checked);
            if r.0.Some? then CycleFrom(g, path[0], r.0.value) && path <= r.0.value
            else Marks(g, path, r.1, finished') && Passed(g, deps, path[0], finished')
    decreases g.Keys - checked, |deps|
  {
    if deps == [] {
      return finished;
    }
    FollowRest(g, path[|path| - 1], deps);
    WalkExtends(g, path, deps[0]);
    if deps[0] in path {
      return finished;
    }
    if deps[0] !in g {
      finished' := ScanMeans(g, deps[1..], path, checked, finished);
    } else {
      var f := VisitMeans(g, deps[0], path, checked, finished);
      var r := Visit(g, deps[0], path, checked);
      if r.0.Some? {
        return f;
      }
      finished' := ScanMeans(g, deps[1..], path, r.1, f);
    }
    PassedFirst(g, deps, path, finished');
  }

  // Nothing is left to do about the entries of a list.
  ghost predicate Passed(g: Graph, deps: seq<Name>, root: Name, finished: seq<Name>) {
    forall d :: d in deps ==> d != root && (d in g ==> d in finished)
  }

  lemma PassedFirst(g: Graph, deps: seq<Name>, path: seq<Name>, finished: seq<Name>)
    requires deps != [] && |path| > 0 && deps[0] !in path && (deps[0] in g ==> deps[0] in finished)
    ensures Passed(g, deps[1..], path[0], finished) ==> Passed(g, deps, path[0], finished)
  {
    assert deps == [deps[0]] + deps[1..];
  }

  // The `executor` fields that the search uses. `checked` is the map that all calls of one
  // import loop share; `finished` is history.
  class Search {
    var results: Graph
    var checked: set<Name>
    ghost var finished: seq<Name>

    constructor (results: Graph)
      ensures this.results == results && checked == {} && finished == []
    {
      this.results := results;
      checked := {};
      finished := [];
    }

    // The sequence passed by the source is `path + [res]`.
    method Check(res: Name, path: seq<Name>) returns (err: Option<seq<Name>>)
      requires res in results
      modifies this`checked
      ensures (err, checked) == Visit(results, res, path, old(checked))
      decreases results.Keys - checked
    {
      if res in checked {
        return None;
      }
      checked := checked + {res};
      var deps := results[res];
      var sequence := path + [res];
      for k := 0 to |deps|
        invariant checked >= old(checked) + {res}
        invariant Visit(results, res, path, old(checked)) == Scan(results, deps[k..], sequence, checked)
      {
        assert deps[k..][1..] == deps[k + 1..];
        var dep := deps[k];
        if dep in sequence {
          return Some(sequence + [dep]);
        }
        if dep in results {
          err := Check(dep, sequence);
          if err.Some? {
            return;
          }
        }
      }
      return None;
    }

    // One turn of the import loop: refuse a self-import, create a missing result, and search.
    method CheckImport(dep: Name, name: Name, ghost published: Graph) returns (err: Option<seq<Name>>)
      requires OnlyAddsEmpty(published, results) && dep in Succ(published, name)
      requires Marks(results, [name], checked, finished)
      modifies this
      ensures OnlyAddsEmpty(published, results)
      ensures err.Some? ==> CycleFrom(published, name, err.value) && err.value[1] == dep
      ensures err.None? ==> Marks(results, [name], checked, finished) && dep != name && dep in finished
      ensures forall x :: x in old(finished) ==> x in finished
    {
      WalkExtends(published, [name], dep);
      assert [name] + [dep] == [name, dep];
      if dep == name {
        return Some([name, dep]);
      }
      if dep !in results {
        ResultAdded(published, results, name, checked, finished, dep);
        results := results[dep := []];
      }
      SameWalk(published, results, [name, dep]);
      finished := VisitMeans(results, dep, [name], checked, finished);
      err := Check(dep, [name]);
      if err.Some? {
        SameCycles(published, results, name, err.value);
      }
    }
  }

  // Results created for imports that had none have published nothing yet.
  ghost predicate OnlyAddsEmpty(g: Graph, g': Graph) {
    forall x :: Succ(g, x) == Succ(g', x)
  }

  lemma SameWalk(g: Graph, g': Graph, p: seq<Name>)
    requires OnlyAddsEmpty(g, g') && Walk(g, p)
    ensures Walk(g', p)
  {
    forall j: nat | j + 1 < |p|
      ensures EdgeAt(g', p, j)
    {
      assert EdgeAt(g, p, j);
    }
  }

  lemma SameCycles(g: Graph, g': Graph, name: Name, p: seq<Name>)
    requires OnlyAddsEmpty(g, g')
    ensures CycleFrom(g, name, p) <==> CycleFrom(g', name, p)
  {
    if CycleFrom(g, name, p) {
      SameWalk(g, g', p);
    } else if CycleFrom(g', name, p) {
      SameWalk(g', g, p);
    }
  }

  // When every import of the root has been finished, no cycle can be reached through one: past
  // the root, the places on a cycle would have to descend forever.
  lemma NoCycleLeft(g: Graph, name: Name, deps: seq<Name>, finished: seq<Name>, p: seq<Name>)
    requires Ordered(g, name, finished)
    requires Distinct(finished) && forall d :: d in deps ==> d != name && d in finished
    ensures CycleFrom(g, name, p) ==> p[1] !in deps
  {
    if CycleFrom(g, name, p) && p[1] in deps {
      var n := |p| - 1;
      var i :| 0 <= i < n && p[..n][i] == p[n];
      var a :| 0 <= a < |finished| && finished[a] == p[1];
      NoReturn(g, name, finished, p, i, a);
    }
  }

  // A walk whose second name is finished does not come back to entry `i` at its end.
  lemma NoReturn(g: Graph, name: Name, finished: seq<Name>, p: seq<Name>, i: nat, a: nat)
    requires Ordered(g, name, finished) && Distinct(finished) && Walk(g, p) && p[0] == name
    requires i < |p| - 1 && a < |finished| && finished[a] == p[1] != name
    ensures p[i] != p[|p| - 1]
  {
    if p[i] == p[|p| - 1] {
      assert EdgeAt(g, p, i);
      if i == 0 {
        SubWalk(g, p, 1, |p|);
        var _ := WalkDescends(g, name, finished, p[1..|p|], a);
      } else {
        SubWalk(g, p, 1, i + 1);
        SubWalk(g, p, i, |p|);
        var b := WalkDescends(g, name, finished, p[1..i + 1], a);
        var c := WalkDescends(g, name, finished, p[i..|p|], b);
      }
      assert false;
    }
  }

  /** The import loop of asFile, over the explicit imports of the task. `results[name]` is the
      list that it has just published, which may hold an implicit dependency as well. */
  method CheckImports(results: Graph, name: Name, deps: seq<Name>) returns (err: Option<seq<Name>>)
    requires name in results && forall d :: d in deps ==> d in results[name]
    ensures err.Some? ==> CycleFrom(results, name, err.value) && err.value[1] in deps
    ensures err.None? ==> forall p :: CycleFrom(results, name, p) ==> p[1] !in deps
  {
    var search := new Search(results);
    for i := 0 to |deps|
      invariant OnlyAddsEmpty(results, search.results) && fresh(search)
      invariant Marks(search.results, [name], search.checked, search.finished)
      invariant forall j :: 0 <= j < i ==> deps[j] != name && deps[j] in search.finished
    {
      err := search.CheckImport(deps[i], name, results);
      if err.Some? {
        return;
      }
    }
    NoCycles(results, search.results, name, deps, search.finished);
    return None;
  }

  // A result that has been created has published nothing.
  lemma ResultAdded(g: Graph, g': Graph, name: Name, checked: set<Name>, finished: seq<Name>, dep: Name)
    requires OnlyAddsEmpty(g, g') && Marks(g', [name], checked, finished) && dep !in g'
    ensures OnlyAddsEmpty(g, g'[dep := []]) && Marks(g'[dep := []], [name], checked, finished)
  {
    var g'' := g'[dep := []];
    assert forall x :: Succ(g'', x) == Succ(g', x);
  }

  lemma NoCycles(g: Graph, g': Graph, name: Name, deps: seq<Name>, finished: seq<Name>)
    requires OnlyAddsEmpty(g, g') && Ordered(g', name, finished) && Distinct(finished)
    requires forall d :: d in deps ==> d != name && d in finished
    ensures forall p :: CycleFrom(g, name, p) ==> p[1] !in deps
  {
    forall p
      ensures CycleFrom(g, name, p) ==> p[1] !in deps
    {
      NoCycleLeft(g', name, deps, finished, p);
      SameCycles(g, g', name, p);
    }
  }
}
