/** resolveInFile of linker/resolve.go: a search through a file, its imports and their
    public imports, guarded against cycles only by the list of files on the current path. */
module Visibility {
  import opened Common
  import Slices

  type Path = string

  datatype Import = Import(path: Path, isPublic: bool)

  // The linked files. FindImportByPath finds every import.
  type Files = map<Path, seq<Import>>

  ghost predicate Closed(fs: Files) {
    forall f, i :: f in fs && 0 <= i < |fs[f]| ==> fs[f][i].path in fs
  }

  ghost predicate OnPath(fs: Files, path: seq<Path>) {
    Distinct(path) && (forall x :: x in path ==> x in fs) && |path| <= |fs|
  }

  // A file that is not on the path yet still fits.
  lemma PathGrows(fs: Files, path: seq<Path>, f: Path)
    requires OnPath(fs, path) && f in fs && f !in path
    ensures OnPath(fs, path + [f])
  {
    DistinctFits(path + [f], fs.Keys);
  }

  // The file in which the search ends, if any; `hit` tells whether a file has a match.
  function Search(fs: Files, hit: Path -> bool, f: Path, publicOnly: bool, path: seq<Path>): Option<Path>
    requires Closed(fs) && f in fs && OnPath(fs, path)
    decreases |fs| - |path|, 1, 0
  {
    if f in path then None
    else if hit(f) then Some(f)
    else
      PathGrows(fs, path, f);
      SearchImports(fs, hit, f, publicOnly, path + [f], 0)
  }

  function SearchImports(fs: Files, hit: Path -> bool, f: Path, publicOnly: bool, path: seq<Path>, i: nat): Option<Path>
    requires Closed(fs) && f in fs && OnPath(fs, path) && i <= |fs[f]|
    decreases |fs| - |path|, 2, |fs[f]| - i
  {
    if i == |fs[f]| then None
    else if publicOnly && !fs[f][i].isPublic then SearchImports(fs, hit, f, publicOnly, path, i + 1)
    else
      match Search(fs, hit, fs[f][i].path, true, path)
      case Some(g) => Some(g)
      case None => SearchImports(fs, hit, f, publicOnly, path, i + 1)
  }

  // --- What is visible ------------------------------------------------------------------

  ghost predicate Imports(fs: Files, f: Path, publicOnly: bool, g: Path) {
    f in fs && exists i :: 0 <= i < |fs[f]| && fs[f][i].path == g && (publicOnly ==> fs[f][i].isPublic)
  }

  // A walk that starts with any import, or with a public one, and goes on along public imports.
  ghost predicate Walk(fs: Files, publicOnly: bool, w: seq<Path>) {
    |w| > 0 && forall j :: 0 <= j < |w| - 1 ==> Imports(fs, w[j], publicOnly || j > 0, w[j + 1])
  }

  // {root, its imports, their transitive public imports}
  ghost predicate Visible(fs: Files, root: Path, g: Path) {
    exists w :: Walk(fs, false, w) && w[0] == root && w[|w| - 1] == g
  }

  lemma WalkTail(fs: Files, publicOnly: bool, w: seq<Path>, j: nat)
    requires Walk(fs, publicOnly, w) && j < |w|
    ensures Walk(fs, publicOnly, w[j..]) && (j > 0 ==> Walk(fs, true, w[j..]))
  {
    forall k | 0 <= k < |w[j..]| - 1
      ensures Imports(fs, w[j..][k], publicOnly || k > 0, w[j..][k + 1])
      ensures j > 0 ==> Imports(fs, w[j..][k], true, w[j..][k + 1])
    {
      assert Imports(fs, w[j + k], publicOnly || j + k > 0, w[j + k + 1]);
    }
  }

  lemma WalkInside(fs: Files, publicOnly: bool, w: seq<Path>)
    requires Closed(fs) && Walk(fs, publicOnly, w) && w[0] in fs
    ensures forall j :: 0 <= j < |w| ==> w[j] in fs
  {
    forall j | 0 <= j < |w|
      ensures w[j] in fs
    {
      if j > 0 {
        assert Imports(fs, w[j - 1], publicOnly || j - 1 > 0, w[j]);
      }
    }
  }

  // When the loop over the imports finds nothing, neither does the search from any of them.
  lemma {:induction false} LoopMissed(fs: Files, hit: Path -> bool, f: Path, publicOnly: bool, path: seq<Path>,
      i: nat, k: nat)
    requires Closed(fs) && f in fs && OnPath(fs, path) && i <= k < |fs[f]|
    requires publicOnly ==> fs[f][k].isPublic
    requires SearchImports(fs, hit, f, publicOnly, path, i).None?
    ensures Search(fs, hit, fs[f][k].path, true, path).None?
    decreases k - i
  {
    if i < k {
      LoopMissed(fs, hit, f, publicOnly, path, i + 1, k);
    }
  }

  // An unsuccessful search has looked at the end of every walk that stays off the path. A
  // walk that comes back to its start is shortened to the part after the last visit.
  lemma {:induction false} SearchMissed(fs: Files, hit: Path -> bool, publicOnly: bool, path: seq<Path>, w: seq<Path>)
    requires Closed(fs) && OnPath(fs, path) && Walk(fs, publicOnly, w) && w[0] in fs
    requires forall j :: 0 <= j < |w| ==> w[j] !in path
    requires Search(fs, hit, w[0], publicOnly, path).None?
    ensures !hit(w[|w| - 1])
    decreases |fs| - |path|, |w|
  {
    var f := w[0];
    if |w| > 1 {
      if j :| 1 <= j < |w| && w[j] == f {
        WalkTail(fs, publicOnly, w, j);
        SearchMissed(fs, hit, publicOnly, path, w[j..]);
      } else {
        WalkTail(fs, publicOnly, w, 1);
        WalkInside(fs, publicOnly, w);
        PathGrows(fs, path, f);
        assert Imports(fs, w[0], publicOnly, w[1]);
        var k :| 0 <= k < |fs[f]| && fs[f][k].path == w[1] && (publicOnly ==> fs[f][k].isPublic);
        LoopMissed(fs, hit, f, publicOnly, path + [f], 0, k);
        SearchMissed(fs, hit, true, path + [f], w[1..]);
      }
    }
  }

  // What a search finds matches and can be reached.
  lemma {:induction false} SearchFound(fs: Files, hit: Path -> bool, f: Path, publicOnly: bool, path: seq<Path>)
      returns (w: seq<Path>)
    requires Closed(fs) && f in fs && OnPath(fs, path) && Search(fs, hit, f, publicOnly, path).Some?
    ensures Walk(fs, publicOnly, w) && w[0] == f && w[|w| - 1] == Search(fs, hit, f, publicOnly, path).value
    ensures hit(w[|w| - 1])
    decreases |fs| - |path|, 1, 0
  {
    if hit(f) {
      return [f];
    }
    PathGrows(fs, path, f);
    w := LoopFound(fs, hit, f, publicOnly, path + [f], 0);
  }

  lemma {:induction false} LoopFound(fs: Files, hit: Path -> bool, f: Path, publicOnly: bool, path: seq<Path>,
      i: nat) returns (w: seq<Path>)
    requires Closed(fs) && f in fs && OnPath(fs, path) && i <= |fs[f]|
        && SearchImports(fs, hit, f, publicOnly, path, i).Some?
    ensures Walk(fs, publicOnly, w) && w[0] == f && w[|w| - 1] == SearchImports(fs, hit, f, publicOnly, path, i).value
    ensures hit(w[|w| - 1])
    decreases |fs| - |path|, 2, |fs[f]| - i
  {
    if publicOnly && !fs[f][i].isPublic {
      w := LoopFound(fs, hit, f, publicOnly, path, i + 1);
    } else if Search(fs, hit, fs[f][i].path, true, path).Some? {
      var v := SearchFound(fs, hit, fs[f][i].path, true, path);
      w := [f] + v;
      forall j | 0 <= j < |w| - 1
        ensures Imports(fs, w[j], publicOnly || j > 0, w[j + 1])
      {
        if j > 0 {
          assert Imports(fs, v[j - 1], true, v[j]);
        }
      }
    } else {
      w := LoopFound(fs, hit, f, publicOnly, path, i + 1);
    }
  }

  /** The search finds a match exactly when a visible file has one, and only there. */
  lemma SearchIsVisibility(fs: Files, hit: Path -> bool, root: Path)
    requires Closed(fs) && root in fs
    ensures var r := Search(fs, hit, root, false, []);
            && (r.Some? ==> hit(r.value) && Visible(fs, root, r.value))
            && (r.None? ==> forall g :: Visible(fs, root, g) ==> !hit(g))
  {
    var r := Search(fs, hit, root, false, []);
    if r.Some? {
      var w := SearchFound(fs, hit, root, false, []);
    } else {
      forall g | Visible(fs, root, g)
        ensures !hit(g)
      {
        var w :| Walk(fs, false, w) && w[0] == root && w[|w| - 1] == g;
        SearchMissed(fs, hit, false, [], w);
      }
    }
  }

  // --- Order ------------------------------------------------------------------------------

  // All files the search would look at if nothing matched, in order.
  function Preorder(fs: Files, f: Path, publicOnly: bool, path: seq<Path>): seq<Path>
    requires Closed(fs) && f in fs && OnPath(fs, path)
    decreases |fs| - |path|, 1, 0
  {
    if f in path then []
    else
      PathGrows(fs, path, f);
      [f] + PreorderImports(fs, f, publicOnly, path + [f], 0)
  }

  function PreorderImports(fs: Files, f: Path, publicOnly: bool, path: seq<Path>, i: nat): seq<Path>
    requires Closed(fs) && f in fs && OnPath(fs, path) && i <= |fs[f]|
    decreases |fs| - |path|, 2, |fs[f]| - i
  {
    if i == |fs[f]| then []
    else
      (if publicOnly && !fs[f][i].isPublic then [] else Preorder(fs, fs[f][i].path, true, path)) +
      PreorderImports(fs, f, publicOnly, path, i + 1)
  }

  function FirstHit(hit: Path -> bool, s: seq<Path>): (r: Option<Path>)
    ensures r.Some? <==> exists i :: 0 <= i < |s| && hit(s[i])
    ensures r.Some? ==>
        exists i ::
          && 0 <= i < |s| && s[i] == r.value && hit(s[i])
          && forall j :: 0 <= j < i ==> !hit(s[j])
  {
    if s == [] then None else if hit(s[0]) then Some(s[0]) else FirstHit(hit, s[1..])
  }

  lemma {:induction false} FirstHitConcat(hit: Path -> bool, a: seq<Path>, b: seq<Path>)
    ensures FirstHit(hit, a + b) == if FirstHit(hit, a).Some? then FirstHit(hit, a) else FirstHit(hit, b)
    decreases |a|
  {
    if a == [] {
      assert a + b == b;
    } else {
      assert (a + b)[1..] == a[1..] + b;
      FirstHitConcat(hit, a[1..], b);
    }
  }

  // The search returns the first match in import pre-order.
  lemma {:induction false} SearchIsFirst(fs: Files, hit: Path -> bool, f: Path, publicOnly: bool, path: seq<Path>)
    requires Closed(fs) && f in fs && OnPath(fs, path)
    ensures Search(fs, hit, f, publicOnly, path) == FirstHit(hit, Preorder(fs, f, publicOnly, path))
    decreases |fs| - |path|, 1, 0
  {
    if f !in path {
      PathGrows(fs, path, f);
      LoopIsFirst(fs, hit, f, publicOnly, path + [f], 0);
      FirstHitConcat(hit, [f], PreorderImports(fs, f, publicOnly, path + [f], 0));
    }
  }

  lemma {:induction false} LoopIsFirst(fs: Files, hit: Path -> bool, f: Path, publicOnly: bool, path: seq<Path>, i: nat)
    requires Closed(fs) && f in fs && OnPath(fs, path) && i <= |fs[f]|
    ensures SearchImports(fs, hit, f, publicOnly, path, i) == FirstHit(hit, PreorderImports(fs, f, publicOnly, path, i))
    decreases |fs| - |path|, 2, |fs[f]| - i
  {
    if i < |fs[f]| {
      var rest := PreorderImports(fs, f, publicOnly, path, i + 1);
      LoopIsFirst(fs, hit, f, publicOnly, path, i + 1);
      if publicOnly && !fs[f][i].isPublic {
        FirstHitConcat(hit, [], rest);
      } else {
        var first := Preorder(fs, fs[f][i].path, true, path);
        SearchIsFirst(fs, hit, fs[f][i].path, true, path);
        FirstHitConcat(hit, first, rest);
        assert PreorderImports(fs, f, publicOnly, path, i) == first + rest;
      }
    }
  }

  // --- The code -----------------------------------------------------------------------------

  lemma SearchHits(fs: Files, hit: Path -> bool, f: Path, publicOnly: bool, path: seq<Path>)
    requires Closed(fs) && f in fs && OnPath(fs, path)
    ensures var r := Search(fs, hit, f, publicOnly, path);
            r.Some? ==> hit(r.value)
  {
    if Search(fs, hit, f, publicOnly, path).Some? {
      var _ := SearchFound(fs, hit, f, publicOnly, path);
    }
  }

  // What the callback says about a file.
  datatype Answer<T> = Found(value: T) | NotFound | Failed(error: string)

  // Both a find and an error end the search.
  function Ends<T>(fn: Path -> Answer<T>): Path -> bool {
    p => !fn(p).NotFound?
  }

  function AnswerAt<T>(fn: Path -> Answer<T>, p: Option<Path>): Answer<T> {
    if p.Some? then fn(p.value) else NotFound
  }

  /** The recursion as written: all calls append to one buffer, each seeing the part up to
      its own length, and still that part is the path of the recursion. */
  method ResolveInFile<T>(fs: Files, fn: Path -> Answer<T>, f: Path, publicOnly: bool, checked: array<Path>, n: nat)
      returns (r: Answer<T>)
    requires Closed(fs) && f in fs && n <= checked.Length && OnPath(fs, checked[..n])
    modifies checked
    ensures r == AnswerAt(fn, Search(fs, Ends(fn), f, publicOnly, old(checked[..n])))
    ensures checked[..n] == old(checked[..n])
    decreases |fs| - n
  {
    ghost var path := checked[..n];
    var i := 0;
    while i < n
      invariant 0 <= i <= n && forall j :: 0 <= j < i ==> checked[j] != f
    {
      if checked[i] == f {
        assert path[i] == f;
        return NotFound;
      }
      i := i + 1;
    }
    assert f !in path;
    PathGrows(fs, path, f);
    var buf := Slices.Append(checked, n, [f]);
    var answer := fn(f);
    if !answer.NotFound? {
      return answer;
    }
    var imports := fs[f];
    for k := 0 to |imports|
      invariant buf == checked || fresh(buf)
      invariant n < buf.Length && buf[..n + 1] == path + [f] && checked[..n] == path
      invariant Search(fs, Ends(fn), f, publicOnly, path) == SearchImports(fs, Ends(fn), f, publicOnly, path + [f], k)
    {
      if publicOnly && !imports[k].isPublic {
        continue;
      }
      r := ResolveInFile(fs, fn, imports[k].path, true, buf, n + 1);
      assert buf == checked ==> checked[..n] == buf[..n + 1][..n] == path;
      SearchHits(fs, Ends(fn), imports[k].path, true, path + [f]);
      if !r.NotFound? {
        return r;
      }
    }
    return NotFound;
  }

}
