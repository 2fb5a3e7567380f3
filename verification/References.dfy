/** What references mean, said in terms of the files and their declarations alone: which files a
    prefix is looked up in, which of them answers, and what it says. Module Resolution is proved to
    compute this. */
module References {
  import opened Common
  import opened Names
  import opened Resolution
  import V = Visibility

  // The name is a package, or is around one.
  ghost predicate Namespace(n: FullName, pkg: FullName) { n != "" && (n == pkg || n + "." <= pkg) }

  // The file declares the name, or has it as a namespace.
  ghost predicate Knows(env: Env, f: V.Path, n: FullName) {
    f in env.files && (n in env.files[f].decls || Namespace(n, env.files[f].pkg))
  }

  function Says(env: Env, f: V.Path, n: FullName): Descriptor
    requires f in env.files
  {
    if n in env.files[f].decls then Found(n, env.files[f].decls[n], f) else Sentinel(n)
  }

  lemma KnowsMeans(env: Env, f: V.Path, n: FullName)
    requires f in env.files && Plain(n)
    ensures InFile(env, n, f) == if Knows(env, f, n) then Some(Says(env, f, n)) else None
    ensures HitIn(env, n, f) <==> Knows(env, f, n)
  {
    var pkg := env.files[f].pkg;
    if |pkg| > |n| {
      assert n + "." <= pkg <==> n <= pkg && pkg[|n|] == '.' by {
        assert n + "." <= pkg ==> (n + ".")[..|n|] == pkg[..|n|] && pkg[|n|] == (n + ".")[|n|];
      }
    }
  }

  // The first file of a list that knows the name.
  ghost predicate Answers(env: Env, files: seq<V.Path>, n: FullName, i: nat) {
    i < |files| && Knows(env, files[i], n) && forall j: nat :: j < i ==> !Knows(env, files[j], n)
  }

  /** What a list of files has for a name: nothing if no file knows it, or else what the first one
      says that does. */
  ghost predicate Means(env: Env, files: seq<V.Path>, n: FullName, r: Option<Descriptor>) {
    if r.None? then forall i: nat :: i < |files| ==> !Knows(env, files[i], n)
    else exists i: nat :: Answers(env, files, n, i) && r.value == Says(env, files[i], n)
  }

  // The files in which names under a prefix are looked up: the file itself for prefixes inside
  // it, and all that it can see, in import order, for its package and what is around that.
  ghost function Asked(env: Env, prefix: FullName): seq<V.Path>
    requires Linked(env)
  {
    if InsideFile(env, prefix) then [env.root] else V.Preorder(env.imports, env.root, false, [])
  }

  // The files in import order are the visible ones.
  lemma OrderIsVisible(env: Env, f: V.Path)
    requires Linked(env)
    ensures f in V.Preorder(env.imports, env.root, false, []) <==> V.Visible(env.imports, env.root, f)
  {
    var hit := (g: V.Path) => g == f;
    V.SearchIsVisibility(env.imports, hit, env.root);
    V.SearchIsFirst(env.imports, hit, env.root, false, []);
  }

  lemma OrderIsLinked(env: Env, i: nat)
    requires Linked(env) && i < |V.Preorder(env.imports, env.root, false, [])|
    ensures V.Preorder(env.imports, env.root, false, [])[i] in env.files
  {
    var f := V.Preorder(env.imports, env.root, false, [])[i];
    OrderIsVisible(env, f);
    var w :| V.Walk(env.imports, false, w) && w[0] == env.root && w[|w| - 1] == f;
    V.WalkInside(env.imports, false, w);
  }

  lemma LocalMeans(env: Env, n: FullName)
    requires Linked(env) && Plain(n)
    ensures Means(env, [env.root], n, Local(env, n))
  {
    KnowsMeans(env, env.root, n);
    assert Knows(env, env.root, n) ==> Answers(env, [env.root], n, 0);
  }

  lemma VisibleMeans(env: Env, n: FullName)
    requires Linked(env) && Plain(n)
    ensures Means(env, V.Preorder(env.imports, env.root, false, []), n, Visible(env, n))
  {
    var files := V.Preorder(env.imports, env.root, false, []);
    V.SearchIsFirst(env.imports, Knowing(env, n), env.root, false, []);
    var i := FirstKnows(env, files, n);
    if i.Some? {
      OrderIsLinked(env, i.value);
      KnowsMeans(env, files[i.value], n);
    }
  }

  // The first file that the search stops at is the first one that knows the name.
  lemma FirstKnows(env: Env, files: seq<V.Path>, n: FullName) returns (i: Option<nat>)
    requires Linked(env) && Plain(n) && files == V.Preorder(env.imports, env.root, false, [])
    ensures var r := V.FirstHit(Knowing(env, n), files);
            if i.None? then r.None? && forall i: nat :: i < |files| ==> !Knows(env, files[i], n)
            else Answers(env, files, n, i.value) && r == Some(files[i.value])
  {
    var hit := Knowing(env, n);
    forall i: nat | i < |files|
      ensures hit(files[i]) <==> Knows(env, files[i], n)
    {
      OrderIsLinked(env, i);
      KnowsMeans(env, files[i], n);
    }
    var r := V.FirstHit(hit, files);
    if r.None? {
      return None;
    }
    var k: nat :| k < |files| && files[k] == r.value && hit(files[k]) && forall j :: 0 <= j < k ==> !hit(files[j]);
    return Some(k);
  }

  lemma QueryMeans(env: Env, prefix: FullName, n: FullName)
    requires Linked(env) && Plain(n)
    ensures Means(env, Asked(env, prefix), n, Query(env, InsideFile(env, prefix), n))
  {
    if InsideFile(env, prefix) {
      LocalMeans(env, n);
    } else {
      VisibleMeans(env, n);
    }
  }

  lemma MeansUnique(env: Env, files: seq<V.Path>, n: FullName, r: Option<Descriptor>, r': Option<Descriptor>)
    requires Means(env, files, n, r) && Means(env, files, n, r')
    ensures r == r'
  {
  }

  // --- A reference under a prefix -----------------------------------------------------------

  function Under(prefix: FullName, name: string): FullName { if prefix == "" then name else prefix + "." + name }

  // What decides first: the first component under a prefix, and the whole name at the root.
  function Head(prefix: FullName, name: string): FullName {
    if prefix == "" then name else prefix + "." + FirstName(name)
  }

  /** What a reference means under one prefix. If its head means nothing there, neither does the
      reference. A reference that is its own head means the same. Any other one needs an aggregate
      as its head, and then means what the whole name does, or nothing that is defined. */
  ghost predicate MeansUnder(env: Env, prefix: FullName, name: string, r: Option<Descriptor>)
    requires Linked(env)
  {
    exists head, whole ::
      && Means(env, Asked(env, prefix), Head(prefix, name), head)
      && Means(env, Asked(env, prefix), Under(prefix, name), whole)
      && r == FromParts(head, whole, Head(prefix, name) == Under(prefix, name), Under(prefix, name))
  }

  function FromParts(head: Option<Descriptor>, whole: Option<Descriptor>, same: bool, n: FullName): Option<Descriptor> {
    if same || head.None? then head
    else if !IsAggregate(head.value) then None
    else if whole.None? then Some(Sentinel(n))
    else whole
  }

  // Names as they come up: a prefix is empty or plain, and the empty one is not inside the file.
  ghost predicate PrefixOk(prefix: FullName) { prefix == "" || Plain(prefix) }

  lemma PartsArePlain(prefix: FullName, name: string)
    requires PrefixOk(prefix) && Plain(name)
    ensures Plain(Head(prefix, name)) && Plain(Under(prefix, name))
  {
  }

  /** Every prefix is handled as that says, the empty one included. */
  lemma CandidateMeans(env: Env, prefix: FullName, name: string)
    requires Linked(env) && PrefixOk(prefix) && Plain(name)
    ensures MeansUnder(env, prefix, name, Candidate(env, prefix, name))
  {
    var local := InsideFile(env, prefix);
    var head, whole := Query(env, local, Head(prefix, name)), Query(env, local, Under(prefix, name));
    PartsArePlain(prefix, name);
    QueryMeans(env, prefix, Head(prefix, name));
    QueryMeans(env, prefix, Under(prefix, name));
    CandidateParts(env, prefix, name);
    assert Candidate(env, prefix, name)
        == FromParts(head, whole, Head(prefix, name) == Under(prefix, name), Under(prefix, name));
  }

  lemma CandidateParts(env: Env, prefix: FullName, name: string)
    requires Linked(env) && PrefixOk(prefix) && Plain(name)
    ensures var local := InsideFile(env, prefix);
            Candidate(env, prefix, name)
            == FromParts(Query(env, local, Head(prefix, name)), Query(env, local, Under(prefix, name)),
                         Head(prefix, name) == Under(prefix, name), Under(prefix, name))
  {
  }

  lemma MeansUnderUnique(env: Env, prefix: FullName, name: string, r: Option<Descriptor>, r': Option<Descriptor>)
    requires Linked(env) && MeansUnder(env, prefix, name, r) && MeansUnder(env, prefix, name, r')
    ensures r == r'
  {
    var files, n1, n := Asked(env, prefix), Head(prefix, name), Under(prefix, name);
    var head, whole :| Means(env, files, n1, head) && Means(env, files, n, whole)
      && r == FromParts(head, whole, n1 == n, n);
    var head', whole' :|
      Means(env, files, n1, head') && Means(env, files, n, whole') && r' == FromParts(head', whole', n1 == n, n);
    MeansUnique(env, files, n1, head, head');
    MeansUnique(env, files, n, whole, whole');
  }

  // --- References that only the root can answer ------------------------------------------------

  ghost predicate SomeVisibleKnows(env: Env, n: FullName) {
    exists g :: V.Visible(env.imports, env.root, g) && Knows(env, g, n)
  }

  // What the visible files have for a name.
  lemma VisibleAnswers(env: Env, n: FullName)
    requires Linked(env) && Plain(n)
    ensures Means(env, V.Preorder(env.imports, env.root, false, []), n, Visible(env, n))
    ensures Visible(env, n).Some? <==> SomeVisibleKnows(env, n)
  {
    var files := V.Preorder(env.imports, env.root, false, []);
    VisibleMeans(env, n);
    if Visible(env, n).Some? {
      var i: nat :| Answers(env, files, n, i);
      OrderIsVisible(env, files[i]);
    }
    if g :| V.Visible(env.imports, env.root, g) && Knows(env, g, n) {
      OrderIsVisible(env, g);
      var i: nat :| i < |files| && files[i] == g;
    }
  }

  lemma RootCandidate(env: Env, name: string)
    requires Linked(env)
    ensures Candidate(env, "", name) == Visible(env, name)
  {
  }

  // If no other prefix has anything, the last one decides.
  lemma LastDecides(env: Env, prefixes: seq<FullName>, name: string, onlyTypes: bool)
    requires Linked(env) && prefixes != []
    requires forall i: nat :: i < |prefixes| - 1 ==> !Hit(env, prefixes, name, i)
    ensures TryPrefixes(env, prefixes, name, onlyTypes, None) == Candidate(env, prefixes[|prefixes| - 1], name)
  {
    var i := PrefixesDecide(env, prefixes, name, onlyTypes);
    if i < |prefixes| {
      assert Hit(env, prefixes, name, i);
      assert i == |prefixes| - 1;
    } else {
      assert !Hit(env, prefixes, name, |prefixes| - 1);
    }
  }

  /** A reference that means nothing under any prefix of the enclosing element but the empty one
      resolves exactly when some visible file declares the name or has it as a namespace, and it
      resolves to what the first such file in import order says. */
  lemma RootDecides(env: Env, name: string, onlyTypes: bool, scopes: seq<FullName>, element: FullName)
    requires Linked(env) && Plain(name) && PrefixOk(element) && Aligned(scopes, env.files[env.root].pkg, element)
    requires forall i: nat :: i < |PrefixList(element)| - 1 ==> MeansUnder(env, PrefixList(element)[i], name, None)
    ensures var r := Resolve(env, name, onlyTypes, scopes);
            && Means(env, V.Preorder(env.imports, env.root, false, []), name, r)
            && (r.Some? <==> SomeVisibleKnows(env, name))
  {
    var prefixes := PrefixList(element);
    ResolveIsDeclarative(env, name, onlyTypes, scopes, element);
    PrefixListIsPlain(element);
    forall i: nat | i < |prefixes| - 1
      ensures !Hit(env, prefixes, name, i)
    {
      CandidateMeans(env, prefixes[i], name);
      MeansUnderUnique(env, prefixes[i], name, None, Candidate(env, prefixes[i], name));
    }
    LastDecides(env, prefixes, name, onlyTypes);
    assert prefixes[|prefixes| - 1] == "";
    RootCandidate(env, name);
    VisibleAnswers(env, name);
  }

  /** The same for a reference with a leading dot, from any scope. */
  lemma DottedDecides(env: Env, n: FullName, onlyTypes: bool, scopes: seq<FullName>)
    requires Linked(env) && Plain(n)
    ensures var r := Resolve(env, "." + n, onlyTypes, scopes);
            && Means(env, V.Preorder(env.imports, env.root, false, []), n, r)
            && (r.Some? <==> SomeVisibleKnows(env, n))
  {
    assert ("." + n)[1..] == n;
    VisibleAnswers(env, n);
  }

  /** What resolution returns, in these terms: the meaning under the prefix that decides, or
      nothing if the reference means nothing under any prefix. */
  lemma ReferenceMeans(env: Env, name: string, onlyTypes: bool, scopes: seq<FullName>, element: FullName)
      returns (i: nat)
    requires Linked(env) && Plain(name) && PrefixOk(element) && Aligned(scopes, env.files[env.root].pkg, element)
    ensures var r, prefixes := Resolve(env, name, onlyTypes, scopes), PrefixList(element);
            if i < |prefixes| then Decides(env, prefixes, name, onlyTypes, i) && MeansUnder(env, prefixes[i], name, r)
            else r.None? && forall j: nat :: j < |prefixes| ==> MeansUnder(env, prefixes[j], name, None)
  {
    var prefixes := PrefixList(element);
    ResolveIsDeclarative(env, name, onlyTypes, scopes, element);
    PrefixListIsPlain(element);
    i := PrefixesDecide(env, prefixes, name, onlyTypes);
    if i < |prefixes| {
      CandidateMeans(env, prefixes[i], name);
    } else {
      forall j: nat | j < |prefixes|
        ensures MeansUnder(env, prefixes[j], name, None)
      {
        CandidateMeans(env, prefixes[j], name);
        assert !Hit(env, prefixes, name, j);
      }
    }
  }

  // --- Which hit is taken -------------------------------------------------------------------------

  /** The first component is what comes before the first dot, if there is one. */
  lemma FirstNameMeans(name: string)
    requires Plain(name)
    ensures Plain(FirstName(name)) && '.' !in FirstName(name)
    ensures FirstName(name) == name || FirstName(name) + "." <= name
  {
  }

  ghost predicate MessageOrEnum(d: Descriptor) { d.Found? && d.kind in {KMessage, KEnum} }

  ghost predicate NoHitBefore(env: Env, prefixes: seq<FullName>, name: string, i: nat)
    requires Linked(env)
  {
    forall j: nat :: j < i ==> !Hit(env, prefixes, name, j)
  }

  /** A reference to anything, or one with a dot in it, takes the first hit of all. */
  lemma FirstHitIsTaken(env: Env, prefixes: seq<FullName>, name: string, onlyTypes: bool, i: nat)
    requires Linked(env) && Plain(name) && (!onlyTypes || '.' in name)
    requires Hit(env, prefixes, name, i) && NoHitBefore(env, prefixes, name, i)
    ensures TryPrefixes(env, prefixes, name, onlyTypes, None) == Candidate(env, prefixes[i], name)
  {
    FirstNameMeans(name);
    assert Wanted(env, prefixes, name, onlyTypes, i);
    WantedWins(env, prefixes, name, onlyTypes, None, i);
  }

  // Up to `i`, every hit is inside the file and is neither a message nor an enum.
  ghost predicate PassedOver(env: Env, prefixes: seq<FullName>, name: string, i: nat)
    requires Linked(env)
  {
    forall j: nat :: j < i && Hit(env, prefixes, name, j) ==>
      InsideFile(env, prefixes[j]) && !MessageOrEnum(Candidate(env, prefixes[j], name).value)
  }

  /** A reference to a type, without a dot, passes over hits of other kinds inside the file to the
      first message or enum. */
  lemma FirstTypeIsTaken(env: Env, prefixes: seq<FullName>, name: string, i: nat)
    requires Linked(env) && '.' !in name && PassedOver(env, prefixes, name, i)
    requires Hit(env, prefixes, name, i) && MessageOrEnum(Candidate(env, prefixes[i], name).value)
    ensures TryPrefixes(env, prefixes, name, true, None) == Candidate(env, prefixes[i], name)
  {
    assert Wanted(env, prefixes, name, true, i);
    forall j: nat | j < i
      ensures !Wanted(env, prefixes, name, true, j)
    {
      NotWanted(env, prefixes, name, j);
    }
    WantedWins(env, prefixes, name, true, None, i);
  }

  lemma NotWanted(env: Env, prefixes: seq<FullName>, name: string, j: nat)
    requires Linked(env) && '.' !in name
    requires Hit(env, prefixes, name, j) ==> !MessageOrEnum(Candidate(env, prefixes[j], name).value)
    ensures !Wanted(env, prefixes, name, true, j)
  {
  }

  /** If there is none before a hit in a package that is something else, or none at all, it gets the
      first hit of any kind, which then makes the error message. */
  lemma NoTypeIsFound(env: Env, prefixes: seq<FullName>, name: string, i: nat, k: nat)
    requires Linked(env) && '.' !in name && i <= k <= |prefixes| && PassedOver(env, prefixes, name, k)
    requires k < |prefixes| ==>
        && Hit(env, prefixes, name, k) && !InsideFile(env, prefixes[k])
        && !MessageOrEnum(Candidate(env, prefixes[k], name).value)
    requires i < |prefixes| && Hit(env, prefixes, name, i) && NoHitBefore(env, prefixes, name, i)
    ensures TryPrefixes(env, prefixes, name, true, None) == Candidate(env, prefixes[i], name)
  {
    forall j: nat
      ensures !Wanted(env, prefixes, name, true, j)
    {
      if j <= k {
        NotWanted(env, prefixes, name, j);
      } else if k < |prefixes| {
        assert Hit(env, prefixes, name, k) && !InsideFile(env, prefixes[k]);
        assert !Reached(env, prefixes, name, j);
      }
    }
    FirstHitRemains(env, prefixes, name, true, i);
  }
}
