/** Reference resolution of linker/resolve.go: scopes kept on a stack by the walk of
    walk/walk.go, searched from the inside out, and then the enclosing packages. It
    amounts to trying every dot-prefix of the enclosing element's name. */
module Resolution {
  import opened Common
  import opened Names
  import V = Visibility

  datatype Kind = KMessage | KField | KExtension | KOneof | KEnum | KEnumValue | KService | KMethod

  // A sentinel stands for a name that is a package, or that cannot be anything.
  datatype Descriptor = Found(name: FullName, kind: Kind, file: V.Path) | Sentinel(name: FullName)

  datatype LinkedFile = LinkedFile(pkg: FullName, decls: map<FullName, Kind>)

  // The file whose references are resolved, and everything it can import.
  datatype Env = Env(root: V.Path, files: map<V.Path, LinkedFile>, imports: V.Files)

  ghost predicate Linked(env: Env) {
    env.root in env.imports && env.files.Keys == env.imports.Keys && V.Closed(env.imports)
  }

  predicate IsType(d: Descriptor) {
    d.Found? && (d.kind.KMessage? || d.kind.KEnum?)
  }

  predicate IsAggregate(d: Descriptor) {
    d.Sentinel? || d.kind.KMessage? || d.kind.KEnum? || d.kind.KService?
  }

  // matchesPkgNamespace: the name is the package or a package around it.
  predicate MatchesNamespace(fqn: FullName, pkg: FullName) {
    pkg != "" && (fqn == pkg || (|pkg| > |fqn| && fqn <= pkg && pkg[|fqn|] == '.'))
  }

  // resolveElementInFile
  function InFile(env: Env, n: FullName, f: V.Path): Option<Descriptor>
    requires f in env.files
  {
    if n in env.files[f].decls then Some(Found(n, env.files[f].decls[n], f))
    else if MatchesNamespace(n, env.files[f].pkg) then Some(Sentinel(n))
    else None
  }

  predicate HitIn(env: Env, n: FullName, f: V.Path) {
    f in env.files && InFile(env, n, f).Some?
  }

  function Knowing(env: Env, n: FullName): V.Path -> bool {
    f => HitIn(env, n, f)
  }

  // resolveElement: the first visible file that knows the name.
  function Visible(env: Env, name: FullName): Option<Descriptor>
    requires Linked(env)
  {
    var n := if |name| > 0 && name[0] == '.' then name[1..] else name;
    match V.Search(env.imports, Knowing(env, n), env.root, false, [])
    case None => None
    case Some(f) => if HitIn(env, n, f) then InFile(env, n, f) else None
  }

  function Local(env: Env, n: FullName): Option<Descriptor>
    requires Linked(env)
  {
    InFile(env, n, env.root)
  }

  function Query(env: Env, local: bool, n: FullName): Option<Descriptor>
    requires Linked(env)
  {
    if local then Local(env, n) else Visible(env, n)
  }

  // resolveElementRelative
  function Relative(env: Env, local: bool, n1: FullName, n: FullName): Option<Descriptor>
    requires Linked(env)
  {
    match Query(env, local, n1)
    case None => None
    case Some(d) =>
      if n1 == n then Some(d)
      else if !IsAggregate(d) then None
      else
        match Query(env, local, n)
        case None => Some(Sentinel(n))
        case Some(e) => Some(e)
  }

  function FirstName(name: string): string {
    var pos := NextDot(name, 0);
    if pos > 0 then name[..pos] else name
  }

  // messageScope
  function MessageScope(env: Env, message: FullName, name: string): Option<Descriptor>
    requires Linked(env)
  {
    Relative(env, true, message + "." + FirstName(name), message + "." + name)
  }

  // One turn of the loop in fileScope.
  function PackageTurn(env: Env, prefix: FullName, name: string): Option<Descriptor>
    requires Linked(env)
  {
    if prefix == "" then Relative(env, false, name, name)
    else Relative(env, false, prefix + "." + FirstName(name), prefix + "." + name)
  }

  // fileScope
  function FileScope(env: Env, prefixes: seq<FullName>, name: string): Option<Descriptor>
    requires Linked(env)
    decreases |prefixes|
  {
    if prefixes == [] then None
    else
      match PackageTurn(env, prefixes[0], name)
      case Some(d) => Some(d)
      case None => FileScope(env, prefixes[1..], name)
  }

  // A reference of any kind, or a qualified one, takes the first hit; an unqualified
  // reference to a type skips hits of other kinds.
  predicate Acceptable(d: Descriptor, name: string, onlyTypes: bool) {
    !onlyTypes || IsType(d) || FirstName(name) != name
  }

  // The loop of resolve. `scopes` has the messages and services around the reference,
  // outermost first; the file scope comes before them. `guess` is the first hit skipped.
  function TryScopes(env: Env, scopes: seq<FullName>, name: string, onlyTypes: bool,
      guess: Option<Descriptor>): Option<Descriptor>
    requires Linked(env)
    decreases |scopes|
  {
    if scopes == [] then
      match FileScope(env, PrefixList(env.files[env.root].pkg), name)
      case None => guess
      case Some(d) => if Acceptable(d, name, onlyTypes) || guess.None? then Some(d) else guess
    else
      var inner, outer := scopes[|scopes| - 1], scopes[..|scopes| - 1];
      match MessageScope(env, inner, name)
      case None => TryScopes(env, outer, name, onlyTypes, guess)
      case Some(d) =>
        if Acceptable(d, name, onlyTypes) then Some(d)
        else TryScopes(env, outer, name, onlyTypes, if guess.None? then Some(d) else guess)
  }

  function Resolve(env: Env, name: string, onlyTypes: bool, scopes: seq<FullName>): Option<Descriptor>
    requires Linked(env)
  {
    if |name| > 0 && name[0] == '.' then Visible(env, name[1..]) else TryScopes(env, scopes, name, onlyTypes, None)
  }

  // The loop of resolve as written, from the innermost scope outwards.
  method ResolveInScopes(env: Env, name: string, onlyTypes: bool, scopes: seq<FullName>) returns (r: Option<Descriptor>)
    requires Linked(env)
    ensures r == TryScopes(env, scopes, name, onlyTypes, None)
  {
    var bestGuess: Option<Descriptor> := None;
    assert scopes[..|scopes|] == scopes;
    for i := |scopes| downto 0
      invariant TryScopes(env, scopes, name, onlyTypes, None) == TryScopes(env, scopes[..i], name, onlyTypes, bestGuess)
    {
      var d := MessageScope(env, scopes[i], name);
      assert scopes[..i + 1][..i] == scopes[..i];
      if d.Some? {
        if Acceptable(d.value, name, onlyTypes) {
          return d;
        }
        if bestGuess.None? {
          bestGuess := d;
        }
      }
    }
    var d := FileScope(env, PrefixList(env.files[env.root].pkg), name);
    if d.Some? && (Acceptable(d.value, name, onlyTypes) || bestGuess.None?) {
      return d;
    }
    return bestGuess;
  }

  // --- The declarative form ----------------------------------------------------------------

  // What the reference means relative to one prefix. Prefixes longer than the package are
  // searched in the file itself, the package and its enclosing packages in all visible files.
  function Candidate(env: Env, prefix: FullName, name: string): Option<Descriptor>
    requires Linked(env)
  {
    if |prefix| > |env.files[env.root].pkg| then MessageScope(env, prefix, name) else PackageTurn(env, prefix, name)
  }

  // Try the prefixes in order. A hit of the wrong kind is passed over inside the file; at
  // package level the first hit ends the search.
  function TryPrefixes(env: Env, prefixes: seq<FullName>, name: string, onlyTypes: bool,
      guess: Option<Descriptor>): Option<Descriptor>
    requires Linked(env)
    decreases |prefixes|
  {
    if prefixes == [] then guess
    else
      match Candidate(env, prefixes[0], name)
      case None => TryPrefixes(env, prefixes[1..], name, onlyTypes, guess)
      case Some(d) =>
        if Acceptable(d, name, onlyTypes) then Some(d)
        else
          var g := if guess.None? then Some(d) else guess;
          if |prefixes[0]| > |env.files[env.root].pkg| then TryPrefixes(env, prefixes[1..], name, onlyTypes, g) else g
  }

  // The scope stack, inside out, followed by the package prefixes, is the list of all
  // dot-prefixes of the innermost element.
  ghost predicate Aligned(scopes: seq<FullName>, pkg: FullName, element: FullName) {
    Reverse(scopes) + PrefixList(pkg) == PrefixList(element) && forall i :: 0 <= i < |scopes| ==> |scopes[i]| > |pkg|
  }

  lemma {:induction false} PackagePrefixesShort(pkg: FullName, i: nat)
    requires i < |PrefixList(pkg)|
    ensures |PrefixList(pkg)[i]| <= |pkg|
  {
    if pkg != "" && i < |Prefixes(pkg)| {
      PrefixNoLonger(pkg, |Prefixes(pkg)| - 1 - i);
    }
  }

  lemma {:induction false} PrefixNoLonger(n: FullName, k: nat)
    requires k < |Prefixes(n)|
    ensures |Prefixes(n)[k]| <= |n|
    decreases |n|
  {
    if k < |Prefixes(n)| - 1 {
      PrefixNoLonger(Parent(n).value, k);
    }
  }

  lemma {:induction false} FileScopeAsPrefixes(env: Env, prefixes: seq<FullName>, name: string, onlyTypes: bool,
      guess: Option<Descriptor>)
    requires Linked(env) && forall i :: 0 <= i < |prefixes| ==> |prefixes[i]| <= |env.files[env.root].pkg|
    ensures TryPrefixes(env, prefixes, name, onlyTypes, guess) ==
            match FileScope(env, prefixes, name)
            case None => guess
            case Some(d) => if Acceptable(d, name, onlyTypes) || guess.None? then Some(d) else guess
    decreases |prefixes|
  {
    if prefixes != [] && PackageTurn(env, prefixes[0], name).None? {
      FileScopeAsPrefixes(env, prefixes[1..], name, onlyTypes, guess);
    }
  }

  lemma {:induction false} ScopesAsPrefixes(env: Env, scopes: seq<FullName>, name: string, onlyTypes: bool,
      guess: Option<Descriptor>)
    requires Linked(env) && forall i :: 0 <= i < |scopes| ==> |scopes[i]| > |env.files[env.root].pkg|
    ensures TryScopes(env, scopes, name, onlyTypes, guess) ==
            TryPrefixes(env, Reverse(scopes) + PrefixList(env.files[env.root].pkg), name, onlyTypes, guess)
    decreases |scopes|
  {
    var pkgs := PrefixList(env.files[env.root].pkg);
    if scopes == [] {
      forall i | 0 <= i < |pkgs|
        ensures |pkgs[i]| <= |env.files[env.root].pkg|
      {
        PackagePrefixesShort(env.files[env.root].pkg, i);
      }
      FileScopeAsPrefixes(env, pkgs, name, onlyTypes, guess);
      assert Reverse(scopes) + pkgs == pkgs;
    } else {
      var inner, outer := scopes[|scopes| - 1], scopes[..|scopes| - 1];
      assert Reverse(scopes) + pkgs == [inner] + (Reverse(outer) + pkgs);
      assert ([inner] + (Reverse(outer) + pkgs))[1..] == Reverse(outer) + pkgs;
      match MessageScope(env, inner, name)
      case None => ScopesAsPrefixes(env, outer, name, onlyTypes, guess);
      case Some(d) =>
        if !Acceptable(d, name, onlyTypes) {
          ScopesAsPrefixes(env, outer, name, onlyTypes, if guess.None? then Some(d) else guess);
        }
    }
  }

  /** Scoped resolution equals its declarative form. */
  lemma ResolveIsDeclarative(env: Env, name: string, onlyTypes: bool, scopes: seq<FullName>, element: FullName)
    requires Linked(env) && Aligned(scopes, env.files[env.root].pkg, element) && !(|name| > 0 && name[0] == '.')
    ensures Resolve(env, name, onlyTypes, scopes) == TryPrefixes(env, PrefixList(element), name, onlyTypes, None)
  {
    ScopesAsPrefixes(env, scopes, name, onlyTypes, None);
  }

  // --- Which prefix decides -----------------------------------------------------------------

  // The prefix is that of a message or service in the file, longer than the package.
  predicate InsideFile(env: Env, prefix: FullName)
    requires Linked(env)
  {
    |prefix| > |env.files[env.root].pkg|
  }

  ghost predicate Hit(env: Env, prefixes: seq<FullName>, name: string, i: nat)
    requires Linked(env)
  {
    i < |prefixes| && Candidate(env, prefixes[i], name).Some?
  }

  // No hit at package level comes before `i`.
  ghost predicate Reached(env: Env, prefixes: seq<FullName>, name: string, i: nat)
    requires Linked(env)
  {
    forall j: nat :: j < i && Hit(env, prefixes, name, j) ==> InsideFile(env, prefixes[j])
  }

  // A hit of an acceptable kind, either inside the file or the first one at package level.
  ghost predicate Wanted(env: Env, prefixes: seq<FullName>, name: string, onlyTypes: bool, i: nat)
    requires Linked(env)
  {
    && Hit(env, prefixes, name, i) && Acceptable(Candidate(env, prefixes[i], name).value, name, onlyTypes)
    && Reached(env, prefixes, name, i)
  }

  /** The prefix that decides: the first with a wanted hit, or else the first with any hit. */
  ghost predicate Decides(env: Env, prefixes: seq<FullName>, name: string, onlyTypes: bool, i: nat)
    requires Linked(env)
  {
    || (Wanted(env, prefixes, name, onlyTypes, i)
      && forall j: nat :: j < i ==> !Wanted(env, prefixes, name, onlyTypes, j))
    || ((forall j: nat :: !Wanted(env, prefixes, name, onlyTypes, j)) && Hit(env, prefixes, name, i) &&
        forall j: nat :: j < i ==> !Hit(env, prefixes, name, j))
  }

  // Entry `i` of the tail is entry `i + 1` of the list.
  lemma TailHit(env: Env, prefixes: seq<FullName>, name: string, i: nat)
    requires Linked(env) && prefixes != []
    ensures Hit(env, prefixes[1..], name, i) <==> Hit(env, prefixes, name, i + 1)
  {
  }

  lemma TailWanted(env: Env, prefixes: seq<FullName>, name: string, onlyTypes: bool, i: nat)
    requires Linked(env) && prefixes != [] && (Hit(env, prefixes, name, 0) ==> InsideFile(env, prefixes[0]))
    ensures Wanted(env, prefixes[1..], name, onlyTypes, i) <==> Wanted(env, prefixes, name, onlyTypes, i + 1)
  {
    TailHit(env, prefixes, name, i);
    if Reached(env, prefixes[1..], name, i) {
      forall j: nat | j < i + 1 && Hit(env, prefixes, name, j)
        ensures InsideFile(env, prefixes[j])
      {
        if j > 0 {
          TailHit(env, prefixes, name, j - 1);
        }
      }
    }
    if Reached(env, prefixes, name, i + 1) {
      forall j: nat | j < i && Hit(env, prefixes[1..], name, j)
        ensures InsideFile(env, prefixes[1..][j])
      {
        TailHit(env, prefixes, name, j);
      }
    }
  }

  // The first wanted hit is the answer.
  lemma {:induction false} WantedWins(env: Env, prefixes: seq<FullName>, name: string, onlyTypes: bool,
                                      guess: Option<Descriptor>, i: nat)
    requires Linked(env) && Wanted(env, prefixes, name, onlyTypes, i)
    requires forall j: nat :: j < i ==> !Wanted(env, prefixes, name, onlyTypes, j)
    ensures TryPrefixes(env, prefixes, name, onlyTypes, guess) == Candidate(env, prefixes[i], name)
    decreases i
  {
    if i > 0 {
      var c := Candidate(env, prefixes[0], name);
      assert !Wanted(env, prefixes, name, onlyTypes, 0) && Reached(env, prefixes, name, 0);
      assert Hit(env, prefixes, name, 0) ==> InsideFile(env, prefixes[0]);
      TailWanted(env, prefixes, name, onlyTypes, i - 1);
      forall j: nat | j < i - 1
        ensures !Wanted(env, prefixes[1..], name, onlyTypes, j)
      {
        TailWanted(env, prefixes, name, onlyTypes, j);
      }
      WantedWins(env, prefixes[1..], name, onlyTypes, if c.Some? && guess.None? then c else guess, i - 1);
    }
  }

  // Without one the answer is the guess made before, or else the first hit of any kind.
  lemma {:induction false} GuessRemains(env: Env, prefixes: seq<FullName>, name: string, onlyTypes: bool,
      guess: Descriptor)
    requires Linked(env) && forall j: nat :: !Wanted(env, prefixes, name, onlyTypes, j)
    ensures TryPrefixes(env, prefixes, name, onlyTypes, Some(guess)) == Some(guess)
    decreases |prefixes|
  {
    if prefixes != [] {
      assert !Wanted(env, prefixes, name, onlyTypes, 0) && Reached(env, prefixes, name, 0);
      if Candidate(env, prefixes[0], name).None? || InsideFile(env, prefixes[0]) {
        NoneWantedInTail(env, prefixes, name, onlyTypes);
        GuessRemains(env, prefixes[1..], name, onlyTypes, guess);
      }
    }
  }

  lemma NoneWantedInTail(env: Env, prefixes: seq<FullName>, name: string, onlyTypes: bool)
    requires Linked(env) && prefixes != [] && forall j: nat :: !Wanted(env, prefixes, name, onlyTypes, j)
    requires Hit(env, prefixes, name, 0) ==> InsideFile(env, prefixes[0])
    ensures forall j: nat :: !Wanted(env, prefixes[1..], name, onlyTypes, j)
  {
    forall j: nat
      ensures !Wanted(env, prefixes[1..], name, onlyTypes, j)
    {
      TailWanted(env, prefixes, name, onlyTypes, j);
    }
  }

  lemma {:induction false} FirstHitRemains(env: Env, prefixes: seq<FullName>, name: string, onlyTypes: bool, i: nat)
    requires Linked(env) && (forall j: nat :: !Wanted(env, prefixes, name, onlyTypes, j))
    requires i <= |prefixes| && (i < |prefixes| ==> Hit(env, prefixes, name, i))
    requires forall j: nat :: j < i ==> !Hit(env, prefixes, name, j)
    ensures TryPrefixes(env, prefixes, name, onlyTypes, None) ==
            if i < |prefixes| then Candidate(env, prefixes[i], name) else None
    decreases i
  {
    if i > 0 {
      assert !Hit(env, prefixes, name, 0);
      NoneWantedInTail(env, prefixes, name, onlyTypes);
      TailHit(env, prefixes, name, i - 1);
      forall j: nat | j < i - 1
        ensures !Hit(env, prefixes[1..], name, j)
      {
        TailHit(env, prefixes, name, j);
      }
      FirstHitRemains(env, prefixes[1..], name, onlyTypes, i - 1);
    } else if prefixes != [] {
      assert !Wanted(env, prefixes, name, onlyTypes, 0) && Reached(env, prefixes, name, 0);
      var d := Candidate(env, prefixes[0], name).value;
      if InsideFile(env, prefixes[0]) {
        NoneWantedInTail(env, prefixes, name, onlyTypes);
        GuessRemains(env, prefixes[1..], name, onlyTypes, d);
      }
    }
  }

  /** Resolution finds nothing exactly when no prefix has a hit, and otherwise it returns what
      the deciding prefix has: an unqualified reference to a type passes over hits of other
      kinds inside the file, scope by scope, but not over the first hit at package level. */
  lemma PrefixesDecide(env: Env, prefixes: seq<FullName>, name: string, onlyTypes: bool) returns (i: nat)
    requires Linked(env)
    ensures var r := TryPrefixes(env, prefixes, name, onlyTypes, None);
            if i < |prefixes| then Decides(env, prefixes, name, onlyTypes, i) && r == Candidate(env, prefixes[i], name)
            else r.None? && forall j: nat :: !Hit(env, prefixes, name, j)
  {
    i := 0;
    while i < |prefixes| && !Wanted(env, prefixes, name, onlyTypes, i)
      invariant i <= |prefixes| && forall j: nat :: j < i ==> !Wanted(env, prefixes, name, onlyTypes, j)
    {
      i := i + 1;
    }
    if i < |prefixes| {
      WantedWins(env, prefixes, name, onlyTypes, None, i);
      return;
    }
    i := 0;
    while i < |prefixes| && !Hit(env, prefixes, name, i)
      invariant i <= |prefixes| && forall j: nat :: j < i ==> !Hit(env, prefixes, name, j)
    {
      i := i + 1;
    }
    FirstHitRemains(env, prefixes, name, onlyTypes, i);
  }

  // --- Qualified references ---------------------------------------------------------------------

  // Under the prefix, the first component of the reference names a message, an enum, a
  // service or a package.
  predicate StartsAggregate(env: Env, prefix: FullName, name: string)
    requires Linked(env)
  {
    var d := Query(env, InsideFile(env, prefix), prefix + "." + FirstName(name));
    d.Some? && IsAggregate(d.value)
  }

  // What the full name means under the prefix; a sentinel if it means nothing.
  function Qualified(env: Env, prefix: FullName, name: string): Descriptor
    requires Linked(env)
  {
    var n := prefix + "." + name;
    match Query(env, InsideFile(env, prefix), n)
    case Some(d) => d
    case None => Sentinel(n)
  }

  lemma QualifiedCandidate(env: Env, prefix: FullName, name: string)
    requires Linked(env) && FirstName(name) != name && prefix != ""
    ensures Candidate(env, prefix, name) ==
            if StartsAggregate(env, prefix, name) then Some(Qualified(env, prefix, name)) else None
  {
    assert prefix + "." + FirstName(name) != prefix + "." + name by {
      assert |FirstName(name)| < |name|;
    }
  }

  /** A qualified reference is decided at the first prefix under which its first component
      names an aggregate, whether or not the rest is found there. */
  lemma QualifiedStopsAtAggregate(env: Env, prefixes: seq<FullName>, name: string, onlyTypes: bool, k: nat)
    requires Linked(env) && k < |prefixes| && FirstName(name) != name
    requires forall j :: 0 <= j <= k ==> prefixes[j] != ""
    requires forall j :: 0 <= j < k ==> !StartsAggregate(env, prefixes[j], name)
    requires StartsAggregate(env, prefixes[k], name)
    ensures TryPrefixes(env, prefixes, name, onlyTypes, None) == Some(Qualified(env, prefixes[k], name))
  {
    forall j: nat | j < k
      ensures !Hit(env, prefixes, name, j)
    {
      QualifiedCandidate(env, prefixes[j], name);
    }
    QualifiedCandidate(env, prefixes[k], name);
    assert Wanted(env, prefixes, name, onlyTypes, k);
    WantedWins(env, prefixes, name, onlyTypes, None, k);
  }

  // --- Rewriting to the leading-dot form ------------------------------------------------------

  // The file itself comes first in the search.
  lemma LocalIsVisible(env: Env, n: FullName)
    requires Linked(env) && !(|n| > 0 && n[0] == '.') && Local(env, n).Some?
    ensures Visible(env, n) == Local(env, n)
  {
    assert HitIn(env, n, env.root);
  }

  // What a query finds has the name that was asked for.
  lemma QueryName(env: Env, local: bool, n: FullName)
    requires Linked(env) && !(|n| > 0 && n[0] == '.') && Query(env, local, n).Some? && Query(env, local, n).value.Found?
    ensures Query(env, local, n).value.name == n && Visible(env, n) == Query(env, local, n)
  {
    if local {
      LocalIsVisible(env, n);
    }
  }

  lemma RelativeKeeps(env: Env, local: bool, n1: FullName, n: FullName)
    requires Linked(env) && !(|n| > 0 && n[0] == '.') && !(|n1| > 0 && n1[0] == '.')
    requires Relative(env, local, n1, n).Some? && Relative(env, local, n1, n).value.Found?
    ensures var d := Relative(env, local, n1, n).value; d.name == n && Visible(env, n) == Some(d)
  {
    QueryName(env, local, n);
  }

  // Names as the parser makes them: not empty and not starting with a dot.
  predicate Plain(n: string) { n != "" && n[0] != '.' }

  lemma {:induction false} PrefixesArePlain(n: FullName, k: nat)
    requires Plain(n) && k < |Prefixes(n)|
    ensures Plain(Prefixes(n)[k])
    decreases |n|
  {
    if k < |Prefixes(n)| - 1 {
      var p := Parent(n).value;
      assert p == n[..|p|] && n[|p|] == '.';
      PrefixesArePlain(p, k);
    }
  }

  lemma PrefixListIsPlain(n: FullName)
    requires n == "" || Plain(n)
    ensures forall i :: 0 <= i < |PrefixList(n)| ==> PrefixList(n)[i] == "" || Plain(PrefixList(n)[i])
  {
    forall i | 0 <= i < |PrefixList(n)|
      ensures PrefixList(n)[i] == "" || Plain(PrefixList(n)[i])
    {
      if n != "" && i < |Prefixes(n)| {
        PrefixesArePlain(n, |Prefixes(n)| - 1 - i);
      }
    }
  }

  lemma CandidateKeeps(env: Env, prefix: FullName, name: string)
    requires Linked(env) && Plain(name) && (prefix == "" || Plain(prefix))
    requires |prefix| > |env.files[env.root].pkg| ==> prefix != ""
    requires Candidate(env, prefix, name).Some? && Candidate(env, prefix, name).value.Found?
    ensures var d := Candidate(env, prefix, name).value; Plain(d.name) && Visible(env, d.name) == Some(d)
  {
    if prefix == "" {
      RelativeKeeps(env, false, name, name);
    } else {
      RelativeKeeps(env, |prefix| > |env.files[env.root].pkg|, prefix + "." + FirstName(name), prefix + "." + name);
    }
  }

  lemma {:induction false} PrefixesKeep(env: Env, prefixes: seq<FullName>, name: string, onlyTypes: bool,
      guess: Option<Descriptor>)
    requires Linked(env) && Plain(name) && forall i :: 0 <= i < |prefixes| ==> prefixes[i] == "" || Plain(prefixes[i])
    requires guess.Some? && guess.value.Found? ==> Plain(guess.value.name) && Visible(env, guess.value.name) == guess
    requires var r := TryPrefixes(env, prefixes, name, onlyTypes, guess); r.Some? && r.value.Found?
    ensures var r := TryPrefixes(env, prefixes, name, onlyTypes, guess);
            Plain(r.value.name) && Visible(env, r.value.name) == r
    decreases |prefixes|
  {
    if prefixes != [] {
      match Candidate(env, prefixes[0], name)
      case None => PrefixesKeep(env, prefixes[1..], name, onlyTypes, guess);
      case Some(d) =>
        if d.Found? {
          CandidateKeeps(env, prefixes[0], name);
        }
        if !Acceptable(d, name, onlyTypes) && |prefixes[0]| > |env.files[env.root].pkg| {
          PrefixesKeep(env, prefixes[1..], name, onlyTypes, if guess.None? then Some(d) else guess);
        }
    }
  }

  /** A reference that resolves to a descriptor, once rewritten with a leading dot, resolves
      to the same descriptor from any scope. */
  lemma RewritingKeepsReferent(env: Env, name: string, onlyTypes: bool, scopes: seq<FullName>, element: FullName,
      other: seq<FullName>)
    requires Linked(env) && Plain(name) && Aligned(scopes, env.files[env.root].pkg, element)
    requires element == "" || Plain(element)
    requires Resolve(env, name, onlyTypes, scopes).Some? && Resolve(env, name, onlyTypes, scopes).value.Found?
    ensures var d := Resolve(env, name, onlyTypes, scopes).value;
            Resolve(env, "." + d.name, onlyTypes, other) == Some(d)
  {
    ResolveIsDeclarative(env, name, onlyTypes, scopes, element);
    PrefixListIsPlain(element);
    PrefixesKeep(env, PrefixList(element), name, onlyTypes, None);
    var d := Resolve(env, name, onlyTypes, scopes).value;
    assert ("." + d.name)[1..] == d.name;
  }
}
