/** Concurrent imports into the symbol table of linker/symbols.go. Every importer walks down
    the trie along the prefixes of its package, holding nodes that it found earlier while
    others run; it takes the lock of one node at a time. A run is any sequence of moves. */
module Importers {
  import opened Common
  import opened Names
  import opened Trie
  import Symbols

  // Why an import is refused: an element has the name of one of its packages, its names clash,
  // or the handler has an error.
  datatype Reason = PackageTaken | NameTaken | HandlerFailed

  datatype Outcome = Committed | AlreadyThere | Refused(reason: Reason)

  // Where an importer is: before the read-locked look for the next prefix, before the
  // write-locked second look that may create it, before the read-locked look for the file,
  // before the write-locked check and commit, or finished.
  datatype Phase = Looking | Creating | Checking | Committing | Done(outcome: Outcome)

  // `node` is the node reached with the first `k` prefixes of the package. `direct` imports
  // go without the look for the file.
  datatype Importer = Importer(file: File, span: Span, direct: bool, node: nat, k: nat, phase: Phase)

  // `flat` is history: the elements that have been committed.
  datatype State = State(nodes: Nodes, importers: seq<Importer>, flat: map<FullName, SymbolEntry>)

  // An importer's move. `handlerFailed` is the answer of handler.Error: errors may have been
  // reported by others who use the same handler.
  datatype Move = Move(who: nat, handlerFailed: bool)

  // The prefixes of a package; the root has none.
  function Path(pkg: FullName): seq<FullName> {
    if pkg == "" then [] else Prefixes(pkg)
  }

  function Set(s: State, i: nat, m: Importer): State
    requires i < |s.importers|
  {
    s.(importers := s.importers[i := m])
  }

  predicate CanMove(s: State, i: nat) {
    && i < |s.importers| && !s.importers[i].phase.Done?
    && s.importers[i].node < |s.nodes| && s.importers[i].k <= |Path(s.importers[i].file.pkg)|
    && (s.importers[i].phase.Creating? ==> s.importers[i].k < |Path(s.importers[i].file.pkg)|)
  }

  function Step(s: State, i: nat, handlerFailed: bool): State
    requires CanMove(s, i)
  {
    var m := s.importers[i];
    match m.phase
    case Looking =>
      if m.k == |Path(m.file.pkg)| then Set(s, i, m.(phase := if m.direct then Committing else Checking))
      else LookStep(s, i)
    case Creating => CreateStep(s, i)
    case Checking =>
      Set(s, i, m.(phase := if m.file.id in s.nodes[m.node].files then Done(AlreadyThere) else Committing))
    case Committing => CommitStep(s, i, handlerFailed)
  }

  // What a look at the node says about the next prefix.
  datatype Look = Child(node: nat) | Collision | Missing

  function LookFor(t: Nodes, i: nat, p: FullName): Look
    requires i < |t|
  {
    if p !in t[i].symbols then Missing
    else if !t[i].symbols[p].isPackage then Collision
    else if p in t[i].children then Child(t[i].children[p])
    else Missing  // never: packages are children
  }

  function Prefix(m: Importer): FullName
    requires m.k < |Path(m.file.pkg)|
  {
    Path(m.file.pkg)[m.k]
  }

  // The first, read-locked look of importPackage.
  function LookStep(s: State, i: nat): State
    requires CanMove(s, i) && s.importers[i].k < |Path(s.importers[i].file.pkg)|
  {
    var m := s.importers[i];
    match LookFor(s.nodes, m.node, Prefix(m))
    case Child(c) => Set(s, i, m.(node := c, k := m.k + 1, phase := Looking))
    case Collision => Set(s, i, m.(phase := Done(Refused(PackageTaken))))
    case Missing => Set(s, i, m.(phase := Creating))
  }

  // The write-locked section, which looks again because others may have been faster.
  function CreateStep(s: State, i: nat): State
    requires CanMove(s, i) && s.importers[i].k < |Path(s.importers[i].file.pkg)|
  {
    var m := s.importers[i];
    match LookFor(s.nodes, m.node, Prefix(m))
    case Child(c) => Set(s, i, m.(node := c, k := m.k + 1, phase := Looking))
    case Collision => Set(s, i, m.(phase := Done(Refused(PackageTaken))))
    case Missing =>
      Set(s, i, m.(node := |s.nodes|, k := m.k + 1, phase := Looking))
      .(nodes := WithPackage(s.nodes, m.node, Prefix(m), m.span))
  }

  // importFile or importResult: the file may be there by now; otherwise check, and commit
  // all or nothing.
  function CommitStep(s: State, i: nat, handlerFailed: bool): State
    requires CanMove(s, i)
  {
    var m := s.importers[i];
    if m.file.id in s.nodes[m.node].files then Set(s, i, m.(phase := Done(AlreadyThere)))
    else if !Symbols.ClashFree(s.nodes, m.node, m.file) then Set(s, i, m.(phase := Done(Refused(NameTaken))))
    else if handlerFailed then Set(s, i, m.(phase := Done(Refused(HandlerFailed))))
    else
      Set(s, i, m.(phase := Done(Committed)))
      .(nodes := WithFile(s.nodes, m.node, m.file), flat := s.flat + Entries(m.file.elements))
  }

  // --- What every importer may rely on --------------------------------------------------------

  ghost predicate DottedPackage(f: File) { f.pkg == "" || f.pkg[0] != '.' }

  // What encloses the next prefix.
  function Reached(m: Importer): Option<FullName>
    requires m.k <= |Path(m.file.pkg)|
  {
    if m.k == 0 then None else Some(Path(m.file.pkg)[m.k - 1])
  }

  // The node that an importer holds stands for the prefix with which it was found, however
  // long ago that was.
  ghost predicate ImporterOk(t: Nodes, m: Importer) {
    && ParentClosed(m.file) && DottedPackage(m.file)
    && m.k <= |Path(m.file.pkg)| && m.node < |t| && t[m.node].scope == Reached(m)
    && (m.phase.Creating? ==> m.k < |Path(m.file.pkg)|)
    && (m.phase.Checking? || m.phase.Committing? || m.phase == Done(Committed) ==> m.k == |Path(m.file.pkg)|)
  }

  // Importer `i` committed its file, which declares `n`.
  ghost predicate CommitsAt(s: State, i: nat, n: FullName) {
    i < |s.importers| && s.importers[i].phase == Done(Committed) && n in Entries(s.importers[i].file.elements)
  }

  ghost predicate SomeCommits(s: State, n: FullName) { exists i: nat :: CommitsAt(s, i, n) }

  ghost predicate EntryAt(s: State, i: nat, n: FullName) {
    && i < |s.importers| && n in s.flat && n in Entries(s.importers[i].file.elements)
    && s.flat[n] == Entries(s.importers[i].file.elements)[n]
  }

  // The flat table holds the names of the files that were committed, whole files and nothing
  // else, and no two of them have a name in common.
  ghost predicate WholeFiles(s: State) {
    && (forall n :: n in s.flat <==> SomeCommits(s, n))
    && (forall i: nat, n :: CommitsAt(s, i, n) ==> EntryAt(s, i, n))
    && (forall i: nat, j: nat, n :: CommitsAt(s, i, n) && CommitsAt(s, j, n) ==> i == j)
  }

  // Importer `j` committed a file with this id to node `c`.
  ghost predicate CommittedTo(s: State, j: nat, c: nat, id: int) {
    && j < |s.importers| && s.importers[j].phase == Done(Committed)
    && s.importers[j].node == c && s.importers[j].file.id == id
  }

  ghost predicate SomeCommittedTo(s: State, c: nat, id: int) { exists j: nat :: CommittedTo(s, j, c, id) }

  // The nodes list the files that were committed to them.
  ghost predicate FilesListed(s: State) {
    forall c: nat, id :: FileAt(s.nodes, c, id) ==> SomeCommittedTo(s, c, id)
  }

  ghost predicate FileAt(t: Nodes, c: nat, id: int) { c < |t| && id in t[c].files }

  /** Every verdict has its reason. A file that is said to be there is in the list of its package's
      node, to which an importer committed it; a refused one has an element in the place of one of
      its packages or a clash in the node of its package, unless the handler had an error. */
  ghost predicate VerdictOk(s: State, m: Importer) {
    m.phase.Done? ==>
      match m.phase.outcome
      case Committed => FileAt(s.nodes, m.node, m.file.id) && m.k == |Path(m.file.pkg)|
      case AlreadyThere =>
        && FileAt(s.nodes, m.node, m.file.id) && m.k == |Path(m.file.pkg)|
        && SomeCommittedTo(s, m.node, m.file.id)
      case Refused(PackageTaken) => PrefixTaken(s.flat, m.file.pkg)
      case Refused(NameTaken) =>
        m.k == |Path(m.file.pkg)| && m.node < |s.nodes| && !Symbols.ClashFree(s.nodes, m.node, m.file)
      case Refused(HandlerFailed) => true
  }

  // One of the packages around the files of a package, or that package, is an element.
  ghost predicate PrefixTaken(flat: map<FullName, SymbolEntry>, pkg: FullName) {
    exists j: nat :: TakenAt(flat, pkg, j)
  }

  ghost predicate TakenAt(flat: map<FullName, SymbolEntry>, pkg: FullName, j: nat) {
    j < |Path(pkg)| && Path(pkg)[j] in flat
  }

  ghost predicate Verdicts(s: State) {
    FilesListed(s) && forall i :: 0 <= i < |s.importers| ==> VerdictOk(s, s.importers[i])
  }

  ghost predicate Inv(s: State) {
    && Verdicts(s)
    && TrieOk(s.nodes) && Symbols.FlatOk(s.nodes, s.flat) && WholeFiles(s)
    && (forall i :: 0 <= i < |s.importers| ==> ImporterOk(s.nodes, s.importers[i]))
  }

  // --- One move ------------------------------------------------------------------------------------

  // The move leaves the table alone, or it is an update that the state allows.
  ghost predicate Updates(t: Nodes, t': Nodes) {
    t' == t || exists u: Update :: Allowed(t, u) && t' == Apply(t, u)
  }

  lemma PathParent(m: Importer)
    requires m.k < |Path(m.file.pkg)| && DottedPackage(m.file)
    ensures Parent(Prefix(m)) == Reached(m) && Prefix(m) != ""
  {
    PrefixParent(m.file.pkg, m.k);
    Symbols.PrefixIsNamed(m.file.pkg, m.k);
  }

  lemma PathEnds(m: Importer)
    requires m.k == |Path(m.file.pkg)|
    ensures Reached(m) == PackageScope(m.file.pkg)
  {
  }

  // Nodes that only gain entries keep every importer's place.
  lemma OthersOk(t: Nodes, t': Nodes, m: Importer)
    requires ImporterOk(t, m) && Extends(t, t')
    ensures ImporterOk(t', m)
  {
    assert NodeExtends(t, t', m.node);
  }

  lemma MissingIsFree(t: Nodes, i: nat, p: FullName)
    requires i < |t| && ChildrenOk(t, i) && LookFor(t, i, p).Missing?
    ensures p !in t[i].symbols
  {
  }

  lemma ChildScope(t: Nodes, i: nat, p: FullName)
    requires i < |t| && ChildrenOk(t, i) && LookFor(t, i, p).Child?
    ensures LookFor(t, i, p).node < |t| && t[LookFor(t, i, p).node].scope == Some(p)
  {
  }

  // The mover, after a look that found the child.
  lemma DescendOk(t: Nodes, m: Importer)
    requires ImporterOk(t, m) && m.k < |Path(m.file.pkg)| && ChildrenOk(t, m.node)
        && LookFor(t, m.node, Prefix(m)).Child?
    ensures ImporterOk(t, m.(node := LookFor(t, m.node, Prefix(m)).node, k := m.k + 1, phase := Looking))
  {
    ChildScope(t, m.node, Prefix(m));
  }

  lemma CreatedOk(t: Nodes, m: Importer)
    requires ImporterOk(t, m) && m.k < |Path(m.file.pkg)|
    ensures ImporterOk(WithPackage(t, m.node, Prefix(m), m.span), m.(node := |t|, k := m.k + 1, phase := Looking))
  {
  }

  lemma LookSelf(s: State, i: nat)
    requires CanMove(s, i) && ImporterOk(s.nodes, s.importers[i]) && ChildrenOk(s.nodes, s.importers[i].node)
    requires s.importers[i].k < |Path(s.importers[i].file.pkg)|
    ensures ImporterOk(s.nodes, LookStep(s, i).importers[i])
  {
    var m := s.importers[i];
    if LookFor(s.nodes, m.node, Prefix(m)).Child? {
      DescendOk(s.nodes, m);
    }
  }

  lemma CreateSelf(s: State, i: nat)
    requires CanMove(s, i) && ImporterOk(s.nodes, s.importers[i]) && ChildrenOk(s.nodes, s.importers[i].node)
    requires s.importers[i].k < |Path(s.importers[i].file.pkg)|
    ensures var s' := CreateStep(s, i); ImporterOk(s'.nodes, s'.importers[i])
  {
    var m := s.importers[i];
    match LookFor(s.nodes, m.node, Prefix(m))
    case Child(_) => DescendOk(s.nodes, m);
    case Missing => CreatedOk(s.nodes, m);
    case Collision =>
  }

  lemma CommitSelf(s: State, i: nat, handlerFailed: bool)
    requires CanMove(s, i) && ImporterOk(s.nodes, s.importers[i]) && s.importers[i].phase.Committing?
    ensures var s' := CommitStep(s, i, handlerFailed); ImporterOk(s'.nodes, s'.importers[i])
  {
    var s', m := CommitStep(s, i, handlerFailed), s.importers[i];
    FinishOk(s.nodes, m, s'.importers[i].phase);
    if s'.nodes != s.nodes {
      CommittedOk(s.nodes, m.node, m.file, s'.importers[i]);
    }
  }

  lemma FinishOk(t: Nodes, m: Importer, phase: Phase)
    requires ImporterOk(t, m) && m.phase.Committing? && phase.Done?
    ensures ImporterOk(t, m.(phase := phase))
  {
  }

  lemma CommittedOk(t: Nodes, i: nat, f: File, m: Importer)
    requires ImporterOk(t, m) && i < |t|
    ensures ImporterOk(WithFile(t, i, f), m)
  {
  }

  lemma StepSelf(s: State, i: nat, handlerFailed: bool)
    requires CanMove(s, i) && ImporterOk(s.nodes, s.importers[i]) && ChildrenOk(s.nodes, s.importers[i].node)
    ensures var s' := Step(s, i, handlerFailed); ImporterOk(s'.nodes, s'.importers[i])
  {
    match s.importers[i].phase
    case Looking =>
      if s.importers[i].k < |Path(s.importers[i].file.pkg)| {
        LookSelf(s, i);
      }
    case Creating => CreateSelf(s, i);
    case Checking =>
    case Committing => CommitSelf(s, i, handlerFailed);
  }

  // What a move does to the table.
  ghost predicate TableOk(s: State) { TrieOk(s.nodes) && Symbols.FlatOk(s.nodes, s.flat) }

  ghost predicate TableMoves(s: State, s': State) {
    TableOk(s') && Extends(s.nodes, s'.nodes) && Updates(s.nodes, s'.nodes)
  }

  lemma CreateTable(s: State, i: nat)
    requires CanMove(s, i) && TableOk(s) && ImporterOk(s.nodes, s.importers[i])
    requires s.importers[i].k < |Path(s.importers[i].file.pkg)|
    ensures TableMoves(s, CreateStep(s, i))
  {
    var m := s.importers[i];
    if LookFor(s.nodes, m.node, Prefix(m)).Missing? {
      PackageTable(s.nodes, s.flat, m);
    }
  }

  lemma PackageTable(t: Nodes, flat: map<FullName, SymbolEntry>, m: Importer)
    requires TrieOk(t) && Symbols.FlatOk(t, flat) && ImporterOk(t, m) && m.k < |Path(m.file.pkg)|
    requires LookFor(t, m.node, Prefix(m)).Missing?
    ensures var t' := WithPackage(t, m.node, Prefix(m), m.span);
            TrieOk(t') && Symbols.FlatOk(t', flat) && Extends(t, t') && Updates(t, t')
  {
    assert NodeOk(t, m.node);
    PathParent(m);
    MissingIsFree(t, m.node, Prefix(m));
    CreateAllowed(t, m);
    Symbols.PackageCreated(t, flat, m.node, Prefix(m), m.span);
  }

  lemma CreateAllowed(t: Nodes, m: Importer)
    requires ImporterOk(t, m) && m.k < |Path(m.file.pkg)| && Prefix(m) !in t[m.node].symbols
    requires Parent(Prefix(m)) == Reached(m) && Prefix(m) != ""
    ensures Updates(t, WithPackage(t, m.node, Prefix(m), m.span))
  {
    var u := AddPackage(m.node, Prefix(m), m.span);
    assert Allowed(t, u) && WithPackage(t, m.node, Prefix(m), m.span) == Apply(t, u);
  }

  lemma CommitTable(s: State, i: nat, handlerFailed: bool)
    requires CanMove(s, i) && TableOk(s) && ImporterOk(s.nodes, s.importers[i]) && s.importers[i].phase.Committing?
    ensures TableMoves(s, CommitStep(s, i, handlerFailed))
  {
    var m := s.importers[i];
    if CommitStep(s, i, handlerFailed).importers[i].phase == Done(Committed) {
      PathEnds(m);
      CommitAllowed(s.nodes, m);
      WithFileOk(s.nodes, m.node, m.file);
      Symbols.FlatWithFile(s.nodes, m.node, m.file, s.flat);
      ApplyExtends(s.nodes, m.node, m.file);
    }
  }

  lemma CommitAllowed(t: Nodes, m: Importer)
    requires ImporterOk(t, m) && Reached(m) == PackageScope(m.file.pkg) && Symbols.ClashFree(t, m.node, m.file)
    ensures Updates(t, WithFile(t, m.node, m.file))
  {
    var u := AddFile(m.node, m.file);
    assert Allowed(t, u) && WithFile(t, m.node, m.file) == Apply(t, u);
  }

  lemma StepTable(s: State, i: nat, handlerFailed: bool)
    requires CanMove(s, i) && TableOk(s) && ImporterOk(s.nodes, s.importers[i])
    ensures TableMoves(s, Step(s, i, handlerFailed))
  {
    match s.importers[i].phase
    case Looking =>
    case Creating => CreateTable(s, i);
    case Checking =>
    case Committing => CommitTable(s, i, handlerFailed);
  }

  // --- Whole files ------------------------------------------------------------------------------------

  // Only the mover changes, and it commits exactly when the flat table grows by its file.
  ghost predicate OnlyMoves(s: State, s': State, i: nat) {
    && i < |s.importers| == |s'.importers|
    && (forall j :: 0 <= j < |s.importers| && j != i ==> s'.importers[j] == s.importers[j])
    && s'.importers[i].file == s.importers[i].file && !s.importers[i].phase.Done?
    && s'.flat == (if s'.importers[i].phase == Done(Committed) then s.flat + Entries(s.importers[i].file.elements)
      else s.flat)
  }

  lemma StepOnlyMoves(s: State, i: nat, handlerFailed: bool)
    requires CanMove(s, i)
    ensures OnlyMoves(s, Step(s, i, handlerFailed), i)
  {
    match s.importers[i].phase
    case Looking =>
    case Creating => CreateOnlyMoves(s, i);
    case Checking =>
    case Committing =>
  }

  lemma CreateOnlyMoves(s: State, i: nat)
    requires CanMove(s, i) && s.importers[i].phase.Creating?
    ensures OnlyMoves(s, CreateStep(s, i), i)
  {
  }

  // A file that is committed has no name that the flat table has.
  lemma StepIsNew(s: State, i: nat, handlerFailed: bool)
    requires CanMove(s, i) && TableOk(s) && ImporterOk(s.nodes, s.importers[i]) && s.importers[i].phase.Committing?
    requires CommitStep(s, i, handlerFailed).importers[i].phase == Done(Committed)
    ensures s.flat.Keys !! Entries(s.importers[i].file.elements).Keys
  {
    var m := s.importers[i];
    PathEnds(m);
    Symbols.FlatWithFile(s.nodes, m.node, m.file, s.flat);
  }

  lemma CommitsInTime(s: State, i: nat, handlerFailed: bool)
    requires CanMove(s, i) && Step(s, i, handlerFailed).importers[i].phase == Done(Committed)
    ensures s.importers[i].phase.Committing?
  {
  }

  lemma StepWholeFiles(s: State, s': State, i: nat)
    requires WholeFiles(s) && OnlyMoves(s, s', i)
    requires s'.importers[i].phase == Done(Committed) ==> s.flat.Keys !! Entries(s.importers[i].file.elements).Keys
    ensures WholeFiles(s')
  {
    if s'.importers[i].phase == Done(Committed) {
      NewWholeFile(s, s', i);
    } else {
      SameWholeFiles(s, s', i);
    }
  }

  lemma SameWholeFiles(s: State, s': State, i: nat)
    requires WholeFiles(s) && OnlyMoves(s, s', i) && s'.importers[i].phase != Done(Committed)
    ensures WholeFiles(s')
  {
    forall j: nat, n
      ensures CommitsAt(s', j, n) <==> CommitsAt(s, j, n)
      ensures EntryAt(s', j, n) <==> EntryAt(s, j, n)
    {
    }
    forall n
      ensures SomeCommits(s', n) <==> SomeCommits(s, n)
    {
    }
  }

  lemma NewWholeFile(s: State, s': State, i: nat)
    requires WholeFiles(s) && OnlyMoves(s, s', i) && s'.importers[i].phase == Done(Committed)
    requires s.flat.Keys !! Entries(s.importers[i].file.elements).Keys
    ensures WholeFiles(s')
  {
    var added := Entries(s.importers[i].file.elements);
    forall j: nat, n
      ensures CommitsAt(s', j, n) <==> CommitsAt(s, j, n) || (j == i && n in added)
    {
    }
    forall j: nat, n | CommitsAt(s', j, n)
      ensures EntryAt(s', j, n)
    {
      assert j != i ==> EntryAt(s, j, n);
    }
    forall n
      ensures n in s'.flat <==> SomeCommits(s', n)
    {
      NewNames(s, s', i, n);
    }
    forall j: nat, k: nat, n | CommitsAt(s', j, n) && CommitsAt(s', k, n)
      ensures j == k
    {
      assert CommitsAt(s, j, n) ==> EntryAt(s, j, n);
      assert CommitsAt(s, k, n) ==> EntryAt(s, k, n);
    }
  }

  lemma NewNames(s: State, s': State, i: nat, n: FullName)
    requires WholeFiles(s) && OnlyMoves(s, s', i) && s'.importers[i].phase == Done(Committed)
    requires forall j: nat, n :: CommitsAt(s', j, n) <==>
        || CommitsAt(s, j, n)
        || (j == i && n in Entries(s.importers[i].file.elements))
    ensures n in s'.flat <==> SomeCommits(s', n)
  {
    if n in s.flat {
      assert SomeCommits(s, n);
      var j: nat :| CommitsAt(s, j, n);
      assert CommitsAt(s', j, n);
    } else if n in s'.flat {
      assert CommitsAt(s', i, n);
    }
    if SomeCommits(s', n) {
      var j: nat :| CommitsAt(s', j, n);
      assert CommitsAt(s, j, n) ==> SomeCommits(s, n);
    }
  }

  // --- Verdicts ---------------------------------------------------------------------------------------

  // What a move does to the lists of files.
  ghost predicate ListsMove(s: State, s': State, i: nat) {
    && i < |s.importers| == |s'.importers|
    && forall c: nat, id :: FileAt(s'.nodes, c, id) <==>
         FileAt(s.nodes, c, id) || CommittedTo(s', i, c, id)
  }

  lemma StepLists(s: State, i: nat, handlerFailed: bool)
    requires CanMove(s, i)
    ensures ListsMove(s, Step(s, i, handlerFailed), i)
  {
    var s', m := Step(s, i, handlerFailed), s.importers[i];
    match m.phase
    case Looking =>
    case Creating =>
      if LookFor(s.nodes, m.node, Prefix(m)).Missing? {
        PackageLists(s.nodes, m.node, Prefix(m), m.span);
      }
    case Checking =>
    case Committing =>
      if s'.importers[i].phase == Done(Committed) {
        FileLists(s.nodes, m.node, m.file);
      }
  }

  lemma PackageLists(t: Nodes, i: nat, p: FullName, span: Span)
    requires i < |t|
    ensures forall c: nat, id :: FileAt(WithPackage(t, i, p, span), c, id) <==> FileAt(t, c, id)
  {
  }

  lemma FileLists(t: Nodes, i: nat, f: File)
    requires i < |t|
    ensures forall c: nat, id :: FileAt(WithFile(t, i, f), c, id) <==> FileAt(t, c, id) || (c == i && id == f.id)
  {
  }

  lemma StepFilesListed(s: State, s': State, i: nat)
    requires FilesListed(s) && OnlyMoves(s, s', i) && ListsMove(s, s', i)
    ensures FilesListed(s')
  {
    forall c: nat, id | FileAt(s'.nodes, c, id)
      ensures SomeCommittedTo(s', c, id)
    {
      if FileAt(s.nodes, c, id) {
        CommitStays(s, s', i, c, id);
      }
    }
  }

  lemma CommitStays(s: State, s': State, i: nat, c: nat, id: int)
    requires OnlyMoves(s, s', i) && SomeCommittedTo(s, c, id)
    ensures SomeCommittedTo(s', c, id)
  {
    var j: nat :| CommittedTo(s, j, c, id);
    assert CommittedTo(s', j, c, id);
  }

  // A verdict stays right while others move on.
  lemma VerdictStays(s: State, s': State, i: nat, m: Importer)
    requires VerdictOk(s, m) && OnlyMoves(s, s', i) && ListsMove(s, s', i) && Extends(s.nodes, s'.nodes)
    ensures VerdictOk(s', m)
  {
    if m.phase == Done(AlreadyThere) {
      CommitStays(s, s', i, m.node, m.file.id);
    } else if m.phase == Done(Refused(PackageTaken)) {
      var j: nat :| TakenAt(s.flat, m.file.pkg, j);
      assert TakenAt(s'.flat, m.file.pkg, j);
    } else if m.phase == Done(Refused(NameTaken)) {
      ClashStays(s.nodes, s'.nodes, m.node, m.file);
    }
  }

  lemma ClashStays(t: Nodes, t': Nodes, c: nat, f: File)
    requires c < |t| && Extends(t, t') && !Symbols.ClashFree(t, c, f)
    ensures c < |t'| && !Symbols.ClashFree(t', c, f)
  {
    assert NodeExtends(t, t', c);
  }

  // The verdict of the mover.
  lemma StepVerdict(s: State, i: nat, handlerFailed: bool)
    requires CanMove(s, i) && TableOk(s) && ImporterOk(s.nodes, s.importers[i])
    requires FilesListed(Step(s, i, handlerFailed)) && ListsMove(s, Step(s, i, handlerFailed), i)
    ensures var s' := Step(s, i, handlerFailed); VerdictOk(s', s'.importers[i])
  {
    var m := s.importers[i];
    match m.phase
    case Looking =>
      if m.k < |Path(m.file.pkg)| && LookFor(s.nodes, m.node, Prefix(m)).Collision? {
        CollisionIsTaken(s, m);
      }
    case Creating =>
      if LookFor(s.nodes, m.node, Prefix(m)).Collision? {
        CollisionIsTaken(s, m);
      }
    case Checking => CheckVerdict(s, i, handlerFailed);
    case Committing => CommitVerdict(s, i, handlerFailed);
  }

  lemma CheckVerdict(s: State, i: nat, handlerFailed: bool)
    requires CanMove(s, i) && ImporterOk(s.nodes, s.importers[i]) && s.importers[i].phase.Checking?
    requires FilesListed(Step(s, i, handlerFailed))
    ensures var s' := Step(s, i, handlerFailed); VerdictOk(s', s'.importers[i])
  {
    var m := s.importers[i];
    assert m.file.id in s.nodes[m.node].files ==> FileAt(Step(s, i, handlerFailed).nodes, m.node, m.file.id);
  }

  lemma CommitVerdict(s: State, i: nat, handlerFailed: bool)
    requires CanMove(s, i) && ImporterOk(s.nodes, s.importers[i]) && s.importers[i].phase.Committing?
    requires FilesListed(CommitStep(s, i, handlerFailed)) && ListsMove(s, CommitStep(s, i, handlerFailed), i)
    ensures var s' := CommitStep(s, i, handlerFailed); VerdictOk(s', s'.importers[i])
  {
    var s', m := CommitStep(s, i, handlerFailed), s.importers[i];
    assert m.file.id in s.nodes[m.node].files ==> FileAt(s'.nodes, m.node, m.file.id);
    assert s'.importers[i].phase == Done(Committed) ==> CommittedTo(s', i, m.node, m.file.id);
  }

  lemma CollisionIsTaken(s: State, m: Importer)
    requires TableOk(s) && m.node < |s.nodes| && m.k < |Path(m.file.pkg)|
    requires LookFor(s.nodes, m.node, Prefix(m)).Collision?
    ensures PrefixTaken(s.flat, m.file.pkg)
  {
    Symbols.TakenIsFlat(s.nodes, s.flat, m.node, Prefix(m));
    assert TakenAt(s.flat, m.file.pkg, m.k);
  }

  lemma StepVerdicts(s: State, i: nat, handlerFailed: bool)
    requires CanMove(s, i) && Verdicts(s) && TableOk(s) && ImporterOk(s.nodes, s.importers[i])
    requires Extends(s.nodes, Step(s, i, handlerFailed).nodes)
    ensures Verdicts(Step(s, i, handlerFailed))
  {
    var s' := Step(s, i, handlerFailed);
    StepOnlyMoves(s, i, handlerFailed);
    StepLists(s, i, handlerFailed);
    StepFilesListed(s, s', i);
    forall j | 0 <= j < |s'.importers|
      ensures VerdictOk(s', s'.importers[j])
    {
      if j == i {
        StepVerdict(s, i, handlerFailed);
      } else {
        VerdictStays(s, s', i, s.importers[j]);
      }
    }
  }

  lemma StepInv(s: State, i: nat, handlerFailed: bool)
    requires Inv(s) && CanMove(s, i)
    ensures Inv(Step(s, i, handlerFailed))
    ensures Updates(s.nodes, Step(s, i, handlerFailed).nodes) && Extends(s.nodes, Step(s, i, handlerFailed).nodes)
  {
    var s' := Step(s, i, handlerFailed);
    assert ImporterOk(s.nodes, s.importers[i]) && NodeOk(s.nodes, s.importers[i].node);
    StepTable(s, i, handlerFailed);
    StepSelf(s, i, handlerFailed);
    StepVerdicts(s, i, handlerFailed);
    StepOnlyMoves(s, i, handlerFailed);
    if s'.importers[i].phase == Done(Committed) {
      CommitsInTime(s, i, handlerFailed);
      StepIsNew(s, i, handlerFailed);
    }
    StepWholeFiles(s, s', i);
    forall j | 0 <= j < |s'.importers|
      ensures ImporterOk(s'.nodes, s'.importers[j])
    {
      if j != i {
        OthersOk(s.nodes, s'.nodes, s.importers[j]);
      }
    }
  }

  // --- Runs -------------------------------------------------------------------------------------------

  datatype Request = Request(file: File, span: Span, direct: bool)

  function Init(rs: seq<Request>): State {
    State(EMPTY,
      seq(|rs|, i requires 0 <= i < |rs| => Importer(rs[i].file, rs[i].span, rs[i].direct, 0, 0, Looking)), map[])
  }

  function Exec(s: State, moves: seq<Move>): Option<State>
    decreases |moves|
  {
    if moves == [] then Some(s)
    else if !CanMove(s, moves[0].who) then None
    else Exec(Step(s, moves[0].who, moves[0].handlerFailed), moves[1..])
  }

  ghost predicate Importable(rs: seq<Request>) {
    forall i :: 0 <= i < |rs| ==> ParentClosed(rs[i].file) && DottedPackage(rs[i].file)
  }

  lemma InitInv(rs: seq<Request>)
    requires Importable(rs)
    ensures Inv(Init(rs))
  {
  }

  lemma {:induction false} ExecInv(s: State, moves: seq<Move>)
    requires Inv(s) && Exec(s, moves).Some?
    ensures Inv(Exec(s, moves).value)
    decreases |moves|
  {
    if moves != [] {
      StepInv(s, moves[0].who, moves[0].handlerFailed);
      ExecInv(Step(s, moves[0].who, moves[0].handlerFailed), moves[1..]);
    }
  }

  /** After any interleaving of any number of imports: the trie is well-formed and no name is in
      two nodes; it holds exactly the flat table; that table is made of whole files, those whose
      import committed, without a common name; every importer stands at the node of the prefix it
      has reached; and every verdict has its reason. */
  lemma ImportsInterleave(rs: seq<Request>, moves: seq<Move>)
    requires Importable(rs) && Exec(Init(rs), moves).Some?
    ensures var s := Exec(Init(rs), moves).value;
            && TrieOk(s.nodes) && Symbols.FlatOk(s.nodes, s.flat) && WholeFiles(s) && Verdicts(s)
            && (forall i :: 0 <= i < |s.importers| ==> ImporterOk(s.nodes, s.importers[i]))
            && (forall n, i, j :: 0 <= i < j < |s.nodes| && n in s.nodes[i].symbols ==> n !in s.nodes[j].symbols)
  {
    InitInv(rs);
    ExecInv(Init(rs), moves);
    var s := Exec(Init(rs), moves).value;
    forall n, i, j | 0 <= i < j < |s.nodes| && n in s.nodes[i].symbols
      ensures n !in s.nodes[j].symbols
    {
      if n in s.nodes[j].symbols {
        NamesAreUnique(s.nodes, n, i, j);
      }
    }
  }

  // An importer that is not done can always move, and needs at most so many more moves.
  function MovesLeft(m: Importer): int {
    match m.phase
    case Looking => 3 + 2 * (|Path(m.file.pkg)| - m.k)
    case Creating => 2 + 2 * (|Path(m.file.pkg)| - m.k)
    case Checking => 2
    case Committing => 1
    case Done(_) => 0
  }

  /** No import waits for another one, and each ends after a number of moves of its own that
      depends only on its package. */
  lemma ImportsFinish(s: State, i: nat, handlerFailed: bool)
    requires Inv(s) && i < |s.importers| && !s.importers[i].phase.Done?
    ensures CanMove(s, i)
    ensures 0 <= MovesLeft(Step(s, i, handlerFailed).importers[i]) < MovesLeft(s.importers[i])
  {
    assert ImporterOk(s.nodes, s.importers[i]);
    MovesDrop(s, i, handlerFailed);
  }

  lemma LookDrops(s: State, i: nat)
    requires CanMove(s, i) && s.importers[i].k < |Path(s.importers[i].file.pkg)| && s.importers[i].phase.Looking?
    ensures 0 <= MovesLeft(LookStep(s, i).importers[i]) < MovesLeft(s.importers[i])
  {
    var m := s.importers[i];
    var look := LookFor(s.nodes, m.node, Prefix(m));
  }

  lemma CreateDrops(s: State, i: nat)
    requires CanMove(s, i) && s.importers[i].phase.Creating?
    ensures 0 <= MovesLeft(CreateStep(s, i).importers[i]) < MovesLeft(s.importers[i])
  {
    var m := s.importers[i];
    var look := LookFor(s.nodes, m.node, Prefix(m));
  }

  lemma CommitDrops(s: State, i: nat, handlerFailed: bool)
    requires CanMove(s, i) && s.importers[i].phase.Committing?
    ensures MovesLeft(CommitStep(s, i, handlerFailed).importers[i]) == 0
  {
  }

  lemma MovesDrop(s: State, i: nat, handlerFailed: bool)
    requires CanMove(s, i)
    ensures 0 <= MovesLeft(Step(s, i, handlerFailed).importers[i]) < MovesLeft(s.importers[i])
  {
    match s.importers[i].phase
    case Looking =>
      if s.importers[i].k < |Path(s.importers[i].file.pkg)| {
        LookDrops(s, i);
      }
    case Creating => CreateDrops(s, i);
    case Checking =>
    case Committing => CommitDrops(s, i, handlerFailed);
  }

  // --- The handler ------------------------------------------------------------------------------------

  ghost predicate BlamesHandler(s: State, i: nat) {
    i < |s.importers| && s.importers[i].phase == Done(Refused(HandlerFailed))
  }

  lemma StepBlames(s: State, i: nat, handlerFailed: bool, j: nat)
    requires CanMove(s, i) && BlamesHandler(Step(s, i, handlerFailed), j)
    ensures BlamesHandler(s, j) || (i == j && handlerFailed)
  {
    StepOnlyMoves(s, i, handlerFailed);
    match s.importers[i].phase
    case Looking =>
    case Creating =>
    case Checking =>
    case Committing =>
  }

  /** An import that is refused because of the handler met an error of the handler in a move of
      its own. */
  lemma {:induction false} HandlerIsToBlame(s: State, moves: seq<Move>, i: nat)
    requires Exec(s, moves).Some? && !BlamesHandler(s, i) && BlamesHandler(Exec(s, moves).value, i)
    ensures Move(i, true) in moves
    decreases |moves|
  {
    if moves != [] {
      var s' := Step(s, moves[0].who, moves[0].handlerFailed);
      if BlamesHandler(s', i) {
        StepBlames(s, moves[0].who, moves[0].handlerFailed, i);
      } else {
        HandlerIsToBlame(s', moves[1..], i);
      }
    }
  }

  // --- An importer on its own ------------------------------------------------------------------------------

  ghost predicate NodeFor(t: Nodes, c: nat, pkg: FullName) { c < |t| && t[c].scope == PackageScope(pkg) }

  // A file compiled from source may not declare a name twice.
  ghost predicate DistinctNames(f: File) {
    f.fromSource ==> forall j, k :: 0 <= j < k < |f.elements| ==> f.elements[j].name != f.elements[k].name
  }

  // Nothing in the node of its package speaks against the file.
  ghost predicate Welcome(t: Nodes, c: nat, f: File) {
    NodeFor(t, c, f.pkg) ==> f.id !in t[c].files && Symbols.ClashFree(t, c, f)
  }

  /** The file is new, its packages can be packages, and its names are free. */
  ghost predicate Free(s: State, f: File) {
    !PrefixTaken(s.flat, f.pkg) && DistinctNames(f) && forall c: nat :: Welcome(s.nodes, c, f)
  }

  // A package on the way is not the one that the importer is on its way to.
  lemma NotThereYet(t: Nodes, m: Importer)
    requires ImporterOk(t, m) && m.k < |Path(m.file.pkg)|
    ensures !NodeFor(t, m.node, m.file.pkg)
  {
    if m.k > 0 {
      PrefixLengths(m.file.pkg, m.k - 1);
    }
  }

  lemma CreateWelcome(t: Nodes, m: Importer, c: nat)
    requires ImporterOk(t, m) && m.k < |Path(m.file.pkg)| && DistinctNames(m.file)
    ensures var t' := WithPackage(t, m.node, Prefix(m), m.span);
            Welcome(t', c, m.file) <==> Welcome(t, c, m.file)
  {
    NotThereYet(t, m);
  }

  lemma CreateKeepsFree(s: State, i: nat)
    requires CanMove(s, i) && ImporterOk(s.nodes, s.importers[i]) && s.importers[i].phase.Creating?
    requires !CreateStep(s, i).importers[i].phase.Done?
    ensures Free(CreateStep(s, i), s.importers[i].file) <==> Free(s, s.importers[i].file)
  {
    var m := s.importers[i];
    if LookFor(s.nodes, m.node, Prefix(m)).Missing? && DistinctNames(m.file) {
      forall c: nat
        ensures Welcome(CreateStep(s, i).nodes, c, m.file) <==> Welcome(s.nodes, c, m.file)
      {
        CreateWelcome(s.nodes, m, c);
      }
    }
  }

  lemma StepKeepsFree(s: State, i: nat)
    requires CanMove(s, i) && ImporterOk(s.nodes, s.importers[i]) && !Step(s, i, false).importers[i].phase.Done?
    ensures Free(Step(s, i, false), s.importers[i].file) <==> Free(s, s.importers[i].file)
  {
    match s.importers[i].phase
    case Looking =>
    case Creating => CreateKeepsFree(s, i);
    case Checking =>
    case Committing =>
  }

  // Packages around a package that has a node have nodes too.
  lemma {:induction false} AroundIsFree(t: Nodes, flat: map<FullName, SymbolEntry>, c: nat, p: FullName, j: nat)
    requires TrieOk(t) && Symbols.FlatOk(t, flat) && c < |t| && t[c].scope == Some(p) && j < |Prefixes(p)|
    ensures Prefixes(p)[j] !in flat
    decreases |p|
  {
    if j == |Prefixes(p)| - 1 {
      Symbols.PackageIsNotFlat(t, flat, c, p);
    } else {
      assert NodeOk(t, c);
      AroundIsFree(t, flat, t[c].up, Parent(p).value, j);
    }
  }

  lemma ArrivedIsFree(s: State, m: Importer)
    requires TableOk(s) && ImporterOk(s.nodes, m) && m.k == |Path(m.file.pkg)|
    ensures !PrefixTaken(s.flat, m.file.pkg)
  {
    forall j: nat
      ensures !TakenAt(s.flat, m.file.pkg, j)
    {
      if j < |Path(m.file.pkg)| {
        AroundIsFree(s.nodes, s.flat, m.node, m.file.pkg, j);
      }
    }
  }

  // At the end of its way an importer stands at the one node that matters.
  lemma ArrivedWelcome(s: State, m: Importer, c: nat)
    requires TableOk(s) && ImporterOk(s.nodes, m) && m.k == |Path(m.file.pkg)|
    ensures NodeFor(s.nodes, m.node, m.file.pkg)
    ensures Welcome(s.nodes, m.node, m.file) ==> Welcome(s.nodes, c, m.file)
  {
    PathEnds(m);
    if NodeFor(s.nodes, c, m.file.pkg) {
      SameScope(s.nodes, c, m.node);
    }
  }

  lemma FreeIffWelcome(s: State, m: Importer)
    requires TableOk(s) && ImporterOk(s.nodes, m) && m.k == |Path(m.file.pkg)|
    ensures Free(s, m.file) <==> m.file.id !in s.nodes[m.node].files && Symbols.ClashFree(s.nodes, m.node, m.file)
  {
    ArrivedIsFree(s, m);
    ArrivedWelcome(s, m, m.node);
    if Welcome(s.nodes, m.node, m.file) {
      forall c: nat
        ensures Welcome(s.nodes, c, m.file)
      {
        ArrivedWelcome(s, m, c);
      }
    }
  }

  lemma StepDecides(s: State, i: nat)
    requires CanMove(s, i) && TableOk(s) && ImporterOk(s.nodes, s.importers[i])
    requires Step(s, i, false).importers[i].phase.Done?
    ensures Step(s, i, false).importers[i].phase == Done(Committed) <==> Free(s, s.importers[i].file)
  {
    var m := s.importers[i];
    match m.phase
    case Looking => CollisionIsTaken(s, m);
    case Creating => CollisionIsTaken(s, m);
    case Checking => FreeIffWelcome(s, m);
    case Committing => FreeIffWelcome(s, m);
  }

  // `n` moves of importer `i` alone, whose handler has no error.
  function Alone(s: State, i: nat, n: nat): Option<State>
    decreases n
  {
    if n == 0 then Some(s) else if !CanMove(s, i) then None else Alone(Step(s, i, false), i, n - 1)
  }

  /** An importer that is left alone comes to its end, and it commits its file if and only if the
      file is new, its packages can be packages, and its names are free. */
  lemma {:induction false} AloneCommitsIffFree(s: State, i: nat) returns (n: nat)
    requires Inv(s) && i < |s.importers| && !s.importers[i].phase.Done?
    ensures Alone(s, i, n).Some? && i < |Alone(s, i, n).value.importers|
    ensures var p := Alone(s, i, n).value.importers[i].phase;
            p.Done? && (p == Done(Committed) <==> Free(s, s.importers[i].file))
    decreases MovesLeft(s.importers[i])
  {
    var s' := Step(s, i, false);
    assert ImporterOk(s.nodes, s.importers[i]);
    ImportsFinish(s, i, false);
    StepOnlyMoves(s, i, false);
    if s'.importers[i].phase.Done? {
      StepDecides(s, i);
      assert Alone(s', i, 0) == Some(s');
      return 1;
    }
    StepInv(s, i, false);
    StepKeepsFree(s, i);
    n := AloneCommitsIffFree(s', i);
    n := n + 1;
  }
}
