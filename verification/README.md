# A verified model of protocompile

protocompile is a compiler for Protocol Buffers: it parses source files, compiles them
concurrently, links them against a shared symbol table, and produces descriptors together with
source info. This project models its most intricate parts in Dafny and proves what they promise,
for all inputs, all interleavings and all reachable states.

`dafny verify dfyconfig.toml` checks everything.

## What is modelled

| part of the system | modules |
|---|---|
| the concurrent executor: tasks, semaphore, published import lists, cycle search | `Executor`, `ExecutorSafety`, `ExecutorTheorems`, `ExecutorTermination`, `ExecutorOverride`, `ExecutorRuns`, `ExecutorOutcome`, `ExecutorSchedule`, `CycleSearch`, `SearchSteps` |
| the symbol table, a package trie that stands for one flat namespace, filled by concurrent importers | `Names`, `Trie`, `Symbols`, `Importers` |
| reference resolution: the walk with its scope stack, package prefixes, visible files | `Resolution`, `References`, `ScopeWalk`, `Visibility`, `Names` |
| descriptors and source info, two traversals that must agree on every index | `Paths`, `Builder`, `SourceInfo`, `SyntheticOneofs`, `Membership` |
| lexing, tables of lines, items and comments, comment roles | `Lexemes`, `SourceLines`, `LexerBook`, `Lexer`, `FileInfo`, `CommentRoles`, `CommentLaws` |
| range checks of messages and enums | `Ranges` |
| byte escapes, their printer and two decoders | `Utf8`, `Utf8Laws`, `Escape`, `StringLiteral`, `LiteralLaws`, `LiteralTexts` |
| removal of source-retention options | `Retention` |
| the exact-fit pool of descriptors | `Pool` |

`Common` holds a small vocabulary, and `Slices` has Go's append and clone on shared storage.

Modelling decisions that a reader should know:

- The executor is a transition system. A run is any sequence of atomic moves of tasks, so a
  statement about reachable states covers every interleaving. What the resolver and the parser
  answer is a parameter (`World`), and whether linking succeeds is chosen move by move.
  `clock`, `stamp` and the order of completions are history and influence nothing.
- An import cycle that runs only through explicit imports is always found. descriptor.proto, when
  the resolver overrides it, is waited for by every parsed file without a cycle check
  (compiler.go:477-515), and then a run can get stuck. `ExecutorOverride.StuckIffRing` says for
  exactly which files this can happen, and `ExecutorOverride.TwoFilesGetStuck` gives the smallest
  case: an overriding descriptor.proto that imports one file without imports.
- The same dependency is on the lists that the cycle search reads, so that a file can fail with a
  cycle that no imports close. `ExecutorTheorems.FalseCycle` says from which files such a cycle
  can be closed. For all other files the outcome depends on the files and on linking alone
  (`ExecutorTheorems.OutcomeIsDeterminate`), and for none of these (`ExecutorOutcome.FilesDecideIff`):
  each of them fails in some run, and completes in another one exactly if it does not import
  descriptor.proto (`ExecutorSchedule.ScheduleDecides`). An overriding descriptor.proto without
  imports is harmless.
- Code that updates objects is modelled by classes and methods (`CycleSearch.Search`,
  `Symbols.Symbols`, `Names.NameEnumerator`, `SourceInfo.SourceCodeInfo`, `ScopeWalk.Walker`,
  `FileInfo.FileInfo`, `Lexer.Lexer`, `Retention.SourcePathTrie`, `Pool.AllocPool`), and each method is
  proved against a function or predicate about which the laws are proved.
- Importers of the symbol table are a transition system too: any number of files, each at its
  own point of the double-checked descent, in any order.
- The lexer's tables and counters form a value, the `Book`. Each method is proved to change it as
  one of four moves does (a space, a comment, a token, the end of the file), and a run is a chain
  of such moves, about which the laws are proved.
- Descriptors that source-retention stripping may share or copy are references into a `Store`, so
  that sharing, copying and leaving the input alone are statements about references.
- Paths of source info are slices over shared arrays, as in the source, so that a path that
  another append overwrites would show as a wrong location.
- The error handler is the number of errors reported and an arbitrary answer to each report.
- Bytes are a type of their own; integers that the source keeps in fixed width but never lets
  overflow are unbounded.

## Model

| member | source | states |
|---|---|---|
| `ExecutorSafety.StepInv` | compiler.go:269-302 | every action of every task keeps the global invariant: permits balance, publication stamps are distinct, published lists are the file's imports, a search covers all that was published before it, every verdict has its reason |
| `ExecutorSafety.ReachableInv` | compiler.go:356-409 | the invariant holds in every state that any interleaving can reach, error returns included |
| `ExecutorSafety.StepPermits` | compiler.go:404-409 | each step takes a permit from the semaphore exactly when its task begins to hold one and returns it exactly when the task stops holding it; the permits of other tasks stay |
| `ExecutorSafety.SequenceAt` | compiler.go:528-551 | the sequence handed down the recursion is the task followed by the results on the search stack |
| `ExecutorTheorems.PermitsConserved` | compiler.go:482-525 | available plus held permits equal the configured total; waiting and returned tasks hold none |
| `ExecutorTheorems.WaitsAreWellFounded` | compiler.go:456-475 | any group of waiting tasks has a member that imports no other member: the last one to publish saw the lists of all others |
| `ExecutorTheorems.NoDeadlock` | compiler.go:456-523 | with at least one permit, and unless an overriding descriptor.proto has imports, some task can move while any task is unfinished |
| `ExecutorTheorems.LinksAfterTransitiveImports` | compiler.go:485-525 | a file is linked only after everything it imports, directly or through others, has completed successfully |
| `ExecutorTheorems.CompletedAlong` | compiler.go:485-525 | along every chain of imports from a completed file, each file completed before its importer |
| `ExecutorTheorems.CompletedHasNoCycle` | compiler.go:460-475 | a file from which an import cycle can be reached never completes |
| `ExecutorTheorems.FailureIsTraced` | compiler.go:489-499 | whatever the files are: from every failed file an import walk through failed files alone leads to a file that cannot be found, could not be linked or has reported a closed walk of published lists, or closes an import cycle |
| `ExecutorTheorems.FailureHasCause` | compiler.go:489-499 | if no false cycle can be closed from the failed file, the walk leads to a file that cannot be found or could not be linked, or closes an import cycle |
| `ExecutorTheorems.OutcomeIsDeterminate` | compiler.go:413-526 | when all tasks have returned, a file from which no false cycle can be closed has completed if and only if all it reaches can be found, no import cycle can be reached, and linking failed for nothing it reaches, whatever the schedule was |
| `ExecutorTheorems.HarmlessDescriptor` | compiler.go:433-452 | without an overriding descriptor.proto, or if that has no imports, there are no false cycles |
| `ExecutorTermination.StepLowersMeasure` | compiler.go:413-553 | every step of every task lowers one measure of the whole state |
| `ExecutorTermination.AllRunsAreFinite` | compiler.go:413-553 | the length of all runs from given roots is bounded, searches included |
| `ExecutorTermination.MaximalRunsFinish` | compiler.go:356-402 | a run that cannot go on has brought every task to its end, and only such a run |
| `ExecutorOverride.StuckHasRing` | compiler.go:447-457 | a run that is stuck has a ring of files from descriptor.proto back to it that is closed by the implicit dependency alone |
| `ExecutorOverride.RingGetsStuck` | compiler.go:477-515 | such a ring does get stuck: the run that compiles its files one after the other is never seen by any check |
| `ExecutorOverride.StuckIffRing` | compiler.go:433-515 | for any number of permits, some run gets stuck if and only if the files hold such a ring |
| `ExecutorOverride.TwoFilesGetStuck` | compiler.go:477-515 | an overriding descriptor.proto that imports a file without imports can hang the compiler |
| `ExecutorOverride.NoBackEdge` | compiler.go:528-553 | along a path of waiting tasks no file imports an earlier one: explicit cycles never become waits |
| `ExecutorRuns.RunTask` | compiler.go:413-526 | a task that is left alone runs until it waits or has returned; with a list to wait for, it reports a cycle exactly when one of the published lists can be reached through its imports |
| `ExecutorRuns.ImportLoop` | compiler.go:460-475 | the whole import loop of such a task ends with an error exactly when there is such a cycle |
| `ExecutorOutcome.ClosedWalkFails` | compiler.go:477-553 | whatever the files are: if the lists that tasks publish close a walk from a file, there is a run that ends, with all tasks returned, in which that file fails |
| `ExecutorOutcome.FilesDecideIff` | compiler.go:413-553 | in all runs that end without a link failure the file completes exactly if it is sound, if and only if no false cycle can be closed from it |
| `ExecutorSchedule.SomeRunCompletes` | compiler.go:477-515 | a sound file with a false cycle completes in some run if it does not import descriptor.proto: descriptor.proto fails first, and then the imports complete one after the other |
| `ExecutorSchedule.DescriptorNeverCompletes` | compiler.go:485-515 | an overriding descriptor.proto that imports a file to be compiled never completes, since each of the two would have to complete before the other |
| `ExecutorSchedule.ScheduleDecides` | compiler.go:413-553 | a sound file with a false cycle fails in some run, and completes in another one of the same roots if and only if it does not import descriptor.proto |
| `ExecutorSchedule.SoundDescriptorFails` | compiler.go:477-515 | the smallest case: an overriding descriptor.proto that imports one file without imports is sound, fails in some run and completes in none |
| `ExecutorSchedule.ThirdFileDepends` | compiler.go:477-515 | with a third file that imports the second one: it is sound, and fails or completes as the schedule has it |
| `CycleSearch.Search.Check` | compiler.go:528-553 | the loop with its shared set computes answer and set of the recursive definition; it ends because the set grows within the results |
| `CycleSearch.VisitMeans` | compiler.go:528-553 | what that search means: an error is a real closed path from the start of the sequence, and without one everything reachable is finished in an order that excludes cycles |
| `CycleSearch.CheckImports` | compiler.go:460-475 | the search over the explicit imports of a task reports an error if and only if a cycle of published lists can be reached through one of them, and what it reports is one |
| `CycleSearch.NoCycleLeft` | compiler.go:528-553 | when all imports are finished no cycle can be reached through them, although results already checked are skipped |
| `CycleSearch.Search.CheckImport` | compiler.go:460-475 | one turn of the import loop: a self-import is a cycle, a missing result is created, and what the search reports is a cycle of the published lists |
| `SearchSteps.VisitAlone` | compiler.go:528-553 | a task of the executor that nobody interrupts gets from the entry of the search to its return, with the answer and the checked set of the recursive search: both models are of one function |
| `Names.PrefixParent` | linker/symbols.go:624-636 | each dot-prefix is enclosed by the one before it |
| `Names.NameEnumerator.Next` | linker/symbols.go:624-636 | the enumerator yields the dot-prefixes of the name, shortest first, each once |
| `Names.CreatePrefixList` | internal/util.go:106-133 | the array filled from its end holds the dot-prefixes, longest first, and then the empty prefix |
| `Trie.NamesAreUnique` | linker/symbols.go:457-508 | in a well-formed trie every name is stored in at most one node, although each node compares only with its own entries |
| `Trie.PackageIsNoElement` | linker/symbols.go:195-231 | a package that has a node is not an element in any node |
| `Trie.WithPackageOk` | linker/symbols.go:195-231 | creating a package keeps the trie well-formed: children are exactly the entries marked as packages |
| `Trie.WithFileOk` | linker/symbols.go:404-423 | committing a file whose names are free in its own node keeps it well-formed |
| `Trie.EntriesLast` | linker/symbols.go:404-423 | a name is entered with the span and the kind of the last element that has it |
| `Importers.StepInv` | linker/symbols.go:172-231 | whatever one importer does, looking under the read lock, looking again and creating under the write lock, or checking and committing its names: the trie stays well-formed, the change is one that the node allows at that moment, nothing is overwritten, every verdict keeps its reason, and every importer still stands at the node of the prefix it has reached |
| `Importers.ImportsInterleave` | linker/symbols.go:148-231 | after any interleaving of any number of imports the trie is well-formed and stands for the flat table, no name is in two nodes, and the table is made of whole files: all names of each committed file, none of any other, and no two committed files share a name; an import that found its file there was preceded by another that committed it to the node of its package, and one that was refused has a prefix that is an element, a name that clashes, or an error of the handler |
| `Importers.ImportsFinish` | linker/symbols.go:172-231 | no importer ever waits for another, and each is done after a number of its own moves that is bounded by its package |
| `Importers.AloneCommitsIffFree` | linker/symbols.go:106-124 | from every reachable state, an importer left alone comes to its end, and it commits its file if and only if the file is new, no prefix of its package is an element, and its names are free |
| `Importers.HandlerIsToBlame` | linker/symbols.go:148-170 | an import is refused for the handler's sake only if the handler had an error in one of that importer's own moves |
| `Trie.ElementIsReached` | linker/symbols.go:233-256 | walking down along a name stops at the node that holds the element of that name |
| `Trie.PackageIsReached` | linker/symbols.go:233-256 | walking down along a package name does not stop before its node |
| `Trie.FoundIsElement` | linker/symbols.go:602-609 | what the last node has for the name is an element, never a package |
| `Symbols.FlatWithFile` | linker/symbols.go:404-423 | names that are free in the package's node are new to the whole table |
| `Symbols.Symbols.ImportPackage` | linker/symbols.go:195-231 | returns the child node, found at the first look or by the locked section; fails with one report exactly when an element has the name |
| `Symbols.Symbols.CreatePackage` | linker/symbols.go:205-231 | the locked section looks again, creates the package if it is still missing, and fails with one report exactly when an element has the name |
| `Symbols.Symbols.ImportPackages` | linker/symbols.go:172-193 | returns the node of the package, or reports one collision, which it does exactly when one of the dot-prefixes of the package is an element; elements are untouched and no entry is overwritten |
| `Symbols.Symbols.ImportFile` | linker/symbols.go:148-170 | adds all element names of the file or none: all exactly when the file is new, nothing was reported and no name clashes; existing entries stay |
| `Symbols.Symbols.GetPackage` | linker/symbols.go:233-256 | with `exact` finds a node if and only if the package has one; otherwise stops at the deepest package on the way |
| `Symbols.Symbols.Lookup` | linker/symbols.go:602-609 | answers exactly as the flat table of elements: none for packages and unknown names |
| `Symbols.CommittedSpan` | linker/symbols.go:602-609 | after a commit the flat table, and so Lookup, has the span of the file's last element of that name |
| `Visibility.SearchIsVisibility` | linker/resolve.go:52-91 | a match is found if and only if the root, an import of it, or a transitive public import of these matches |
| `Visibility.SearchIsFirst` | linker/resolve.go:52-91 | the match returned is the first in import pre-order |
| `Visibility.ResolveInFile` | linker/resolve.go:52-91 | the recursion over one shared append buffer returns the callback's answer, a find or an error, at the first file where it is not "not found"; it ends on cyclic imports, and its part of the buffer is always the path of the recursion |
| `Slices.Append` | linker/resolve.go:59-59 | append in place or into a larger copy leaves the shorter view unchanged |
| `Resolution.ResolveInScopes` | linker/resolve.go:629-663 | the loop over the scope stack computes the recursive definition, best guess included |
| `Resolution.ResolveIsDeclarative` | linker/resolve.go:629-713 | trying scopes and then packages is trying all dot-prefixes of the enclosing element in order |
| `Resolution.PrefixesDecide` | linker/resolve.go:629-713 | nothing is found exactly when no prefix has a hit; otherwise the answer is that of the deciding prefix: the first one whose hit is of a wanted kind, where an unqualified reference to a type passes over other hits inside the file but not over the first hit at package level, or the first hit if none is wanted |
| `Resolution.QualifiedCandidate` | linker/resolve.go:715-733 | a prefix has a candidate for a qualified name exactly when the first component is an aggregate there, and then it is what the whole name means, or a sentinel |
| `Resolution.QualifiedStopsAtAggregate` | linker/resolve.go:715-733 | a qualified name is decided at the first prefix under which its first component is an aggregate, whether the rest is found there or not |
| `Resolution.RewritingKeepsReferent` | linker/resolve.go:305-452 | the leading-dot form of a resolved reference resolves to the same descriptor from every scope |
| `References.CandidateMeans` | linker/resolve.go:675-733 | what every prefix gives, the empty one included, in terms of declarations alone: prefixes inside the file ask that file only, the package and all around it ask every visible file, the first file in import order that knows the name answers, and a qualified name needs an aggregate as its head |
| `References.OrderIsVisible` | linker/resolve.go:52-91 | the files asked in import order are exactly the visible ones |
| `References.VisibleMeans` | linker/resolve.go:52-91 | the search of the visible files finds nothing exactly when none of them declares the name or has it as a namespace, and otherwise what the first of them says |
| `References.RootDecides` | linker/resolve.go:688-694 | a reference that no other prefix matches resolves exactly when some visible file declares the name or has it as a namespace, and to what the first such file in import order says |
| `References.DottedDecides` | linker/resolve.go:629-633 | the same for a reference with a leading dot, from every scope |
| `References.ReferenceMeans` | linker/resolve.go:629-713 | every reference resolves to what it means under the prefix that decides, and to nothing exactly when it means nothing under any prefix |
| `References.FirstNameMeans` | linker/resolve.go:634-640 | the first component is what comes before the first dot |
| `References.FirstHitIsTaken` | linker/resolve.go:641-657 | a reference to anything, or a qualified one, takes the first hit of all prefixes |
| `References.FirstTypeIsTaken` | linker/resolve.go:645-657 | an unqualified reference to a type passes over hits of other kinds inside the file and takes the first message or enum |
| `References.NoTypeIsFound` | linker/resolve.go:654-662 | if there is no message or enum before a package-level hit of another kind, or none at all, it gets the first hit of any kind |
| `ScopeWalk.WalkFile` | walk/walk.go:67-195 | every element is entered once, in pre-order; each is declared by a simple name inside the place recorded for it, and its scope stack, inside out, followed by the package prefixes, is exactly the list of dot-prefixes of the element without the element itself |
| `ScopeWalk.NestedIsAligned` | linker/resolve.go:184-281 | a stack that leads one component at a time to a place, inside out, followed by the package prefixes is the dot-prefix list of the place |
| `ScopeWalk.PlacedFits` | linker/resolve.go:184-281 | the same for the visit of an element: what encloses it is its dot-prefix list without its head |
| `ScopeWalk.VisitResolves` | linker/resolve.go:184-281 | with the scopes of any visit of the walk, a reference is resolved by trying the dot-prefixes of what encloses the visited element |
| `ScopeWalk.VisitRewrites` | linker/resolve.go:305-452 | the leading-dot form of any reference that the walk resolves means the same from every other scope |
| `ScopeWalk.Walker.WalkMessage` | walk/walk.go:134-171 | visits a message and all below it, each element placed as above, pushing one scope and popping it again |
| `Paths.PathsReachTheirNodes` | sourceinfo/source_code_info.go:145-194 | every element path of source info, followed in the built file descriptor, reaches the descriptor made from the same node |
| `Paths.MessageReaches` | sourceinfo/source_code_info.go:314-412 | the same for all locations below a message, at any nesting, with groups, maps and synthetic oneofs present |
| `Paths.CountersAreLengths` | sourceinfo/source_code_info.go:314-412 | the index variables of source info equal the lengths of the lists that the descriptor builder has filled at the same point |
| `Paths.SyntheticWithin` | parser/result.go:788-847 | adding synthetic oneofs moves no element that has a location |
| `Paths.FieldsReach` | sourceinfo/source_code_info.go:479-518 | fields and groups of a oneof or an extend block, whose index variables belong to the caller |
| `Paths.EnumReaches` | sourceinfo/source_code_info.go:414-447 | values and reserved ranges of an enum |
| `Builder.AddMessageBody` | parser/result.go:587-692 | the loop over a message body builds the descriptor that the paths are followed in |
| `Builder.AsMessageDescriptor` | parser/result.go:529-537 | likewise for a whole message, with the depth limit and synthetic oneofs |
| `Builder.AddFields` | parser/result.go:273-297 | one pass over a block appends its fields and its groups' messages in order |
| `Membership.DeclMakesField` | parser/result.go:587-692 | each declaration of a field or group makes the field at its place, with the name of its node; written in a oneof it has the index of that very oneof, and otherwise none |
| `Membership.FieldIsSettled` | parser/result.go:587-692 | in the finished message, a field or group written in a oneof is in the oneof made from that declaration, which is not synthetic; in proto3 an optional field is in a synthetic oneof made for it; every other field is in none |
| `Membership.FieldIsDeclared` | parser/result.go:587-692 | conversely every field of the message comes from such a declaration |
| `Membership.MapEntryIsBuilt` | parser/result.go:404-435 | a map field has a nested entry message with exactly two fields, key and then value, neither in a oneof |
| `Membership.ExtensionIsBuilt` | parser/result.go:273-297 | extensions are at their place in the list and in no oneof |
| `Membership.DepthIsBounded` | parser/result.go:529-585 | however deep the source is nested, what is built from a message at some depth has no more levels than the limit leaves |
| `Membership.FileDepthIsBounded` | parser/result.go:574-585 | no file has more than 32 levels of messages |
| `Builder.CreateFileDescriptor` | parser/result.go:141-190 | the loop over a file builds the descriptor that the paths are followed in |
| `SourceInfo.SourceCodeInfo.ForMessage` | sourceinfo/source_code_info.go:314-412 | the loop with its counters emits exactly the locations of the message, although all paths below it may share its storage, and leaves its own path as it was |
| `SourceInfo.SourceCodeInfo.ForBlock` | sourceinfo/source_code_info.go:358-378 | with one of the two paths cloned, the fields and messages of a block get their own paths and locations |
| `SourceInfo.SourceCodeInfo.ForFields` | sourceinfo/source_code_info.go:479-518 | emits the locations of a block and advances both of the caller's counters, if the two paths do not share storage |
| `SourceInfo.SourceCodeInfo.ForEnum` | sourceinfo/source_code_info.go:414-447 | emits the locations of an enum, its values and its reserved ranges |
| `SourceInfo.ForFile` | sourceinfo/source_code_info.go:145-194 | emits exactly the locations of the file, all from one shared buffer |
| `Builder.BodyNodesLocated` | sourceinfo/source_code_info.go:314-412 | every element of a message has exactly one location, and they come in source order |
| `Builder.FileNodesLocated` | sourceinfo/source_code_info.go:145-194 | every element of a file has exactly one location, and they come in source order |
| `SyntheticOneofs.UniqueName` | parser/result.go:826-838 | the prefixing loop ends, with the first of name, Xname, XXname, ... that is free |
| `SyntheticOneofs.SyntheticName` | parser/result.go:826-838 | such a name is the field's own, with one underscore at its start at least, after as few X's as make it free: with fewer of them it is in use |
| `SyntheticOneofs.AllNames` | parser/result.go:795-820 | the set holds every field, oneof, extension, enum, enum value and nested type name |
| `SyntheticOneofs.ProcessProto3OptionalFields` | parser/result.go:788-847 | new oneofs follow the old ones, have names unlike each other and all declared ones, and nothing else changes |
| `SyntheticOneofs.SyntheticOneofsHoldOneField` | parser/result.go:788-847 | no two fields share a synthetic oneof, and oneofs of the source keep their fields |
| `SyntheticOneofs.SyntheticOneofsAreUsed` | parser/result.go:788-847 | every synthetic oneof holds an optional field |
| `SyntheticOneofs.NumbersLikePaths` | parser/result.go:788-847 | the pass without names, in which source-info paths are followed, puts every field into the same oneof and makes equally many |
| `Lexer.Lexer.Tokenize` | parser/lexer.go:186-358 | if the handler never gives up, lexing reports no error exactly when the text is a sequence of whitespace, comments and longest-match tokens; then the text comes back from the items, the line table is that of the text, each comment is attributed to one token next to it, and the line rule says which comment trails the previous token; the preconditions of the table methods, which are the panics of the source, hold on all runs |
| `Lexer.Lexer.Lex` | parser/lexer.go:186-358 | each call makes progress, reports an error only at a place where nothing can be read, and keeps the tables consistent even after errors |
| `Lexer.Lexer.Step` | parser/lexer.go:199-357 | what one rune leads to: a space, a comment or a token, each with the change of the book that goes with it, or an error exactly where no whitespace, comment or token starts |
| `Lexer.Lexer.ReadToken` | parser/lexer.go:219-357 | from the first rune of a token reads the longest identifier, number, string literal or one punctuation rune; refuses exactly when no token starts there |
| `Lexer.Lexer.ReadNumber` | parser/lexer.go:467-492 | longest match, with a sign only after an exponent letter |
| `Lexer.Lexer.ReadIdentifier` | parser/lexer.go:506-517 | longest match of letters, digits and underscores |
| `Lexer.Lexer.SkipLineComment` | parser/lexer.go:721-738 | stops before the first line end, or reports a NUL that comes before it |
| `Lexer.Lexer.SkipBlockComment` | parser/lexer.go:740-762 | stops after the first closer, reports a NUL that comes before it, or finds that there is no closer; records exactly the lines it passes |
| `Lexer.Lexer.FinishToken` | parser/lexer.go:394-436 | the item is added and the pending comments are recorded with it, the first one with the previous token if the counters say so; the tables stay in order |
| `LexerBook.DonatesIffTrails` | parser/lexer.go:404-431 | the counters say so exactly when the lines of the file do: the comment begins on the line of the previous token, the next token is on a later line or is the end of the file, and, if it is a single block comment, it ends on a line before that of the next token |
| `Lexer.Lexer.NewToken` | parser/lexer.go:394-436 | the two loops and the tests on the counters compute the finished book, on all runs |
| `Lexer.Lexer.AddComment` | parser/lexer.go:387-392 | a comment becomes an item and waits for the next token; the first of them counts for the previous token if it begins on that token's line |
| `LexerBook.MovesSound` | parser/lexer.go:186-436 | each of the four moves keeps what is known of the tables: items tile the text with blanks between, every comment before the last token is recorded next to a token and by the line rule, and the counters tell the lines of the pending comments |
| `LexerBook.ChainSound` | parser/lexer.go:186-436 | so it holds at every point of every error-free run |
| `LexerBook.ChainLexable` | parser/lexer.go:186-358 | the text can be lexed from its start exactly when it can from any point of the run |
| `LexerBook.RunEnds` | parser/lexer.go:186-358 | a run that has ended is clean exactly when the text can be lexed, and then it has lexed it |
| `LexerBook.ChainLines` | parser/lexer.go:170-180 | at every point of an error-free run the line table holds exactly the starts of lines up to there |
| `LexerBook.LineOfCounts` | ast/file_info.go:349-352 | the line found in that table for an offset is the number of line ends before it |
| `FileInfo.LineOfMeans` | ast/file_info.go:349-352 | in any table the line of an offset starts at or before it, and the next line after it |
| `SourceLines.TokenOnLine` | parser/lexer.go:519-719 | no token goes over a line end, string literals with all their escapes included |
| `Lexemes.TokenEndUnique` | parser/lexer.go:219-357 | from a given place there is at most one token |
| `Lexemes.CommentEndUnique` | parser/lexer.go:721-762 | and at most one comment |
| `LexerBook.RebuiltIsPrefix` | ast/file_info.go:466-478 | leading whitespace and raw text of the items, concatenated, give back the file up to the last item |
| `LexerBook.AttributedAddToken` | parser/lexer.go:394-436 | finishing a token leaves each comment before it recorded with a token next to it |
| `LexerBook.NewIsAdjacent` | parser/lexer.go:404-431 | the token a comment is attributed to is its neighbour, with nothing but comments between |
| `FileInfo.FileInfo.AddLine` | ast/file_info.go:78-96 | what the table accepts without a panic keeps the lines ascending |
| `FileInfo.FileInfo.CountLines` | ast/file_info.go:350-352 | the binary search finds the line of the offset |
| `FileInfo.FileInfo.SourcePos` | ast/file_info.go:349-377 | line and column of an offset: tabs go to the next multiple of eight, and a rune counts once |
| `FileInfo.TabStop` | ast/file_info.go:362-365 | a tab goes to the first multiple of eight behind it |
| `FileInfo.RuneColumn` | ast/file_info.go:362-369 | any other rune takes exactly one column, however many bytes it has |
| `FileInfo.FileInfo.AddToken` | ast/file_info.go:98-122 | likewise items follow each other without overlap |
| `FileInfo.FileInfo.AddComment` | ast/file_info.go:128-144 | likewise comments ascend, and so do the tokens they belong to |
| `FileInfo.FileInfo.LeadingComments` | ast/file_info.go:483-516 | binary search and count find exactly the recorded comments before the token that belong to it |
| `FileInfo.FileInfo.TrailingComments` | ast/file_info.go:537-568 | likewise those after it |
| `FileInfo.FileInfo.GetItem` | ast/file_info.go:198-215 | tells tokens from comments, and finds a comment's record if and only if there is one |
| `FileInfo.FileInfo.NextToken` | ast/file_info.go:292-322 | the nearest later item that is not a comment, if any |
| `FileInfo.FileInfo.PreviousToken` | ast/file_info.go:305-332 | the nearest earlier one |
| `CommentRoles.GroupComments` | sourceinfo/source_code_info.go:901-923 | the loop computes the groups |
| `CommentRoles.GroupsKeepAll` | sourceinfo/source_code_info.go:901-923 | the groups concatenated are all comments in order, and no group is empty |
| `CommentRoles.GroupsAreMaximal` | sourceinfo/source_code_info.go:901-923 | each group is a longest run without a break, and every block comment starts a group |
| `CommentRoles.MaybeDonate` | sourceinfo/source_code_info.go:816-854 | what is donated and what remains is what there was, in order; which it is, the laws of CommentLaws say by lines |
| `CommentRoles.MaybeAttach` | sourceinfo/source_code_info.go:856-879 | detached and leading comments are what there was, in order |
| `CommentRoles.AttributeComments` | sourceinfo/source_code_info.go:801-814 | the roles follow from the two tokens and the tables alone |
| `CommentRoles.GetLeadingComments` | sourceinfo/source_code_info.go:778-787 | takes its part from the split at the previous token |
| `CommentRoles.GetTrailingComments` | sourceinfo/source_code_info.go:789-799 | takes its part from the split at the next token, hence the same split |
| `CommentRoles.RolesAreConserved` | sourceinfo/source_code_info.go:778-879 | on the tables of an error-free file, trailing, detached and leading comments in order are exactly the comments between two neighbouring tokens, each once |
| `CommentRoles.QueriesPartition` | sourceinfo/source_code_info.go:778-799 | the trailing query at a token and the leading query at the next one together return the comments between the two, each once and in order; without a next token there is no trailing comment |
| `CommentLaws.GroupingIsUnique` | sourceinfo/source_code_info.go:901-923 | there is only one way to group comments into longest runs without a break, and it is the one computed |
| `CommentLaws.GroupsByLines` | sourceinfo/source_code_info.go:901-923 | comments of one group are line comments on adjacent lines, and where a group ends the next comment is a block comment, follows one, or lies further away |
| `CommentLaws.FarGroupDoesNotTrail` | sourceinfo/source_code_info.go:816-854 | a group that starts more than one line after the previous token never trails it |
| `CommentLaws.LoneGroup` | sourceinfo/source_code_info.go:816-879 | where a lone group goes, by the lines of the group and of the two tokens, in all cases |
| `CommentLaws.LoneGroupLeads` | sourceinfo/source_code_info.go:833-879 | a lone group without a blank line before a token that ends no scope leads that token, or is detached when all lie on one line |
| `CommentLaws.LoneGroupTrails` | sourceinfo/source_code_info.go:833-854 | a lone group that starts by the line after the previous token and has a blank line behind it trails that token |
| `CommentLaws.ScopeEnds` | sourceinfo/source_code_info.go:833-854 | before a token that ends a scope it trails the previous token, save for the one-line case without extra comments |
| `CommentLaws.SeveralGroups` | sourceinfo/source_code_info.go:816-879 | of several groups the first trails exactly when it starts by the line after the previous token, and what is left is leading exactly when its last group reaches the line before the next token, and detached otherwise |
| `CommentLaws.TablesTrail` | sourceinfo/source_code_info.go:801-814 | comments that the tables attribute to the previous token trail it, and the others are split by lines alone |
| `CommentLaws.FirstTokenRoles` | sourceinfo/source_code_info.go:801-814 | before the first token nothing trails |
| `CommentLaws.NoComments` | sourceinfo/source_code_info.go:801-814 | without comments there are no roles |
| `Ranges.ValidateMessageTags` | parser/validate.go:217-323 | nothing is reported if and only if reserved ranges are disjoint, extension ranges are disjoint, none meets another kind, and field tags are distinct and outside all of them |
| `Ranges.ValidateEnumNumbers` | parser/validate.go:455-500 | the same for enums, whose reserved ranges include their end and may not hold a value |
| `Ranges.Sweep` | parser/validate.go:253-275 | although it moves on by start alone, it reports something if and only if some reserved range meets some extension range |
| `Ranges.CheckNeighbours` | parser/validate.go:217-251 | on sorted ranges comparing neighbours finds an overlap if and only if any two overlap |
| `Ranges.DisjointAnyOrder` | parser/validate.go:223-231 | disjointness does not depend on the order, so sorting loses nothing |
| `Ranges.SearchFindsIt` | parser/validate.go:308-322 | the range found by binary search over ends is the only one that can hold the tag |
| `Ranges.CheckFields` | parser/validate.go:291-323 | the loop over the fields finds every repeated tag and every tag inside a range |
| `Escape.EscapeBytes` | internal/util.go:141-172 | the printer's loop computes the escaped form of all bytes |
| `LiteralTexts.EscapeByteIsPart` | internal/util.go:141-172 | a byte is written as it is exactly when it is printable and neither a quote nor a backslash, by its simple escape if it is one of the six that the printer knows, and otherwise by three octal digits that make it |
| `Escape.UnescapeInvertsEscape` | linker/descriptors.go:1369-1477 | for every byte string, unescaping its escaped form gives it back |
| `Escape.Unescape` | linker/descriptors.go:1369-1466 | the consuming loop computes the decoded bytes |
| `LiteralTexts.UnescapeReadsParts` | linker/descriptors.go:1369-1466 | unescape decodes a text made of any sequence of the same parts to their values |
| `LiteralTexts.CopyUnescapes` | linker/descriptors.go:1374-1380 | text without backslashes is copied |
| `LiteralTexts.SimpleUnescapes` | linker/descriptors.go:1439-1454 | the simple escapes, by the same table |
| `LiteralTexts.HexUnescapes` | linker/descriptors.go:1383-1397 | one or two hex digits, of either case |
| `LiteralTexts.OctalUnescapes` | linker/descriptors.go:1398-1406 | one to three octal digits |
| `LiteralTexts.UnicodeUnescapes` | linker/descriptors.go:1407-1438 | four or eight hex digits of a rune |
| `LiteralTexts.OctalCopied` | linker/descriptors.go:1400-1406 | an octal escape of more than a byte is copied as it is |
| `LiteralTexts.UnicodeCopied` | linker/descriptors.go:1429-1437 | so is one beyond the last rune |
| `StringLiteral.LexingInvertsEscape` | parser/lexer.go:519-719 | lexing the escaped form between either quote yields the bytes, without an error |
| `StringLiteral.ReadStringLiteral` | parser/lexer.go:519-719 | the loop computes value and end of the literal, or an error, all escape kinds included |
| `Utf8Laws.DecodeInvertsEncode` | parser/lexer.go:41-56 | decoding gives back every rune that was encoded, wherever it stands |
| `Utf8Laws.EncodeInvertsDecode` | parser/lexer.go:711-713 | where decoding does not fail, encoding gives back the bytes |
| `LiteralLaws.NumeralMeans` | parser/lexer.go:591-619 | a numeral is read as the number that its digits make |
| `LiteralLaws.DigitTable` | parser/lexer.go:584-591 | the value of a digit of either case is its place among the digits |
| `LiteralLaws.LexingReadsParts` | parser/lexer.go:519-719 | a literal made of any sequence of parts, between either quote, lexes to the values of the parts one after the other |
| `LiteralLaws.LexingRefuses` | parser/lexer.go:519-719 | a literal in which anything is refused is an error as a whole |
| `LiteralLaws.PlainReads` | parser/lexer.go:711-713 | a rune other than the quote, a backslash, NUL and a line end stands for its bytes |
| `LiteralLaws.SimpleReads` | parser/lexer.go:685-706 | the eleven simple escapes, by a table of letters and values |
| `LiteralLaws.HexReads` | parser/lexer.go:569-596 | one or two hex digits of either case stand for the byte that they make |
| `LiteralLaws.OctalReads` | parser/lexer.go:597-628 | one to three octal digits stand for the byte that they make |
| `LiteralLaws.UnicodeReads` | parser/lexer.go:629-684 | four or eight hex digits stand for the UTF-8 form of the rune that they make |
| `LiteralLaws.OctalRefused` | parser/lexer.go:619-627 | three octal digits are refused exactly when they make more than a byte |
| `LiteralLaws.UnicodeRefused` | parser/lexer.go:675-683 | eight hex digits are refused exactly when they make more than the last rune |
| `LiteralLaws.FewDigitsRefused` | parser/lexer.go:631-674 | too few digits before the quote are refused |
| `LiteralLaws.UnknownRefused` | parser/lexer.go:707-710 | a backslash before anything else is refused |
| `LiteralLaws.ControlRefused` | parser/lexer.go:540-561 | so are a NUL, a line end and the end of the input |
| `LiteralTexts.HexTextLexes` | parser/lexer.go:569-596 | any bytes, each written with two hex digits, lex to themselves |
| `LiteralTexts.ByteHasHex` | parser/lexer.go:569-596 | and every byte can be written so, with digits of either case |
| `LiteralTexts.PlainTextLexes` | parser/lexer.go:519-719 | valid UTF-8 text without quote, backslash, NUL and line end lexes to itself |
| `Retention.StripFile` | options/source_retention_options.go:35-99 | no object that existed is changed; the result is the very file that came in if and only if no source-only option is set anywhere, and otherwise a new object; it holds the stripped file, and exactly the locations that are not at or below a removed option |
| `Retention.StripTwice` | options/source_retention_options.go:35-99 | stripping what has been stripped returns that very object |
| `Retention.StripKeepsTheOthers` | options/source_retention_options.go:151-212 | at every path an option field remains if and only if it was set and is not for the source only |
| `Retention.StripKeepsElements` | options/source_retention_options.go:214-293 | nothing but options changes: elements, their number and order stay |
| `Retention.StripRemovesAll` | options/source_retention_options.go:151-212 | no source-only option is left at any level |
| `Retention.StripsNothingIffClean` | options/source_retention_options.go:35-99 | the result equals the input exactly when there was nothing to remove |
| `Retention.StripIsIdempotent` | options/source_retention_options.go:35-99 | stripping twice is stripping once |
| `Retention.StripsIffMarked` | options/source_retention_options.go:151-212 | a path lies at or below a removed option if and only if one of its prefixes is recorded |
| `Retention.AddAddsOne` | options/source_retention_options.go:115-132 | adding a path to the trie adds that path and no other |
| `Retention.RemovedIffPrefix` | options/source_retention_options.go:134-149 | the trie answers yes if and only if a prefix of the path was added |
| `Retention.StripOptionsOf` | options/source_retention_options.go:151-212 | returns the same options object exactly when none is for the source only, none at all when all are, and otherwise a new one; changes no object and records exactly the removed paths |
| `Retention.NoneLeftEmpty` | options/source_retention_options.go:176-190 | options go away altogether exactly when all of them were for the source only, so that none are left empty that were not |
| `Retention.StripElement` | options/source_retention_options.go:214-470 | the copy-on-write recursion returns the same object exactly when nothing below it is to be removed, and otherwise a new one that holds the stripped element; changes no object and records exactly the removed paths |
| `Retention.StripAll` | options/source_retention_options.go:515-539 | the slice itself if no item changed, and otherwise a new one, made when the first item changes, with the stripped items in order |
| `Retention.StripLists` | options/source_retention_options.go:214-293 | the same over all lists of children of an element |
| `Retention.StripLocations` | options/source_retention_options.go:472-491 | keeps the locations that are not at or below a removed option, in order |
| `Pool.CreateFile` | linker/resolve.go:154-167 | every request of the construction is served, the slices handed out are disjoint and together are the whole pool, and nothing remains |
| `Pool.AllocPool.CreateMessages` | linker/descriptors.go:410-416 | takes from the pool exactly what was counted for the messages, at any nesting |
| `Pool.AllocPool.CreateMessage` | linker/descriptors.go:458-479 | likewise for one message |
| `Pool.AllocPool.CreateEnums` | linker/descriptors.go:652-658 | likewise for enums and their values |
| `Pool.AllocPool.CreateServices` | linker/descriptors.go:1633-1639 | likewise for services and their methods |
| `Pool.AllocPool.CountElements` | linker/pool.go:105-113 | the counters end up as the numbers of elements of each kind |
| `Pool.AllocPool.Get` | linker/pool.go:57-103 | a slice starts where the last one of its kind ended |
| `Pool.SlicesAreDisjoint` | linker/pool.go:57-103 | no two slices share a place |
| `Pool.SlicesCover` | linker/pool.go:57-103 | every place that was handed out lies in a slice |

## Left out

- ExecutorTheorems.OutcomeIsDeterminate: whether linking a file succeeds is not modelled, and is left to each run.
- ExecutorTheorems.NoDeadlock: cancellation of the context and recovered panics are not modelled; the exact condition for an overridden descriptor.proto is `ExecutorOverride.StuckIffRing`.
- Symbols.Symbols.ImportPackage: nodes are indices into a list instead of pointers.
- Importers.ImportsInterleave: a section under a lock is one step, so the locks themselves are not modelled; the recursion of Import over a file's dependencies and the extension tags are left out here too.
- Symbols.Symbols.Lookup: its unlocked reads are taken to be atomic.
- Symbols.Symbols.ImportFile: the extension tags that are registered after the names, and the recursion of Import over a file's dependencies.
- Paths.PathsReachTheirNodes: locations of options, labels, types, names, numbers and reserved names, which are not elements; files for which the nesting limit was reported are excluded.
- Resolution.RewritingKeepsReferent: bookkeeping of used imports, and the checks of field and method types around the search.
- Lexer.Lexer.Tokenize: whether the text of a number is accepted is a parameter, because float and integer parsing belong to Go's strconv; the values of tokens, except for strings, and the text of errors are not modelled; the grammar is taken as a caller that asks for tokens until the end.
- CommentRoles.AttributeComments: lines of comments and tokens are parameters, so that the results hold for any lines; which of several locations claims a comment first, and the combined text, are not modelled.
- Ranges.ValidateMessageTags: reserved names and the other checks of messages; sort.Sort is an insertion sort by the same order; ranges are not empty and fields have names, as the grammar guarantees.
- Retention.StripElement: the shared backing array of paths, and errors for options of an unexpected type; the eight functions for the kinds of elements are one function over a table of tags.
- Pool.AllocPool.Get: what is written into the descriptors, and their registration by name; the eight get functions are one with the kind as a parameter.
- StringLiteral.ReadStringLiteral: the messages of errors and the stop after a handler's refusal, which do not change value or end.
- Feature and edition resolution, JSON names, option interpretation, the generated parser, the resolvers, and the experimental packages.
