/** The concurrent compile executor of compiler.go, as a transition system.

    Every requested or imported file has one task. A task needs a permit of the
    counting semaphore to run; before it waits for its imports it publishes the list
    of names it is blocked on, searches the lists published by others for a cycle, and
    gives its permit back. Which task moves next is arbitrary: a run is any sequence of
    moves, so every statement about reachable states covers every interleaving.

    Left symbolic: what the resolver and the parser answer for a file (a `World`),
    and whether linking a file succeeds (chosen move by move). */
module Executor {
  import opened Common

  type Name = string

  const DESCRIPTOR_PROTO := "google/protobuf/descriptor.proto"

  // What resolving and parsing a file leads to.
  datatype Source =
    | Unavailable                      // not found, mismatched name, or not parseable
    | Prelinked                        // the resolver returned a descriptor or a link result
    | Parsed(imports: seq<Name>)       // a parse result that still has to be linked

  // `overridden` is the answer of hasOverrideDescriptorProto.
  datatype World = World(files: map<Name, Source>, overridden: bool)

  function SourceOf(w: World, f: Name): Source {
    if f in w.files then w.files[f] else Unavailable
  }

  function Imports(w: World, f: Name): seq<Name> {
    if SourceOf(w, f).Parsed? then SourceOf(w, f).imports else []
  }

  // The file does not import descriptor.proto but gets it as an implicit dependency.
  predicate WantsDescriptor(w: World, f: Name) {
    w.overridden && SourceOf(w, f).Parsed? && f != DESCRIPTOR_PROTO && DESCRIPTOR_PROTO !in Imports(w, f)
  }

  // The list a task publishes with setBlockedOn.
  function BlockList(w: World, f: Name): seq<Name> {
    Imports(w, f) + if WantsDescriptor(w, f) then [DESCRIPTOR_PROTO] else []
  }

  datatype Verdict =
    | Ok(order: nat)                   // history: the position of the completion on the clock
    | NoSource
    | CycleFound(sequence: seq<Name>)  // the reported "a -> b -> ... -> a"
    | ImportFailed(dep: Name)
    | LinkFailed

  // An activation of checkForDependencyCycle: the result it looks at, and the names
  // of the list it read that it has not examined yet.
  datatype Frame = Frame(name: Name, pending: seq<Name>)

  datatype Phase =
    | Queued                           // waiting for a first permit
    | Resolving
    | Checking(next: nat, enter: Option<Name>, stack: seq<Frame>)
    | Waiting(next: nat)
    | Reacquiring
    | Linking
    | Closing(verdict: Verdict)        // `ready` is closed, the permit is not back yet
    | Exited(verdict: Verdict)
  {
    predicate Finished() { Closing? || Exited? }

    // The task holds a permit of the semaphore.
    predicate Holds() { Resolving? || Checking? || Linking? || Closing? }
  }

  // `checked` is the map handed to the cycle search; `stamp` is a history variable: the
  // position of the task's publication on the clock, 0 before it publishes.
  datatype Task = Task(phase: Phase, blockedOn: seq<Name>, checked: set<Name>, stamp: nat)

  // `clock` counts publications and completions; no action of a task depends on it.
  datatype State = State(permits: nat, tasks: map<Name, Task>, clock: nat)

  const FRESH := Task(Queued, [], {}, 0)

  function Put(s: State, t: Name, k: Task): State {
    s.(tasks := s.tasks[t := k])
  }

  // compileLocked: one result per name.
  function Register(s: State, f: Name): State {
    if f in s.tasks then s else Put(s, f, FRESH)
  }

  // The `sequence` argument at the current depth of a task's search.
  function Sequence(t: Name, stack: seq<Frame>): seq<Name> {
    if stack == [] then [t] else Sequence(t, stack[..|stack| - 1]) + [stack[|stack| - 1].name]
  }

  // The number of dependencies that a task checks and waits for, including the implicit one.
  function Degree(w: World, t: Name): nat { |BlockList(w, t)| }

  predicate CanStep(w: World, s: State, t: Name) {
    t in s.tasks &&
    match s.tasks[t].phase
    case Queued => s.permits > 0
    case Reacquiring => s.permits > 0
    case Waiting(i) =>
      i < Degree(w, t) ==> BlockList(w, t)[i] in s.tasks && s.tasks[BlockList(w, t)[i]].phase.Finished()
    case Exited(_) => false
    case _ => true
  }

  // Only `t` moves; other tasks stay as they are, except that new ones may appear.
  ghost predicate OnlyMoves(s: State, s': State, t: Name) {
    && s.clock <= s'.clock
    && (forall u :: u in s.tasks ==> u in s'.tasks && (u != t ==> s'.tasks[u] == s.tasks[u]))
    && (forall u :: u in s'.tasks && u !in s.tasks ==> s'.tasks[u] == FRESH)
  }

  // One atomic action of task `t`. `linkOk` is the outcome of linking, used in that phase only.
  function Step(w: World, s: State, t: Name, linkOk: bool): (s': State)
    requires CanStep(w, s, t)
    ensures OnlyMoves(s, s', t)
  {
    var k := s.tasks[t];
    match k.phase
    case Queued => Put(s, t, k.(phase := Resolving)).(permits := s.permits - 1)
    case Resolving => ResolveStep(w, s, t)
    case Checking(i, enter, stack) =>
      if enter.Some? then EnterStep(s, t)
      else if stack != [] then ScanStep(s, t)
      else if i < Degree(w, t) then ImportStep(w, s, t)
      else Put(s, t, k.(phase := Waiting(0))).(permits := s.permits + 1)
    case Waiting(i) => WaitStep(w, s, t)
    case Reacquiring => Put(s, t, k.(phase := Linking)).(permits := s.permits - 1)
    case Linking => if linkOk then CompleteStep(s, t) else Put(s, t, k.(phase := Closing(LinkFailed)))
    case Closing(v) => Put(s, t, k.(phase := Exited(v))).(permits := s.permits + 1)
  }

  // r.complete
  function CompleteStep(s: State, t: Name): (s': State)
    requires t in s.tasks
    ensures OnlyMoves(s, s', t)
  {
    Put(s, t, s.tasks[t].(phase := Closing(Ok(s.clock + 1)))).(clock := s.clock + 1)
  }

  // FindFileByPath, asParseResult and, if there is something to wait for, setBlockedOn.
  function ResolveStep(w: World, s: State, t: Name): (s': State)
    requires t in s.tasks
    ensures OnlyMoves(s, s', t)
  {
    var k := s.tasks[t];
    match SourceOf(w, t)
    case Unavailable => Put(s, t, k.(phase := Closing(NoSource)))
    case Prelinked => CompleteStep(s, t)
    case Parsed(_) =>
      if BlockList(w, t) == [] then Put(s, t, k.(phase := Linking))
      else Put(s, t, Task(Checking(0, None, []), BlockList(w, t), {}, s.clock + 1)).(clock := s.clock + 1)
  }

  // The next entry of the import loop: refuse a self-import, otherwise create the
  // dependency's task and go on to search it. The implicit dependency is only created.
  function ImportStep(w: World, s: State, t: Name): (s': State)
    requires t in s.tasks && s.tasks[t].phase.Checking? && s.tasks[t].phase.next < Degree(w, t)
    ensures OnlyMoves(s, s', t)
  {
    var k := s.tasks[t];
    var i := k.phase.next;
    var dep := BlockList(w, t)[i];
    if i >= |Imports(w, t)| then Register(Put(s, t, k.(phase := Checking(i + 1, None, []))), dep)
    else if dep == t then Put(s, t, k.(phase := Closing(CycleFound([t, dep]))))
    else Register(Put(s, t, k.(phase := Checking(i, Some(dep), []))), dep)
  }

  // Entry of checkForDependencyCycle: skip a result already checked, otherwise mark it
  // and read the list it has published.
  function EnterStep(s: State, t: Name): (s': State)
    requires t in s.tasks && s.tasks[t].phase.Checking? && s.tasks[t].phase.enter.Some?
    ensures OnlyMoves(s, s', t)
  {
    var k := s.tasks[t];
    var Checking(i, enter, stack) := k.phase;
    var x := enter.value;
    if x in k.checked then
      Put(s, t, k.(phase := Checking(if stack == [] then i + 1 else i, None, stack)))
    else
      var list := if x in s.tasks then s.tasks[x].blockedOn else [];
      Put(s, t, k.(phase := Checking(i, None, stack + [Frame(x, list)]), checked := k.checked + {x}))
  }

  // One turn of the loop inside checkForDependencyCycle, or its return.
  function ScanStep(s: State, t: Name): (s': State)
    requires t in s.tasks && s.tasks[t].phase.Checking? && s.tasks[t].phase.stack != []
    ensures OnlyMoves(s, s', t)
  {
    var k := s.tasks[t];
    var Checking(i, _, stack) := k.phase;
    var below := stack[..|stack| - 1];
    var top := stack[|stack| - 1];
    if top.pending == [] then
      Put(s, t, k.(phase := Checking(if below == [] then i + 1 else i, None, below)))
    else
      var dep := top.pending[0];
      var rest := below + [Frame(top.name, top.pending[1..])];
      if dep in Sequence(t, stack) then
        Put(s, t, k.(phase := Closing(CycleFound(Sequence(t, stack) + [dep]))))
      else
        Put(s, t, k.(phase := Checking(i, if dep in s.tasks then Some(dep) else None, rest)))
  }

  // Receive from the next dependency, or clear the published list when all are there.
  // A failure of the implicit dependency is ignored.
  function WaitStep(w: World, s: State, t: Name): (s': State)
    requires CanStep(w, s, t) && s.tasks[t].phase.Waiting?
    ensures OnlyMoves(s, s', t)
  {
    var k := s.tasks[t];
    var i := k.phase.next;
    if i >= Degree(w, t) then Put(s, t, k.(phase := Reacquiring, blockedOn := []))
    else
      var dep := BlockList(w, t)[i];
      if i < |Imports(w, t)| && !s.tasks[dep].phase.verdict.Ok?
      then Put(s, t, k.(phase := Exited(ImportFailed(dep))))
      else Put(s, t, k.(phase := Waiting(i + 1)))
  }

  // --- Runs ---------------------------------------------------------------

  datatype Move = Move(task: Name, linkOk: bool)

  function Init(roots: seq<Name>, permits: nat): State {
    State(permits, map f | f in roots :: FRESH, 0)
  }

  // The state after the moves, if each of them is possible.
  function Exec(w: World, s: State, moves: seq<Move>): Option<State>
    decreases |moves|
  {
    if moves == [] then Some(s)
    else if !CanStep(w, s, moves[0].task) then None
    else Exec(w, Step(w, s, moves[0].task, moves[0].linkOk), moves[1..])
  }

  ghost predicate Reachable(w: World, roots: seq<Name>, permits: nat, s: State) {
    exists moves: seq<Move> :: Exec(w, Init(roots, permits), moves) == Some(s)
  }

  predicate AllExited(s: State) {
    forall t :: t in s.tasks ==> s.tasks[t].phase.Exited?
  }
}
