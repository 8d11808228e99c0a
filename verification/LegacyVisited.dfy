/**
 The visited-target collection that learns a requester's ancestors over channels.

 One `State` holds every target, every dependency subscription (a channel), every
 running `Add` call and the collection's lock. A `Step` is one atomic action of one
 goroutine, so a list of steps is one interleaving of any number of `Add` calls,
 subscription monitors and subscription updaters.
 */
module LegacyVisited {
  import opened Options
  import opened RequestGraph

  /** Channel buffers hold this many IDs. */
  const CAPACITY := 1024

  /** The goroutine that feeds incoming IDs to AddDependentIDs. `Sending` means it holds depMu. */
  datatype Updater =
    | Idle
    | Held(id: Id)
    | Sending(id: Id, rest: seq<nat>)

  datatype Target = Target(
    name: string,
    done: bool,
    dependentIDs: set<Id>,
    outgoing: seq<nat>,
    incoming: seq<Id>,
    listening: bool,
    updater: Updater)

  /** A dependency subscription: made by target `owner`, later monitored for target `sink`. */
  datatype Subscription = Subscription(owner: Id, buf: seq<Id>, sink: Option<Id>, hand: Option<Id>)

  datatype Outcome =
    | Existing(t: Id)
    | Fresh(t: Id)
    | Recursion(t: Id)
    | Panicked(t: Id)
    | Failed

  /** Where an `Add` call is; the last four lines of the code before `Returned` hold the lock. */
  datatype Pc =
    | Locking(prevLen: nat)
    | Waiting(snap: seq<Id>, k: nat)
    | PuttingBack(todo: set<Id>)
    | Comparing(k: nat)
    | Draining(t: Id)
    | Returned(outcome: Outcome)

  /** An `Add` call. Call number r uses subscription number r, or no subscription at all. */
  datatype Call = Call(name: string, dependents: set<Id>, pc: Pc)

  datatype State = State(
    targets: map<Id, Target>,
    visited: map<string, seq<Id>>,
    visitedList: seq<Id>,
    lock: Option<nat>,
    subs: map<nat, Subscription>,
    calls: map<nat, Call>,
    edges: Edges)

  datatype Verdict = Same | Different | CompareError

  datatype Step =
    | StartRoot(r: nat, name: string)
    | StartChild(r: nat, parent: Id, name: string, order: seq<Id>)
    | Look(r: nat)
    | WaitSkip(r: nat)
    | WaitRecv(r: nat)
    | WaitDone(r: nat)
    | WaitEnd(r: nat)
    | WaitCancel(r: nat)
    | PutBack(r: nat, id: Id)
    | PutBackEnd(r: nat)
    | Compare(r: nat, verdict: Verdict)
    | Create(r: nat, t: Id)
    | Drain(r: nat)
    | DrainEnd(r: nat)
    | DrainCancel(r: nat)
    | MonitorRecv(r: nat)
    | MonitorSend(r: nat)
    | UpdaterTake(t: Id)
    | UpdaterLock(t: Id)
    | UpdaterSend(t: Id)
    | UpdaterEnd(t: Id)
    | Finish(t: Id)

  const INIT := State(map[], map[], [], None, map[], map[], {})

  function Listed(s: State, name: string): seq<Id> {
    if name in s.visited then s.visited[name] else []
  }

  function Elements(q: seq<Id>): set<Id> {
    set i | 0 <= i < |q| :: q[i]
  }

  predicate NoRepeats(q: seq<Id>) {
    forall i, j :: 0 <= i < j < |q| ==> q[i] != q[j]
  }

  predicate Running(s: State, r: nat) {
    r in s.calls && !s.calls[r].pc.Returned?
  }

  /** The `Add` calls that are past `waitAllDoneAndLock` and have not returned. */
  predicate HoldsLock(pc: Pc) {
    pc.PuttingBack? || pc.Comparing? || pc.Draining?
  }

  predicate Enabled(s: State, step: Step) {
    match step
    case StartRoot(r, name) => r !in s.calls && r !in s.subs
    case StartChild(r, p, name, order) =>
      && r !in s.calls && r !in s.subs
      && p in s.targets && p in s.visitedList && !s.targets[p].done
      && !s.targets[p].updater.Sending?
      && NoRepeats(order) && Elements(order) == s.targets[p].dependentIDs
      && 1 + |order| <= CAPACITY
    case Look(r) => r in s.calls && s.calls[r].pc.Locking? && s.lock.None?
    case WaitSkip(r) => AtElement(s, r) && Element(s, r) in s.calls[r].dependents
    case WaitRecv(r) =>
      AtElement(s, r) && Element(s, r) !in s.calls[r].dependents && r in s.subs && s.subs[r].buf != []
    case WaitDone(r) =>
      AtElement(s, r) && Element(s, r) !in s.calls[r].dependents
      && Element(s, r) in s.targets && s.targets[Element(s, r)].done
    case WaitEnd(r) => r in s.calls && s.calls[r].pc.Waiting? && s.calls[r].pc.k == |s.calls[r].pc.snap|
    case WaitCancel(r) => AtElement(s, r) && Element(s, r) !in s.calls[r].dependents
    case PutBack(r, id) =>
      r in s.calls && s.calls[r].pc.PuttingBack? && id in s.calls[r].pc.todo
      && r in s.subs && |s.subs[r].buf| < CAPACITY
    case PutBackEnd(r) => r in s.calls && s.calls[r].pc.PuttingBack? && s.calls[r].pc.todo == {}
    case Compare(r, verdict) =>
      r in s.calls && s.calls[r].pc.Comparing? && s.calls[r].pc.k < |Listed(s, s.calls[r].name)|
      && Listed(s, s.calls[r].name)[s.calls[r].pc.k] in s.targets
    case Create(r, t) =>
      r in s.calls && s.calls[r].pc.Comparing? && s.calls[r].pc.k == |Listed(s, s.calls[r].name)|
      && t !in s.targets
    case Drain(r) =>
      r in s.calls && s.calls[r].pc.Draining? && r in s.subs && s.subs[r].buf != [] && s.calls[r].pc.t in s.targets
    case DrainEnd(r) =>
      r in s.calls && s.calls[r].pc.Draining? && r in s.subs && s.subs[r].buf == [] && s.calls[r].pc.t in s.targets
    case DrainCancel(r) => r in s.calls && s.calls[r].pc.Draining?
    case MonitorRecv(r) => r in s.subs && s.subs[r].sink.Some? && s.subs[r].hand.None? && s.subs[r].buf != []
    case MonitorSend(r) =>
      r in s.subs && s.subs[r].sink.Some? && s.subs[r].hand.Some?
      && s.subs[r].sink.value in s.targets && |s.targets[s.subs[r].sink.value].incoming| < CAPACITY
    case UpdaterTake(t) =>
      t in s.targets && s.targets[t].listening && s.targets[t].updater.Idle? && s.targets[t].incoming != []
    case UpdaterLock(t) => t in s.targets && s.targets[t].updater.Held?
    case UpdaterSend(t) =>
      t in s.targets && s.targets[t].updater.Sending? && s.targets[t].updater.rest != []
      && s.targets[t].updater.rest[0] in s.subs && |s.subs[s.targets[t].updater.rest[0]].buf| < CAPACITY
    case UpdaterEnd(t) => t in s.targets && s.targets[t].updater.Sending? && s.targets[t].updater.rest == []
    case Finish(t) => t in s.targets && t in s.visitedList && !s.targets[t].done
  }

  predicate AtElement(s: State, r: nat) {
    r in s.calls && s.calls[r].pc.Waiting? && s.calls[r].pc.k < |s.calls[r].pc.snap|
  }

  function Element(s: State, r: nat): Id
    requires AtElement(s, r)
  {
    s.calls[r].pc.snap[s.calls[r].pc.k]
  }

  function WithPc(s: State, r: nat, pc: Pc): State
    requires r in s.calls
  {
    s.(calls := s.calls[r := s.calls[r].(pc := pc)])
  }

  function WithTarget(s: State, t: Id, target: Target): State {
    s.(targets := s.targets[t := target])
  }

  function WithSub(s: State, r: nat, sub: Subscription): State {
    s.(subs := s.subs[r := sub])
  }

  /** The ghost record that the owner of subscription `r`, if any, has asked for `t`. */
  function WithEdge(s: State, r: nat, t: Id): State {
    if r in s.subs then s.(edges := s.edges + {(s.subs[r].owner, t)}) else s
  }

  function Unlocked(s: State): State {
    s.(lock := None)
  }

  function Register(s: State, r: nat, t: Id): State
    requires r in s.calls
  {
    var name := s.calls[r].name;
    Unlocked(WithPc(s, r, Returned(Fresh(t)))).(
      visited := s.visited[name := Listed(s, name) + [t]],
      visitedList := s.visitedList + [t])
  }

  /** What `Add` does with the element it has just compared. */
  function ApplyCompare(s: State, r: nat, verdict: Verdict): State
    requires Enabled(s, Compare(r, verdict))
  {
    var c := s.calls[r];
    var t := Listed(s, c.name)[c.pc.k];
    match verdict
    case Different => WithPc(s, r, Comparing(c.pc.k + 1))
    case CompareError => Unlocked(WithPc(s, r, Returned(Failed)))
    case Same =>
      if t in c.dependents then Unlocked(WithPc(s, r, Returned(Recursion(t))))
      else if !s.targets[t].done then Unlocked(WithPc(s, r, Returned(Panicked(t))))
      else
        var s1 := WithEdge(Unlocked(WithPc(s, r, Returned(Existing(t)))), r, t);
        if r in s.subs then WithSub(s1, r, s.subs[r].(sink := Some(t))) else s1
  }

  function NewTarget(name: string, listening: bool): Target {
    Target(name, false, {}, [], [], listening, Idle)
  }

  function Apply(s: State, step: Step): State
    requires Enabled(s, step)
  {
    match step
    case StartRoot(r, name) => s.(calls := s.calls[r := Call(name, {}, Locking(0))])
    case StartChild(r, p, name, order) =>
      WithTarget(s, p, s.targets[p].(outgoing := s.targets[p].outgoing + [r])).(
        subs := s.subs[r := Subscription(p, [p] + order, None, None)],
        calls := s.calls[r := Call(name, {}, Locking(0))])
    case Look(r) =>
      var c := s.calls[r];
      var list := Listed(s, c.name);
      if c.pc.prevLen == |list| then WithPc(s, r, PuttingBack(c.dependents)).(lock := Some(r))
      else WithPc(s, r, Waiting(list, 0))
    case WaitSkip(r) => WithPc(s, r, s.calls[r].pc.(k := s.calls[r].pc.k + 1))
    case WaitRecv(r) =>
      var c := s.calls[r];
      var id := s.subs[r].buf[0];
      var k := if id == Element(s, r) then c.pc.k + 1 else c.pc.k;
      WithSub(s, r, s.subs[r].(buf := s.subs[r].buf[1..])).(
        calls := s.calls[r := c.(dependents := c.dependents + {id}, pc := c.pc.(k := k))])
    case WaitDone(r) => WithPc(s, r, s.calls[r].pc.(k := s.calls[r].pc.k + 1))
    case WaitEnd(r) => WithPc(s, r, Locking(|s.calls[r].pc.snap|))
    case WaitCancel(r) => WithPc(s, r, Returned(Failed))
    case PutBack(r, id) =>
      WithSub(WithPc(s, r, PuttingBack(s.calls[r].pc.todo - {id})), r,
              s.subs[r].(buf := s.subs[r].buf + [id]))
    case PutBackEnd(r) => WithPc(s, r, Comparing(0))
    case Compare(r, verdict) => ApplyCompare(s, r, verdict)
    case Create(r, t) =>
      var s1 := WithEdge(WithTarget(s, t, NewTarget(s.calls[r].name, false)), r, t);
      if r in s.subs then WithPc(s1, r, Draining(t)) else Register(s1, r, t)
    case Drain(r) =>
      var t := s.calls[r].pc.t;
      WithSub(WithTarget(s, t, s.targets[t].(dependentIDs := s.targets[t].dependentIDs + {s.subs[r].buf[0]})), r,
              s.subs[r].(buf := s.subs[r].buf[1..]))
    case DrainEnd(r) =>
      var t := s.calls[r].pc.t;
      Register(WithSub(WithTarget(s, t, s.targets[t].(listening := true)), r, s.subs[r].(sink := Some(t))), r, t)
    case DrainCancel(r) => Unlocked(WithPc(s, r, Returned(Failed)))
    case MonitorRecv(r) =>
      WithSub(s, r, s.subs[r].(hand := Some(s.subs[r].buf[0]), buf := s.subs[r].buf[1..]))
    case MonitorSend(r) =>
      var t := s.subs[r].sink.value;
      WithSub(WithTarget(s, t, s.targets[t].(incoming := s.targets[t].incoming + [s.subs[r].hand.value])), r,
              s.subs[r].(hand := None))
    case UpdaterTake(t) =>
      var x := s.targets[t];
      WithTarget(s, t, x.(incoming := x.incoming[1..], updater := if x.done then Idle else Held(x.incoming[0])))
    case UpdaterLock(t) =>
      var x := s.targets[t];
      WithTarget(s, t, x.(dependentIDs := x.dependentIDs + {x.updater.id}, updater := Sending(x.updater.id, x.outgoing)))
    case UpdaterSend(t) =>
      var x := s.targets[t];
      var r := x.updater.rest[0];
      WithSub(WithTarget(s, t, x.(updater := Sending(x.updater.id, x.updater.rest[1..]))), r,
              s.subs[r].(buf := s.subs[r].buf + [x.updater.id]))
    case UpdaterEnd(t) => WithTarget(s, t, s.targets[t].(updater := Idle))
    case Finish(t) => WithTarget(s, t, s.targets[t].(done := true))
  }

  /** The state after an interleaving, or None if some step could not be taken. */
  function Run(steps: seq<Step>): (r: Option<State>) {
    if steps == [] then Some(INIT)
    else
      var before := Run(steps[..|steps| - 1]);
      if before.Some? && Enabled(before.value, steps[|steps| - 1])
      then Some(Apply(before.value, steps[|steps| - 1]))
      else None
  }

  // ----- Safety of the waiting loop -----

  /** A target of the wanted name that the waiting call need not wait for any more. */
  predicate Settled(s: State, c: Call, t: Id) {
    t in c.dependents || (t in s.targets && s.targets[t].done)
  }

  predicate AllSettled(s: State, c: Call, list: seq<Id>) {
    forall i :: 0 <= i < |list| ==> Settled(s, c, list[i])
  }

  predicate CallWaits(s: State, c: Call) {
    var list := Listed(s, c.name);
    match c.pc
    case Locking(n) => n <= |list| && AllSettled(s, c, list[..n])
    case Waiting(snap, k) => snap <= list && k <= |snap| && AllSettled(s, c, snap[..k])
    case PuttingBack(todo) => AllSettled(s, c, list)
    case Comparing(k) => AllSettled(s, c, list) && k <= |list|
    case Draining(t) => AllSettled(s, c, list)
    case Returned(o) => !o.Panicked?
  }

  predicate ListsTargets(s: State) {
    && ListsNamed(s)
    && (forall i :: 0 <= i < |s.visitedList| ==> s.visitedList[i] in s.targets)
    && (forall r :: r in s.calls && s.calls[r].pc.Draining? ==>
          s.calls[r].pc.t in s.targets && s.targets[s.calls[r].pc.t].name == s.calls[r].name)
  }

  predicate LockOwned(s: State) {
    && (s.lock.Some? ==> s.lock.value in s.calls)
    && (forall r :: r in s.calls ==> (HoldsLock(s.calls[r].pc) <==> s.lock == Some(r)))
  }

  predicate WaitInv(s: State) {
    && ListsTargets(s)
    && LockOwned(s)
    && (forall r :: r in s.calls ==> CallWaits(s, s.calls[r]))
  }

  /** Between two states the lists only grow and finished targets stay finished. */
  ghost predicate Grows(s: State, s': State) {
    && (forall n :: Listed(s, n) <= Listed(s', n))
    && (forall t :: t in s.targets ==> t in s'.targets && s'.targets[t].name == s.targets[t].name
                                       && (s.targets[t].done ==> s'.targets[t].done))
  }

  lemma ApplyGrows(s: State, step: Step)
    requires Enabled(s, step)
    ensures Grows(s, Apply(s, step))
  {
    if Caller(step).None? {
      BackgroundGrows(s, step);
    } else {
      CallerGrows(s, step);
    }
  }

  lemma BackgroundGrows(s: State, step: Step)
    requires Enabled(s, step) && Caller(step).None?
    ensures Grows(s, Apply(s, step))
  {
  }

  lemma CallerGrows(s: State, step: Step)
    requires Enabled(s, step) && Caller(step).Some?
    ensures Grows(s, Apply(s, step))
  {
    if HoldsLock(s.calls[step.r].pc) {
      HolderGrows(s, step);
    }
  }

  lemma HolderGrows(s: State, step: Step)
    requires Enabled(s, step) && Caller(step).Some? && HoldsLock(s.calls[step.r].pc)
    ensures Grows(s, Apply(s, step))
  {
    match step
    case Create(r, t) => CreateGrows(s, r, t);
    case DrainEnd(r) => DrainEndGrows(s, r);
    case Compare(r, verdict) => CompareGrows(s, r, verdict);
    case _ =>
  }

  lemma CompareGrows(s: State, r: nat, verdict: Verdict)
    requires Enabled(s, Compare(r, verdict))
    ensures Grows(s, Apply(s, Compare(r, verdict)))
  {
  }

  lemma CreateGrows(s: State, r: nat, t: Id)
    requires Enabled(s, Create(r, t))
    ensures Grows(s, Apply(s, Create(r, t)))
  {
  }

  lemma DrainEndGrows(s: State, r: nat)
    requires Enabled(s, DrainEnd(r))
    ensures Grows(s, Apply(s, DrainEnd(r)))
  {
  }

  lemma GrowthKeepsWaits(s: State, s': State, c: Call)
    requires Grows(s, s') && CallWaits(s, c)
    requires HoldsLock(c.pc) ==> Listed(s', c.name) == Listed(s, c.name)
    ensures CallWaits(s', c)
  {
    assert Listed(s, c.name) <= Listed(s', c.name);
    if c.pc.Locking? {
      assert Listed(s', c.name)[..c.pc.prevLen] == Listed(s, c.name)[..c.pc.prevLen];
    }
  }

  /** The call a step belongs to; the other steps are those of background goroutines. */
  function Caller(step: Step): Option<nat> {
    match step
    case Look(r) => Some(r)
    case WaitSkip(r) => Some(r)
    case WaitRecv(r) => Some(r)
    case WaitDone(r) => Some(r)
    case WaitEnd(r) => Some(r)
    case WaitCancel(r) => Some(r)
    case PutBack(r, id) => Some(r)
    case PutBackEnd(r) => Some(r)
    case Compare(r, verdict) => Some(r)
    case Create(r, t) => Some(r)
    case Drain(r) => Some(r)
    case DrainEnd(r) => Some(r)
    case DrainCancel(r) => Some(r)
    case _ => None
  }

  predicate Starts(step: Step) {
    step.StartRoot? || step.StartChild?
  }

  lemma BackgroundCalls(s: State, step: Step)
    requires Enabled(s, step) && Caller(step).None?
    ensures Apply(s, step).calls == if Starts(step) then s.calls[step.r := Call(step.name, {}, Locking(0))] else s.calls
  {
  }

  lemma WaiterCalls(s: State, step: Step)
    requires Enabled(s, step) && Caller(step).Some? && !HoldsLock(s.calls[step.r].pc)
    ensures step.r in Apply(s, step).calls && Apply(s, step).calls == s.calls[step.r := Apply(s, step).calls[step.r]]
  {
  }

  lemma HolderCalls(s: State, step: Step)
    requires Enabled(s, step) && Caller(step).Some? && HoldsLock(s.calls[step.r].pc)
    ensures step.r in Apply(s, step).calls && Apply(s, step).calls == s.calls[step.r := Apply(s, step).calls[step.r]]
  {
    match step
    case Compare(r, verdict) => CompareCalls(s, r, verdict);
    case Create(r, t) => CreateCalls(s, r, t);
    case _ =>
  }

  lemma CompareCalls(s: State, r: nat, verdict: Verdict)
    requires Enabled(s, Compare(r, verdict))
    ensures var s' := Apply(s, Compare(r, verdict)); r in s'.calls && s'.calls == s.calls[r := s'.calls[r]]
  {
  }

  lemma CreateCalls(s: State, r: nat, t: Id)
    requires Enabled(s, Create(r, t))
    ensures var s' := Apply(s, Create(r, t)); r in s'.calls && s'.calls == s.calls[r := s'.calls[r]]
  {
  }

  lemma CallerCalls(s: State, step: Step)
    requires Enabled(s, step) && Caller(step).Some?
    ensures step.r in Apply(s, step).calls && Apply(s, step).calls == s.calls[step.r := Apply(s, step).calls[step.r]]
  {
    if HoldsLock(s.calls[step.r].pc) {
      HolderCalls(s, step);
    } else {
      WaiterCalls(s, step);
    }
  }

  lemma OthersUntouched(s: State, step: Step, r: nat)
    requires Enabled(s, step) && r in s.calls && Caller(step) != Some(r)
    ensures r in Apply(s, step).calls && Apply(s, step).calls[r] == s.calls[r]
  {
    if Caller(step).None? {
      BackgroundCalls(s, step);
    } else {
      CallerCalls(s, step);
    }
  }

  predicate Registers(s: State, step: Step) {
    step.DrainEnd? || (step.Create? && step.r !in s.subs)
  }

  lemma ListsSame(s: State, step: Step)
    requires Enabled(s, step) && !Registers(s, step)
    ensures Apply(s, step).visited == s.visited && Apply(s, step).visitedList == s.visitedList
  {
    if Caller(step).None? {
      BackgroundLists(s, step);
    } else if step.Compare? {
      CompareLists(s, step.r, step.verdict);
    }
  }

  lemma BackgroundLists(s: State, step: Step)
    requires Enabled(s, step) && Caller(step).None?
    ensures Apply(s, step).visited == s.visited && Apply(s, step).visitedList == s.visitedList
  {
  }

  lemma CompareLists(s: State, r: nat, verdict: Verdict)
    requires Enabled(s, Compare(r, verdict))
    ensures Apply(s, Compare(r, verdict)).visited == s.visited
    ensures Apply(s, Compare(r, verdict)).visitedList == s.visitedList
  {
  }

  /** A call that drains names the target it has just made. */
  lemma DrainsKept(s: State, step: Step, r: nat)
    requires WaitInv(s) && Enabled(s, step)
    requires r in Apply(s, step).calls && Apply(s, step).calls[r].pc.Draining?
    ensures var s' := Apply(s, step);
            s'.calls[r].pc.t in s'.targets && s'.targets[s'.calls[r].pc.t].name == s'.calls[r].name
  {
    ApplyGrows(s, step);
    if Caller(step) == Some(r) {
      CallerDrains(s, step);
    } else if r in s.calls {
      OthersUntouched(s, step, r);
    } else {
      NewCallLocks(s, step, r);
    }
  }

  /** A call drains the target it has made or goes on draining the one it has. */
  lemma CallerDrains(s: State, step: Step)
    requires Enabled(s, step) && Caller(step).Some? && step.r in Apply(s, step).calls
    requires Apply(s, step).calls[step.r].pc.Draining?
    ensures var s', r := Apply(s, step), step.r;
            && s'.calls[r].name == s.calls[r].name
            && (s'.calls[r].pc == s.calls[r].pc
                || (s'.calls[r].pc.t in s'.targets && s'.targets[s'.calls[r].pc.t].name == s.calls[r].name))
  {
    if step.Compare? {
      CompareNeverDrains(s, step.r, step.verdict);
    }
  }

  lemma CompareNeverDrains(s: State, r: nat, verdict: Verdict)
    requires Enabled(s, Compare(r, verdict))
    ensures r in Apply(s, Compare(r, verdict)).calls && !Apply(s, Compare(r, verdict)).calls[r].pc.Draining?
  {
  }

  lemma NewCallLocks(s: State, step: Step, r: nat)
    requires Enabled(s, step) && r in Apply(s, step).calls && r !in s.calls
    ensures Apply(s, step).calls[r].pc.Locking?
  {
    if Caller(step).None? {
      BackgroundCalls(s, step);
    } else {
      CallerCalls(s, step);
    }

  }

  /** What registering a target adds to the lists. */
  predicate Registered(s: State, s': State, name: string, t: Id) {
    && s'.visited == s.visited[name := Listed(s, name) + [t]] && s'.visitedList == s.visitedList + [t]
    && t in s'.targets && s'.targets[t].name == name
  }

  lemma CreateRegisters(s: State, r: nat, t: Id)
    requires Enabled(s, Create(r, t)) && r !in s.subs
    ensures Registered(s, Apply(s, Create(r, t)), s.calls[r].name, t)
  {
  }

  lemma DrainEndRegisters(s: State, r: nat)
    requires ListsTargets(s) && Enabled(s, DrainEnd(r))
    ensures Registered(s, Apply(s, DrainEnd(r)), s.calls[r].name, s.calls[r].pc.t)
  {
  }

  predicate ListsNamed(s: State) {
    forall n, i :: n in s.visited && 0 <= i < |s.visited[n]| ==>
      s.visited[n][i] in s.visitedList
      && s.visited[n][i] in s.targets && s.targets[s.visited[n][i]].name == n
  }

  lemma RegisteredNamed(s: State, s': State, name: string, t: Id)
    requires ListsNamed(s) && Grows(s, s') && Registered(s, s', name, t)
    ensures ListsNamed(s')
  {
    forall n, i | n in s'.visited && 0 <= i < |s'.visited[n]|
      ensures s'.visited[n][i] in s'.visitedList
              && s'.visited[n][i] in s'.targets && s'.targets[s'.visited[n][i]].name == n
    {
      if n == name && i == |Listed(s, name)| {
        assert s'.visitedList[|s.visitedList|] == t;
      } else {
        assert n in s.visited && s.visited[n][i] == s'.visited[n][i];
      }
    }
  }

  lemma RegisterKeepsLists(s: State, step: Step)
    requires WaitInv(s) && Enabled(s, step) && Registers(s, step)
    ensures ListsNamed(Apply(s, step))
  {
    ApplyGrows(s, step);
    assert ListsNamed(s);
    if step.Create? {
      CreateRegisters(s, step.r, step.t);
      RegisteredNamed(s, Apply(s, step), s.calls[step.r].name, step.t);
    } else {
      DrainEndRegisters(s, step.r);
      RegisteredNamed(s, Apply(s, step), s.calls[step.r].name, s.calls[step.r].pc.t);
    }
  }

  lemma ListsKept(s: State, step: Step)
    requires WaitInv(s) && Enabled(s, step)
    ensures ListsTargets(Apply(s, step))
  {
    if Registers(s, step) {
      RegisterKeepsLists(s, step);
    } else {
      ListsSame(s, step);
      ApplyGrows(s, step);
    }
    forall r | r in Apply(s, step).calls && Apply(s, step).calls[r].pc.Draining? {
      DrainsKept(s, step, r);
    }
  }

  /** A step of call `r` takes the lock, releases it or leaves it, and `r` holds it accordingly. */
  predicate LockStep(s: State, s': State, r: nat) {
    && r in s'.calls
    && (HoldsLock(s'.calls[r].pc) <==> s'.lock == Some(r))
    && (s'.lock == s.lock || (s.lock.None? && s'.lock == Some(r)) || (s.lock == Some(r) && s'.lock.None?))
  }

  lemma WaiterLock(s: State, step: Step)
    requires LockOwned(s) && Enabled(s, step) && Caller(step).Some? && !HoldsLock(s.calls[step.r].pc)
    ensures LockStep(s, Apply(s, step), step.r)
  {
  }

  lemma HolderLock(s: State, step: Step)
    requires LockOwned(s) && Enabled(s, step) && Caller(step).Some? && HoldsLock(s.calls[step.r].pc)
    ensures LockStep(s, Apply(s, step), step.r)
  {
    match step
    case Compare(r, verdict) => CompareLock(s, r, verdict);
    case Create(r, t) => CreateLock(s, r, t);
    case DrainEnd(r) => DrainEndLock(s, r);
    case _ =>
  }

  lemma CompareLock(s: State, r: nat, verdict: Verdict)
    requires LockOwned(s) && Enabled(s, Compare(r, verdict))
    ensures LockStep(s, Apply(s, Compare(r, verdict)), r)
  {
  }

  lemma CreateLock(s: State, r: nat, t: Id)
    requires LockOwned(s) && Enabled(s, Create(r, t))
    ensures LockStep(s, Apply(s, Create(r, t)), r)
  {
  }

  lemma DrainEndLock(s: State, r: nat)
    requires LockOwned(s) && Enabled(s, DrainEnd(r))
    ensures LockStep(s, Apply(s, DrainEnd(r)), r)
  {
  }

  lemma LockMoves(s: State, step: Step)
    requires LockOwned(s) && Enabled(s, step)
    ensures Caller(step).None? ==> Apply(s, step).lock == s.lock
    ensures Caller(step).Some? ==> LockStep(s, Apply(s, step), step.r)
  {
    if Caller(step).Some? {
      if HoldsLock(s.calls[step.r].pc) {
        HolderLock(s, step);
      } else {
        WaiterLock(s, step);
      }
    }
  }

  lemma LockKept(s: State, step: Step)
    requires LockOwned(s) && Enabled(s, step)
    ensures LockOwned(Apply(s, step))
  {
    var s' := Apply(s, step);
    LockMoves(s, step);
    forall r | r in s.calls && Caller(step) != Some(r) {
      OthersUntouched(s, step, r);
    }
  }

  lemma SettledSoFar(s: State, c: Call, list: seq<Id>, n: nat)
    requires n < |list| && AllSettled(s, c, list[..n]) && Settled(s, c, list[n])
    ensures AllSettled(s, c, list[..n + 1])
  {
    assert list[..n + 1] == list[..n] + [list[n]];
  }

  lemma LookWaits(s: State, r: nat)
    requires WaitInv(s) && Enabled(s, Look(r))
    ensures CallWaits(Apply(s, Look(r)), Apply(s, Look(r)).calls[r])
  {
    var c := s.calls[r];
    assert CallWaits(s, c);
    assert Listed(s, c.name)[..|Listed(s, c.name)|] == Listed(s, c.name);
  }

  lemma ElementWaits(s: State, step: Step)
    requires WaitInv(s) && Enabled(s, step) && (step.WaitSkip? || step.WaitRecv? || step.WaitDone?)
    ensures CallWaits(Apply(s, step), Apply(s, step).calls[step.r])
  {
    var s' := Apply(s, step);
    var c, c' := s.calls[step.r], s'.calls[step.r];
    assert CallWaits(s, c);
    assert Listed(s', c.name) == Listed(s, c.name);
    assert AllSettled(s', c', c.pc.snap[..c.pc.k]);
    if c'.pc.k != c.pc.k {
      SettledSoFar(s', c', c.pc.snap, c.pc.k);
    }
  }

  lemma WaitEndWaits(s: State, r: nat)
    requires WaitInv(s) && Enabled(s, WaitEnd(r))
    ensures CallWaits(Apply(s, WaitEnd(r)), Apply(s, WaitEnd(r)).calls[r])
  {
    var c := s.calls[r];
    assert CallWaits(s, c);
    assert Listed(s, c.name)[..|c.pc.snap|] == c.pc.snap[..|c.pc.snap|];
  }

  lemma HolderWaits(s: State, step: Step)
    requires WaitInv(s) && Enabled(s, step)
    requires Caller(step).Some? && HoldsLock(s.calls[step.r].pc)
    ensures CallWaits(Apply(s, step), Apply(s, step).calls[step.r])
  {
    var c := s.calls[step.r];
    assert CallWaits(s, c);
    if step.Compare? {
      CompareWaits(s, step.r, step.verdict);
    }
  }

  lemma CompareWaits(s: State, r: nat, verdict: Verdict)
    requires Enabled(s, Compare(r, verdict)) && CallWaits(s, s.calls[r])
    ensures CallWaits(Apply(s, Compare(r, verdict)), Apply(s, Compare(r, verdict)).calls[r])
  {
    var c := s.calls[r];
    assert Settled(s, c, Listed(s, c.name)[c.pc.k]);
    assert Listed(Apply(s, Compare(r, verdict)), c.name) == Listed(s, c.name);
  }

  lemma CallerWaits(s: State, step: Step)
    requires WaitInv(s) && Enabled(s, step) && Caller(step).Some?
    ensures CallWaits(Apply(s, step), Apply(s, step).calls[step.r])
  {
    match step
    case Look(r) => LookWaits(s, r);
    case WaitSkip(r) => ElementWaits(s, step);
    case WaitRecv(r) => ElementWaits(s, step);
    case WaitDone(r) => ElementWaits(s, step);
    case WaitEnd(r) => WaitEndWaits(s, r);
    case WaitCancel(r) =>
    case _ => HolderWaits(s, step);
  }

  lemma WaitKept(s: State, step: Step)
    requires WaitInv(s) && Enabled(s, step)
    ensures WaitInv(Apply(s, step))
  {
    ListsKept(s, step);
    LockKept(s, step);
    forall r | r in Apply(s, step).calls {
      CallWaitsKept(s, step, r);
    }
  }

  lemma CallWaitsKept(s: State, step: Step, r: nat)
    requires WaitInv(s) && Enabled(s, step) && r in Apply(s, step).calls
    ensures CallWaits(Apply(s, step), Apply(s, step).calls[r])
  {
    if Caller(step) == Some(r) {
      CallerWaits(s, step);
    } else if r in s.calls {
      OtherWaits(s, step, r);
    } else {
      NewCallWaits(s, step, r);
    }
  }

  lemma OtherWaits(s: State, step: Step, r: nat)
    requires WaitInv(s) && Enabled(s, step) && r in s.calls && Caller(step) != Some(r)
    ensures r in Apply(s, step).calls && CallWaits(Apply(s, step), Apply(s, step).calls[r])
  {
    OthersUntouched(s, step, r);
    ApplyGrows(s, step);
    HeldListSame(s, step, r);
    assert CallWaits(s, s.calls[r]);
    GrowthKeepsWaits(s, Apply(s, step), s.calls[r]);
  }

  lemma NewCallWaits(s: State, step: Step, r: nat)
    requires Enabled(s, step) && r in Apply(s, step).calls && r !in s.calls
    ensures CallWaits(Apply(s, step), Apply(s, step).calls[r])
  {
    if Caller(step).None? {
      BackgroundCalls(s, step);
    } else {
      CallerCalls(s, step);
    }
  }

  /** While a call holds the lock, no other call extends a list. */
  lemma HeldListSame(s: State, step: Step, r: nat)
    requires LockOwned(s) && Enabled(s, step) && r in s.calls && Caller(step) != Some(r)
    ensures HoldsLock(s.calls[r].pc) ==> Apply(s, step).visited == s.visited
  {
    if Registers(s, step) {
      assert HoldsLock(s.calls[step.r].pc);
    } else {
      ListsSame(s, step);
    }
  }
}
