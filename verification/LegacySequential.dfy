/**
 The legacy collection under a sequential conversion: the target being converted makes one
 request at a time and waits for it, while the subscription goroutines keep running freely.
 */
module LegacySequential {
  import opened Options
  import opened RequestGraph
  import opened LegacyVisited
  import opened LegacyAncestry

  /** `stack` is the chain of targets being converted, `active` the request now running. */
  datatype Conversion = Conversion(s: State, stack: seq<Id>, active: Option<nat>)

  const START := Conversion(INIT, [], None)

  function Top(q: Conversion): Id
    requires q.stack != []
  {
    q.stack[|q.stack| - 1]
  }

  predicate SeqEnabled(q: Conversion, step: Step) {
    && Enabled(q.s, step)
    && match step
       case StartRoot(r, name) => q.active.None? && q.stack == []
       case StartChild(r, p, name, order) => q.active.None? && q.stack != [] && p == Top(q)
       case Finish(t) => q.active.None? && q.stack != [] && t == Top(q)
       case _ => Caller(step).Some? ==> q.active == Caller(step)
  }

  function SeqApply(q: Conversion, step: Step): Conversion
    requires SeqEnabled(q, step)
  {
    var s' := Apply(q.s, step);
    match step
    case StartRoot(r, name) => Conversion(s', q.stack, Some(r))
    case StartChild(r, p, name, order) => Conversion(s', q.stack, Some(r))
    case Finish(t) => Conversion(s', q.stack[..|q.stack| - 1], None)
    case _ =>
      if Caller(step).Some? && s'.calls[step.r].pc.Returned? then
        var o := s'.calls[step.r].pc.outcome;
        Conversion(s', if o.Fresh? then q.stack + [o.t] else q.stack, None)
      else
        Conversion(s', q.stack, q.active)
  }

  function SeqRun(steps: seq<Step>): Option<Conversion> {
    if steps == [] then Some(START)
    else
      var before := SeqRun(steps[..|steps| - 1]);
      if before.Some? && SeqEnabled(before.value, steps[|steps| - 1])
      then Some(SeqApply(before.value, steps[|steps| - 1]))
      else None
  }

  // ----- The invariant -----

  predicate OnStack(s: State, t: Id, below: seq<Id>) {
    t in s.targets && t in s.visitedList && !s.targets[t].done && s.targets[t].dependentIDs == Elements(below)
  }

  predicate StackInv(q: Conversion) {
    && NoRepeats(q.stack)
    && (forall i :: 0 <= i < |q.stack| ==> OnStack(q.s, q.stack[i], q.stack[..i]))
    && (forall t :: t in q.s.targets && t in q.s.visitedList && !q.s.targets[t].done ==> t in q.stack)
  }

  /** No ID is on its way to an unfinished target. */
  predicate QuietTarget(x: Target) {
    x.updater.Idle? && (!x.done ==> x.incoming == [])
  }

  predicate QuietSub(s: State, sub: Subscription) {
    match sub.sink
    case None => sub.hand.None?
    case Some(t) => t in s.targets && (!s.targets[t].done ==> sub.buf == [] && sub.hand.None?)
  }

  predicate QuietInv(s: State) {
    && (forall t :: t in s.targets ==> QuietTarget(s.targets[t]))
    && (forall r :: r in s.subs ==> QuietSub(s, s.subs[r]))
  }

  predicate Partition(buf: seq<Id>, rest: set<Id>, whole: set<Id>) {
    NoRepeats(buf) && Elements(buf) !! rest && Elements(buf) + rest == whole
  }

  /** The running request's subscription, with what it has taken out, carries the whole stack. */
  predicate Carries(s: State, c: Call, buf: seq<Id>, stack: seq<Id>) {
    match c.pc
    case Locking(n) => Partition(buf, c.dependents, Elements(stack))
    case Waiting(snap, k) => Partition(buf, c.dependents, Elements(stack))
    case PuttingBack(todo) => Partition(buf, todo, Elements(stack))
    case Comparing(k) => Partition(buf, {}, Elements(stack))
    case Draining(t) =>
      t in s.targets && t !in s.visitedList && !s.targets[t].done
      && Partition(buf, s.targets[t].dependentIDs, Elements(stack))
    case Returned(o) => false
  }

  /** In sequential conversion nobody extends the list a request is looking at. */
  predicate SnapshotCurrent(s: State, r: nat) {
    r in s.calls && (s.calls[r].pc.Waiting? ==> s.calls[r].pc.snap == Listed(s, s.calls[r].name))
  }

  ghost predicate ActiveInv(q: Conversion) {
    && (forall r: nat :: Running(q.s, r) ==> q.active == Some(r))
    && (q.active.Some? ==>
          var r := q.active.value;
          Running(q.s, r) && SnapshotCurrent(q.s, r)
          && (if q.stack == [] then
                r !in q.s.subs && q.s.calls[r].dependents == {} && !q.s.calls[r].pc.Draining?
                && (q.s.calls[r].pc.PuttingBack? ==> q.s.calls[r].pc.todo == {})
              else
                && r in q.s.subs && q.s.subs[r].sink.None?
                && q.s.calls[r].dependents <= Elements(q.stack)
                && Carries(q.s, q.s.calls[r], q.s.subs[r].buf, q.stack)))
  }

  ghost predicate SeqInv(q: Conversion) {
    WaitInv(q.s) && StackInv(q) && QuietInv(q.s) && ActiveInv(q)
  }

  // ----- Small facts about sequences of IDs -----

  lemma ElementsAppend(a: seq<Id>, x: Id)
    ensures Elements(a + [x]) == Elements(a) + {x}
    ensures x !in a && NoRepeats(a) ==> NoRepeats(a + [x])
  {
    assert forall y :: y in Elements(a + [x]) <==> y in Elements(a) || y == x by {
      forall y | y in Elements(a) ensures y in Elements(a + [x]) {
        var i :| 0 <= i < |a| && a[i] == y;
        assert (a + [x])[i] == y;
      }
      assert (a + [x])[|a|] == x;
    }
  }

  lemma ElementsPrepend(a: seq<Id>, x: Id)
    ensures Elements([x] + a) == Elements(a) + {x}
    ensures x !in a && NoRepeats(a) ==> NoRepeats([x] + a)
  {
    var b := [x] + a;
    assert b[0] == x;
    forall y | y in Elements(a) ensures y in Elements(b) {
      var i :| 0 <= i < |a| && a[i] == y;
      assert b[i + 1] == y;
    }
  }

  lemma ElementsHead(a: seq<Id>)
    requires a != [] && NoRepeats(a)
    ensures Elements(a[1..]) == Elements(a) - {a[0]} && NoRepeats(a[1..]) && a[0] in Elements(a)
  {
    assert forall y :: y in Elements(a) && y != a[0] ==> y in Elements(a[1..]) by {
      forall y | y in Elements(a) && y != a[0] ensures y in Elements(a[1..]) {
        var i :| 0 <= i < |a| && a[i] == y;
        assert a[1..][i - 1] == y;
      }
    }
  }

  lemma {:induction false} ElementsCount(a: seq<Id>)
    requires NoRepeats(a)
    ensures |Elements(a)| == |a|
  {
    if a != [] {
      ElementsHead(a);
      ElementsCount(a[1..]);
      assert Elements(a) == Elements(a[1..]) + {a[0]};
    }
  }

  lemma MemberIsElement(a: seq<Id>, x: Id)
    ensures x in a <==> x in Elements(a)
  {
  }

  lemma PartitionTakes(buf: seq<Id>, rest: set<Id>, whole: set<Id>)
    requires buf != [] && Partition(buf, rest, whole)
    ensures Partition(buf[1..], rest + {buf[0]}, whole)
  {
    ElementsHead(buf);
  }

  lemma PartitionPuts(buf: seq<Id>, rest: set<Id>, whole: set<Id>, x: Id)
    requires x in rest && Partition(buf, rest, whole)
    ensures Partition(buf + [x], rest - {x}, whole)
  {
    MemberIsElement(buf, x);
    ElementsAppend(buf, x);
  }

  lemma PartitionCount(buf: seq<Id>, rest: set<Id>, stack: seq<Id>)
    requires NoRepeats(stack) && Partition(buf, rest, Elements(stack))
    ensures |buf| + |rest| == |stack|
  {
    ElementsCount(buf);
    ElementsCount(stack);
  }

  // ----- Every sequential step keeps the invariant -----

  lemma QuietTargetKept(q: Conversion, step: Step, t: Id)
    requires SeqInv(q) && SeqEnabled(q, step) && t in Apply(q.s, step).targets
    ensures QuietTarget(Apply(q.s, step).targets[t])
  {
    OnlyTouched(q.s, step);
    if t in q.s.targets {
      assert QuietTarget(q.s.targets[t]);
      if step.MonitorSend? {
        assert QuietSub(q.s, q.s.subs[step.r]);
      }
    }
  }

  lemma QuietSubKept(q: Conversion, step: Step, r: nat)
    requires SeqInv(q) && SeqEnabled(q, step) && r in Apply(q.s, step).subs
    ensures QuietSub(Apply(q.s, step), Apply(q.s, step).subs[r])
  {
    NothingSent(q, step);
    if TouchedSub(q.s, step) == Some(r) {
      QuietSubTouched(q, step, r);
    } else {
      OnlyTouchedSub(q.s, step);
      assert QuietSub(q.s, q.s.subs[r]);
      ApplyGrows(q.s, step);
    }
  }

  /** No background goroutine holds an ID for a target. */
  lemma NothingSent(q: Conversion, step: Step)
    requires SeqInv(q) && SeqEnabled(q, step)
    ensures !step.UpdaterSend? && !step.UpdaterLock? && !step.UpdaterEnd?
  {
    assert forall t :: t in q.s.targets ==> QuietTarget(q.s.targets[t]) && q.s.targets[t].updater.Idle?;
  }

  lemma QuietSubTouched(q: Conversion, step: Step, r: nat)
    requires SeqInv(q) && SeqEnabled(q, step) && TouchedSub(q.s, step) == Some(r) && r in Apply(q.s, step).subs
    requires !step.UpdaterSend?
    ensures QuietSub(Apply(q.s, step), Apply(q.s, step).subs[r])
  {
    if r in q.s.subs {
      assert QuietSub(q.s, q.s.subs[r]);
    }
  }

  predicate Unfinished(s: State, t: Id) {
    t in s.targets && t in s.visitedList && !s.targets[t].done
  }

  lemma StackFrame(q: Conversion, q': Conversion)
    requires StackInv(q) && q'.stack == q.stack
    requires forall t :: Unfinished(q'.s, t) ==> Unfinished(q.s, t)
    requires forall t :: Unfinished(q.s, t) ==>
               Unfinished(q'.s, t) && q'.s.targets[t].dependentIDs == q.s.targets[t].dependentIDs
    ensures StackInv(q')
  {
    forall i | 0 <= i < |q.stack| ensures OnStack(q'.s, q.stack[i], q.stack[..i]) {
      assert OnStack(q.s, q.stack[i], q.stack[..i]);
      assert Unfinished(q.s, q.stack[i]);
    }
    forall t | t in q'.s.targets && t in q'.s.visitedList && !q'.s.targets[t].done ensures t in q.stack {
      assert Unfinished(q'.s, t);
    }
  }

  /** Steps that neither register nor finish a target leave the stack as it was. */
  lemma StackSame(q: Conversion, step: Step)
    requires SeqInv(q) && SeqEnabled(q, step) && !Registers(q.s, step) && !step.Finish?
    ensures StackInv(SeqApply(q, step))
  {
    var q' := SeqApply(q, step);
    ListsSame(q.s, step);
    FreshOnlyByRegister(q.s, step);
    assert q'.stack == q.stack;
    forall t | Unfinished(q.s, t)
      ensures Unfinished(q'.s, t) && q'.s.targets[t].dependentIDs == q.s.targets[t].dependentIDs
    {
      StackTargetSame(q, step, t);
    }
    forall t | Unfinished(q'.s, t) ensures Unfinished(q.s, t) {
      assert t in q.s.visitedList;
      ListedExist(q.s, t);
      ApplyGrows(q.s, step);
    }
    StackFrame(q, q');
  }

  lemma ListedExist(s: State, t: Id)
    requires ListsTargets(s) && t in s.visitedList
    ensures t in s.targets
  {
  }

  lemma FreshOnlyByRegister(s: State, step: Step)
    requires Enabled(s, step) && !Registers(s, step)
    ensures Caller(step).Some? ==> step.r in Apply(s, step).calls
    ensures Caller(step).Some? && Apply(s, step).calls[step.r].pc.Returned? ==>
              !Apply(s, step).calls[step.r].pc.outcome.Fresh?
  {
  }

  lemma StackTargetSame(q: Conversion, step: Step, t: Id)
    requires SeqInv(q) && SeqEnabled(q, step) && !step.Finish?
    requires t in q.s.targets && t in q.s.visitedList && !q.s.targets[t].done
    ensures t in Apply(q.s, step).targets
    ensures !Apply(q.s, step).targets[t].done
    ensures Apply(q.s, step).targets[t].dependentIDs == q.s.targets[t].dependentIDs
  {
    ApplyGrows(q.s, step);
    NothingSent(q, step);
    if step.Drain? || step.DrainEnd? {
      DrainedIsNew(q, step);
      OnlyTouchedTarget(q.s, step);
    } else if TouchedTarget(q.s, step) == Some(t) {
      StackTargetTouched(q, step, t);
    } else {
      OnlyTouchedTarget(q.s, step);
    }
  }

  lemma DrainedIsNew(q: Conversion, step: Step)
    requires SeqInv(q) && SeqEnabled(q, step) && (step.Drain? || step.DrainEnd?)
    ensures q.s.calls[step.r].pc.t !in q.s.visitedList
  {
    assert Carries(q.s, q.s.calls[step.r], q.s.subs[step.r].buf, q.stack);
  }

  lemma StackTargetTouched(q: Conversion, step: Step, t: Id)
    requires SeqInv(q) && SeqEnabled(q, step) && TouchedTarget(q.s, step) == Some(t)
    requires !step.Finish? && !step.Drain? && !step.DrainEnd? && !step.UpdaterLock?
    requires t in q.s.targets && !q.s.targets[t].done
    ensures !Apply(q.s, step).targets[t].done
    ensures Apply(q.s, step).targets[t].dependentIDs == q.s.targets[t].dependentIDs
  {
  }

  lemma StackPops(q: Conversion, step: Step)
    requires SeqInv(q) && SeqEnabled(q, step) && step.Finish?
    ensures StackInv(SeqApply(q, step))
  {
    var q' := SeqApply(q, step);
    OnlyTouched(q.s, step);
    forall i | 0 <= i < |q'.stack| ensures OnStack(q'.s, q'.stack[i], q'.stack[..i]) {
      assert OnStack(q.s, q.stack[i], q.stack[..i]);
      assert q'.stack[..i] == q.stack[..i];
    }
    forall t | t in q'.s.targets && t in q'.s.visitedList && !q'.s.targets[t].done ensures t in q'.stack {
      assert t in q.stack && t != Top(q);
    }
  }

  lemma PushedTarget(q: Conversion, step: Step) returns (t: Id)
    requires SeqInv(q) && SeqEnabled(q, step) && Registers(q.s, step)
    ensures
      var q' := SeqApply(q, step);
      && t !in q.s.visitedList && q'.stack == q.stack + [t] && q'.s.visitedList == q.s.visitedList + [t]
      && t in q'.s.targets && !q'.s.targets[t].done && q'.s.targets[t].dependentIDs == Elements(q.stack)
      && (forall x :: x != t && x in q'.s.targets ==> x in q.s.targets && q'.s.targets[x] == q.s.targets[x])
      && (forall x :: x != t && x in q.s.targets ==> x in q'.s.targets)
  {
    t := if step.Create? then step.t else q.s.calls[step.r].pc.t;
    if step.Create? {
      assert t !in q.s.visitedList by {
        if t in q.s.visitedList { ListedExist(q.s, t); }
      }
    }
  }

  lemma StackPushes(q: Conversion, step: Step)
    requires SeqInv(q) && SeqEnabled(q, step) && Registers(q.s, step)
    ensures StackInv(SeqApply(q, step))
  {
    var q' := SeqApply(q, step);
    var t := PushedTarget(q, step);
    PushFrame(q, q', t);
  }

  lemma PushFrame(q: Conversion, q': Conversion, t: Id)
    requires StackInv(q)
    requires t !in q.s.visitedList && q'.stack == q.stack + [t] && q'.s.visitedList == q.s.visitedList + [t]
    requires t in q'.s.targets && !q'.s.targets[t].done && q'.s.targets[t].dependentIDs == Elements(q.stack)
    requires forall x :: x != t && x in q'.s.targets ==> x in q.s.targets && q'.s.targets[x] == q.s.targets[x]
    requires forall x :: x != t && x in q.s.targets ==> x in q'.s.targets
    ensures StackInv(q')
  {
    assert t !in q.stack by {
      forall i | 0 <= i < |q.stack| ensures q.stack[i] != t {
        assert OnStack(q.s, q.stack[i], q.stack[..i]);
      }
    }
    ElementsAppend(q.stack, t);
    forall i | 0 <= i < |q'.stack| ensures OnStack(q'.s, q'.stack[i], q'.stack[..i]) {
      assert q'.stack[..i] == q.stack[..i];
      if i < |q.stack| {
        assert OnStack(q.s, q.stack[i], q.stack[..i]);
      } else {
        assert q'.stack[..i] == q.stack;
      }
    }
    forall x | x in q'.s.targets && x in q'.s.visitedList && !q'.s.targets[x].done ensures x in q'.stack {
      if x != t {
        assert x in q.stack;
      }
    }
  }

  lemma StackKept(q: Conversion, step: Step)
    requires SeqInv(q) && SeqEnabled(q, step)
    ensures StackInv(SeqApply(q, step))
  {
    if Registers(q.s, step) {
      StackPushes(q, step);
    } else if step.Finish? {
      StackPops(q, step);
    } else {
      StackSame(q, step);
    }
  }

  // ----- The running request -----

  /** A background step leaves the running request's subscription alone. */
  lemma BackgroundLeavesActive(q: Conversion, step: Step)
    requires SeqInv(q) && SeqEnabled(q, step) && q.active.Some? && Caller(step).None?
    ensures
      var r, s' := q.active.value, Apply(q.s, step);
      && s'.visited == q.s.visited && s'.visitedList == q.s.visitedList
      && r in s'.calls && s'.calls[r] == q.s.calls[r]
      && (r in s'.subs <==> r in q.s.subs) && (r in q.s.subs ==> s'.subs[r] == q.s.subs[r])
      && (forall t :: t in q.s.targets && !q.s.targets[t].done ==>
            t in s'.targets && !s'.targets[t].done && s'.targets[t].dependentIDs == q.s.targets[t].dependentIDs)
  {
    var r := q.active.value;
    OthersUntouched(q.s, step, r);
    OnlyTouched(q.s, step);
    ListsSame(q.s, step);
    forall t | t in q.s.targets {
      IdleUpdater(q, t);
    }
  }

  lemma IdleUpdater(q: Conversion, t: Id)
    requires SeqInv(q) && t in q.s.targets
    ensures q.s.targets[t].updater.Idle? && (!q.s.targets[t].done ==> q.s.targets[t].incoming == [])
  {
    assert QuietTarget(q.s.targets[t]);
  }

  lemma BackgroundKeepsActive(q: Conversion, step: Step)
    requires SeqInv(q) && SeqEnabled(q, step) && q.active.Some? && Caller(step).None?
    ensures ActiveInv(SeqApply(q, step))
  {
    BackgroundLeavesActive(q, step);
    var q' := SeqApply(q, step);
    forall r: nat | Running(q'.s, r) ensures q'.active == Some(r) {
      assert Running(q.s, r);
    }
  }

  lemma StartsKeepActive(q: Conversion, step: Step)
    requires SeqInv(q) && SeqEnabled(q, step) && (step.StartRoot? || step.StartChild?)
    ensures ActiveInv(SeqApply(q, step))
  {
    var q' := SeqApply(q, step);
    forall r: nat | Running(q'.s, r) ensures q'.active == Some(r) {
      assert r != step.r ==> Running(q.s, r);
    }
    if step.StartChild? {
      FirstBuffer(q, step.order);
    }
  }

  /** What a new subscription of the top of the stack is filled with: the whole stack. */
  lemma FirstBuffer(q: Conversion, order: seq<Id>)
    requires StackInv(q) && q.stack != []
    requires NoRepeats(order) && Top(q) in q.s.targets && Elements(order) == q.s.targets[Top(q)].dependentIDs
    ensures Partition([Top(q)] + order, {}, Elements(q.stack))
  {
    var n := |q.stack| - 1;
    assert OnStack(q.s, q.stack[n], q.stack[..n]);
    assert q.stack == q.stack[..n] + [Top(q)];
    ElementsAppend(q.stack[..n], Top(q));
    var buf := [Top(q)] + order;
    assert Top(q) !in order by {
      MemberIsElement(order, Top(q));
      MemberIsElement(q.stack[..n], Top(q));
    }
    ElementsPrepend(order, Top(q));
    assert Elements(buf) == Elements(q.stack);
  }

  lemma CallerKeepsActive(q: Conversion, step: Step)
    requires SeqInv(q) && SeqEnabled(q, step) && Caller(step).Some?
    ensures ActiveInv(SeqApply(q, step))
  {
    CallerCalls(q.s, step);
    OnlyCallerRuns(q, step);
    CallerMoves(q, step);
    if !Apply(q.s, step).calls[step.r].pc.Returned? {
      SnapshotKept(q, step);
      if q.stack == [] {
        RootStepKeeps(q, step);
      } else {
        ChildStepKeeps(q, step);
      }
    }
  }

  /** While a request runs, nothing is pushed or popped; when it returns, no request runs. */
  lemma CallerMoves(q: Conversion, step: Step)
    requires SeqEnabled(q, step) && Caller(step).Some? && step.r in Apply(q.s, step).calls
    ensures var q', s' := SeqApply(q, step), Apply(q.s, step);
            if s'.calls[step.r].pc.Returned? then q'.s == s' && q'.active == None
            else q' == Conversion(s', q.stack, q.active) && q.active == Some(step.r)
  {
  }

  lemma OnlyCallerRuns(q: Conversion, step: Step)
    requires SeqInv(q) && SeqEnabled(q, step) && Caller(step).Some?
    ensures forall x: nat :: Running(Apply(q.s, step), x) ==> x == step.r
  {
    CallerCalls(q.s, step);
    forall x: nat | Running(Apply(q.s, step), x) ensures x == step.r {
      assert x != step.r ==> Running(q.s, x);
    }
  }

  lemma SnapshotKept(q: Conversion, step: Step)
    requires SeqInv(q) && SeqEnabled(q, step) && Caller(step).Some? && step.r in Apply(q.s, step).calls
    requires !Apply(q.s, step).calls[step.r].pc.Returned?
    ensures SnapshotCurrent(Apply(q.s, step), step.r)
  {
    if HoldsLock(q.s.calls[step.r].pc) {
      HolderNeverWaits(q.s, step);
    } else {
      WaiterSnapshot(q, step);
    }
  }

  lemma HolderNeverWaits(s: State, step: Step)
    requires Enabled(s, step) && Caller(step).Some? && HoldsLock(s.calls[step.r].pc) && step.r in Apply(s, step).calls
    ensures !Apply(s, step).calls[step.r].pc.Waiting?
  {
    if step.Compare? {
      CompareNeverWaits(s, step.r, step.verdict);
    }
  }

  lemma CompareNeverWaits(s: State, r: nat, verdict: Verdict)
    requires Enabled(s, Compare(r, verdict))
    ensures r in Apply(s, Compare(r, verdict)).calls && !Apply(s, Compare(r, verdict)).calls[r].pc.Waiting?
  {
  }

  lemma WaiterSnapshot(q: Conversion, step: Step)
    requires SeqInv(q) && SeqEnabled(q, step) && Caller(step).Some? && !HoldsLock(q.s.calls[step.r].pc)
    ensures SnapshotCurrent(Apply(q.s, step), step.r)
  {
    assert SnapshotCurrent(q.s, step.r);
    assert Listed(Apply(q.s, step), q.s.calls[step.r].name) == Listed(q.s, q.s.calls[step.r].name);
  }

  lemma RootStepKeeps(q: Conversion, step: Step)
    requires SeqInv(q) && SeqEnabled(q, step) && Caller(step).Some? && q.stack == []
    ensures
      var s' := Apply(q.s, step);
      && step.r in s'.calls
      && var c := s'.calls[step.r];
         step.r !in s'.subs && c.dependents == {} && !c.pc.Draining? && (c.pc.PuttingBack? ==> c.pc.todo == {})
  {
    if step.Compare? {
      RootCompareKeeps(q, step.r, step.verdict);
    }
  }

  lemma RootCompareKeeps(q: Conversion, r: nat, verdict: Verdict)
    requires SeqInv(q) && SeqEnabled(q, Compare(r, verdict)) && q.stack == []
    ensures
      var s' := Apply(q.s, Compare(r, verdict));
      r in s'.calls && r !in s'.subs && s'.calls[r].dependents == {}
      && (s'.calls[r].pc.Comparing? || s'.calls[r].pc.Returned?)
  {
  }

  ghost predicate ChildKept(q: Conversion, s': State, r: nat) {
    && r in s'.subs && r in s'.calls && s'.subs[r].sink.None? && s'.calls[r].dependents <= Elements(q.stack)
    && Carries(s', s'.calls[r], s'.subs[r].buf, q.stack)
  }

  lemma ChildStepKeeps(q: Conversion, step: Step)
    requires SeqInv(q) && SeqEnabled(q, step) && Caller(step).Some? && q.stack != []
    requires step.r in Apply(q.s, step).calls && !Apply(q.s, step).calls[step.r].pc.Returned?
    ensures ChildKept(q, Apply(q.s, step), step.r)
  {
    if HoldsLock(q.s.calls[step.r].pc) {
      ChildHolderKeeps(q, step);
    } else {
      ChildWaiterKeeps(q, step);
    }
  }

  lemma ChildWaiterKeeps(q: Conversion, step: Step)
    requires SeqInv(q) && SeqEnabled(q, step) && Caller(step).Some? && q.stack != []
    requires !HoldsLock(q.s.calls[step.r].pc)
    requires step.r in Apply(q.s, step).calls && !Apply(q.s, step).calls[step.r].pc.Returned?
    ensures ChildKept(q, Apply(q.s, step), step.r)
  {
    assert Carries(q.s, q.s.calls[step.r], q.s.subs[step.r].buf, q.stack);
    match step
    case Look(r) => ChildLookKeeps(q, r);
    case WaitRecv(r) => ChildRecvKeeps(q, r);
    case _ =>
  }

  lemma ChildLookKeeps(q: Conversion, r: nat)
    requires SeqInv(q) && SeqEnabled(q, Look(r)) && q.stack != []
    ensures ChildKept(q, Apply(q.s, Look(r)), r)
  {
    assert Carries(q.s, q.s.calls[r], q.s.subs[r].buf, q.stack);
  }

  lemma ChildRecvKeeps(q: Conversion, r: nat)
    requires SeqInv(q) && SeqEnabled(q, WaitRecv(r)) && q.stack != []
    ensures ChildKept(q, Apply(q.s, WaitRecv(r)), r)
  {
    var c, buf := q.s.calls[r], q.s.subs[r].buf;
    assert Carries(q.s, c, buf, q.stack);
    PartitionTakes(buf, c.dependents, Elements(q.stack));
    MemberIsElement(buf, buf[0]);
  }

  lemma ChildHolderKeeps(q: Conversion, step: Step)
    requires SeqInv(q) && SeqEnabled(q, step) && Caller(step).Some? && q.stack != []
    requires HoldsLock(q.s.calls[step.r].pc)
    requires step.r in Apply(q.s, step).calls && !Apply(q.s, step).calls[step.r].pc.Returned?
    ensures ChildKept(q, Apply(q.s, step), step.r)
  {
    assert Carries(q.s, q.s.calls[step.r], q.s.subs[step.r].buf, q.stack);
    match step
    case PutBack(r, id) => ChildPutBackKeeps(q, r, id);
    case Compare(r, verdict) => ChildCompareKeeps(q, r, verdict);
    case Drain(r) => ChildDrainKeeps(q, r);
    case Create(r, t) => ChildCreateKeeps(q, r, t);
    case _ =>
  }

  lemma ChildPutBackKeeps(q: Conversion, r: nat, id: Id)
    requires SeqInv(q) && SeqEnabled(q, PutBack(r, id)) && q.stack != []
    ensures ChildKept(q, Apply(q.s, PutBack(r, id)), r)
  {
    var c, buf := q.s.calls[r], q.s.subs[r].buf;
    assert Carries(q.s, c, buf, q.stack);
    PartitionPuts(buf, c.pc.todo, Elements(q.stack), id);
  }

  lemma ChildCompareKeeps(q: Conversion, r: nat, verdict: Verdict)
    requires SeqInv(q) && SeqEnabled(q, Compare(r, verdict)) && q.stack != []
    ensures var s' := Apply(q.s, Compare(r, verdict));
            r in s'.calls && (s'.calls[r].pc.Returned? || ChildKept(q, s', r))
  {
    assert Carries(q.s, q.s.calls[r], q.s.subs[r].buf, q.stack);
  }

  lemma ChildDrainKeeps(q: Conversion, r: nat)
    requires SeqInv(q) && SeqEnabled(q, Drain(r)) && q.stack != []
    ensures ChildKept(q, Apply(q.s, Drain(r)), r)
  {
    var c, buf := q.s.calls[r], q.s.subs[r].buf;
    assert Carries(q.s, c, buf, q.stack);
    PartitionTakes(buf, q.s.targets[c.pc.t].dependentIDs, Elements(q.stack));
  }

  lemma ChildCreateKeeps(q: Conversion, r: nat, t: Id)
    requires SeqInv(q) && SeqEnabled(q, Create(r, t)) && q.stack != []
    ensures ChildKept(q, Apply(q.s, Create(r, t)), r)
  {
    assert Carries(q.s, q.s.calls[r], q.s.subs[r].buf, q.stack);
    assert t !in q.s.visitedList by {
      if t in q.s.visitedList { ListedExist(q.s, t); }
    }
  }

  lemma SeqStepKeeps(q: Conversion, step: Step)
    requires SeqInv(q) && SeqEnabled(q, step)
    ensures SeqInv(SeqApply(q, step))
  {
    WaitKept(q.s, step);
    StackKept(q, step);
    forall t | t in Apply(q.s, step).targets { QuietTargetKept(q, step, t); }
    forall r | r in Apply(q.s, step).subs { QuietSubKept(q, step, r); }
    ActiveKept(q, step);
  }

  lemma ActiveKept(q: Conversion, step: Step)
    requires SeqInv(q) && SeqEnabled(q, step)
    ensures ActiveInv(SeqApply(q, step))
  {
    if step.StartRoot? || step.StartChild? {
      StartsKeepActive(q, step);
    } else if Caller(step).Some? {
      CallerKeepsActive(q, step);
    } else if q.active.Some? {
      BackgroundKeepsActive(q, step);
    } else {
      forall r: nat | Running(Apply(q.s, step), r) ensures false {
        assert r in q.s.calls && Running(q.s, r);
      }
    }
  }

  lemma {:induction false} SeqRunsKeep(steps: seq<Step>)
    requires SeqRun(steps).Some?
    ensures SeqInv(SeqRun(steps).value)
  {
    if steps != [] {
      SeqRunsKeep(steps[..|steps| - 1]);
      SeqStepKeeps(SeqRun(steps[..|steps| - 1]).value, steps[|steps| - 1]);
    }
  }

  /** A sequential conversion is one of the collection's interleavings. */
  lemma {:induction false} SeqRunIsRun(steps: seq<Step>)
    requires SeqRun(steps).Some?
    ensures Run(steps) == Some(SeqRun(steps).value.s)
  {
    if steps != [] {
      SeqRunIsRun(steps[..|steps| - 1]);
    }
  }

  // ----- What sequential conversion guarantees -----

  lemma {:induction false} FreshId(used: set<Id>) returns (t: Id)
    ensures forall x :: x in used ==> x < t
  {
    if used == {} {
      t := 0;
    } else {
      var x :| x in used;
      var t0 := FreshId(used - {x});
      t := if x < t0 then t0 else x + 1;
      assert forall y :: y in used ==> y == x || y in used - {x};
    }
  }

  /** A step of the running request that needs no cancellation. */
  predicate Advances(q: Conversion, step: Step, r: nat) {
    SeqEnabled(q, step) && Caller(step) == Some(r) && !step.WaitCancel? && !step.DrainCancel?
  }

  lemma WaitAdvances(q: Conversion, r: nat) returns (step: Step)
    requires SeqInv(q) && q.active == Some(r) && q.s.calls[r].pc.Waiting?
    ensures Advances(q, step, r)
  {
    var c := q.s.calls[r];
    assert CallWaits(q.s, c);
    if c.pc.k == |c.pc.snap| {
      step := WaitEnd(r);
    } else {
      var t := Element(q.s, r);
      assert t == Listed(q.s, c.name)[c.pc.k];
      assert t in q.s.targets;
      if t in c.dependents {
        step := WaitSkip(r);
      } else if q.s.targets[t].done {
        step := WaitDone(r);
      } else {
        step := WaitRecv(r);
        assert t in q.stack;
        MemberIsElement(q.stack, t);
        assert Carries(q.s, c, q.s.subs[r].buf, q.stack);
      }
    }
  }

  lemma LookAdvances(q: Conversion, r: nat)
    requires SeqInv(q) && q.active == Some(r) && q.s.calls[r].pc.Locking?
    ensures Advances(q, Look(r), r)
  {
    assert q.s.lock.Some? ==> Running(q.s, q.s.lock.value);
  }

  lemma PutBackAdvances(q: Conversion, r: nat) returns (step: Step)
    requires SeqInv(q) && q.active == Some(r) && q.s.calls[r].pc.PuttingBack? && |q.stack| <= CAPACITY
    ensures Advances(q, step, r)
  {
    var todo := q.s.calls[r].pc.todo;
    if todo == {} {
      step := PutBackEnd(r);
    } else {
      var id :| id in todo;
      step := PutBack(r, id);
      assert Carries(q.s, q.s.calls[r], q.s.subs[r].buf, q.stack);
      PartitionCount(q.s.subs[r].buf, todo, q.stack);
      assert |todo| > 0;
    }
  }

  lemma CompareAdvances(q: Conversion, r: nat) returns (step: Step)
    requires SeqInv(q) && q.active == Some(r) && q.s.calls[r].pc.Comparing?
    ensures Advances(q, step, r)
  {
    var c := q.s.calls[r];
    assert CallWaits(q.s, c);
    if c.pc.k < |Listed(q.s, c.name)| {
      step := Compare(r, Different);
    } else {
      var t := FreshId(q.s.targets.Keys);
      step := Create(r, t);
    }
  }

  /** The running request always has a step it can take. */
  lemma RequestNeverBlocks(q: Conversion, r: nat) returns (step: Step)
    requires SeqInv(q) && q.active == Some(r) && |q.stack| <= CAPACITY
    ensures Advances(q, step, r)
  {
    match q.s.calls[r].pc
    case Locking(n) => LookAdvances(q, r); step := Look(r);
    case Waiting(snap, k) => step := WaitAdvances(q, r);
    case PuttingBack(todo) => step := PutBackAdvances(q, r);
    case Comparing(k) => step := CompareAdvances(q, r);
    case Draining(t) => step := if q.s.subs[r].buf == [] then DrainEnd(r) else Drain(r);
  }

  /** Progress of the running request: its phase, then what is left to do in that phase. */
  function Phase(s: State, r: nat): nat
    requires r in s.calls
  {
    match s.calls[r].pc
    case Locking(n) => if n == |Listed(s, s.calls[r].name)| then 4 else 6
    case Waiting(snap, k) => 5
    case PuttingBack(todo) => 3
    case Comparing(k) => 2
    case Draining(t) => 1
    case Returned(o) => 0
  }

  function Left(s: State, r: nat): int
    requires r in s.calls
  {
    var inBuf := if r in s.subs then |s.subs[r].buf| else 0;
    match s.calls[r].pc
    case Waiting(snap, k) => |snap| - k + inBuf
    case PuttingBack(todo) => |todo|
    case Comparing(k) => |Listed(s, s.calls[r].name)| - k
    case Draining(t) => inBuf
    case _ => 0
  }

  ghost predicate Descends(s: State, s': State, r: nat) {
    && r in s.calls && r in s'.calls && Left(s, r) >= 0
    && (Phase(s', r) < Phase(s, r) || (Phase(s', r) == Phase(s, r) && 0 <= Left(s', r) < Left(s, r)))
  }

  lemma WaitStepsDescend(q: Conversion, step: Step, r: nat)
    requires SeqInv(q) && SeqEnabled(q, step) && Caller(step) == Some(r) && q.s.calls[r].pc.Waiting?
    ensures Descends(q.s, Apply(q.s, step), r)
  {
    assert CallWaits(q.s, q.s.calls[r]);
    match step
    case WaitRecv(_) => RecvDescends(q.s, r);
    case WaitEnd(_) => EndDescends(q, r);
    case _ =>
  }

  lemma RecvDescends(s: State, r: nat)
    requires Enabled(s, WaitRecv(r)) && CallWaits(s, s.calls[r])
    ensures Descends(s, Apply(s, WaitRecv(r)), r)
  {
  }

  lemma EndDescends(q: Conversion, r: nat)
    requires SeqInv(q) && SeqEnabled(q, WaitEnd(r))
    ensures Descends(q.s, Apply(q.s, WaitEnd(r)), r)
  {
    assert SnapshotCurrent(q.s, r);
  }

  lemma HolderStepsDescend(s: State, step: Step, r: nat)
    requires Enabled(s, step) && Caller(step) == Some(r)
    requires CallWaits(s, s.calls[r]) && HoldsLock(s.calls[r].pc)
    ensures Descends(s, Apply(s, step), r)
  {
    match step
    case Compare(_, verdict) => CompareDescends(s, r, verdict);
    case Create(_, t) => CreateDescends(s, r, t);
    case Drain(_) => DrainDescends(s, r);
    case DrainEnd(_) => DrainEndDescends(s, r);
    case _ =>
  }

  lemma CompareDescends(s: State, r: nat, verdict: Verdict)
    requires Enabled(s, Compare(r, verdict))
    ensures Descends(s, Apply(s, Compare(r, verdict)), r)
  {
  }

  lemma DrainDescends(s: State, r: nat)
    requires Enabled(s, Drain(r))
    ensures Descends(s, Apply(s, Drain(r)), r)
  {
  }

  lemma DrainEndDescends(s: State, r: nat)
    requires Enabled(s, DrainEnd(r))
    ensures Descends(s, Apply(s, DrainEnd(r)), r)
  {
  }

  lemma CreateDescends(s: State, r: nat, t: Id)
    requires Enabled(s, Create(r, t))
    ensures Descends(s, Apply(s, Create(r, t)), r)
  {
  }

  /** Each step of the running request brings its return nearer. */
  lemma RequestStepsDescend(q: Conversion, step: Step, r: nat)
    requires SeqInv(q) && SeqEnabled(q, step) && Caller(step) == Some(r)
    ensures Descends(q.s, Apply(q.s, step), r)
  {
    assert Running(q.s, r);
    match q.s.calls[r].pc
    case Locking(n) =>
    case Waiting(snap, k) => WaitStepsDescend(q, step, r);
    case _ => HolderStepsDescend(q.s, step, r);
  }

  /** Background goroutines cannot push it back. */
  lemma BackgroundKeepsProgress(q: Conversion, step: Step, r: nat)
    requires SeqInv(q) && SeqEnabled(q, step) && q.active == Some(r) && Caller(step).None?
    ensures var s' := Apply(q.s, step);
            r in s'.calls && Phase(s', r) == Phase(q.s, r) && Left(s', r) == Left(q.s, r)
  {
    BackgroundLeavesActive(q, step);
  }

  /**
   After any sequential run: the unfinished targets are exactly the call stack, and while at most
   1024 targets are being converted the running request always has a step it can take.
   */
  lemma SequentialNeverBlocks(steps: seq<Step>)
    requires SeqRun(steps).Some?
    ensures
      var q := SeqRun(steps).value;
      && NoRepeats(q.stack)
      && (forall t :: Unfinished(q.s, t) <==> t in q.stack)
      && (q.active.Some? && |q.stack| <= CAPACITY ==> exists step :: Advances(q, step, q.active.value))
  {
    SeqRunsKeep(steps);
    var q := SeqRun(steps).value;
    forall t ensures Unfinished(q.s, t) <==> t in q.stack {
      if t in q.stack {
        var i :| 0 <= i < |q.stack| && q.stack[i] == t;
        assert OnStack(q.s, q.stack[i], q.stack[..i]);
      }
    }
    if q.active.Some? && |q.stack| <= CAPACITY {
      var step := RequestNeverBlocks(q, q.active.value);
      assert Advances(q, step, q.active.value);
    }
  }

  /** Asking for another target blocks exactly when more than 1024 targets are being converted. */
  lemma RequestStartsWithinDepth(q: Conversion, r: nat, name: string)
    requires SeqInv(q) && q.active.None? && q.stack != [] && r !in q.s.calls && r !in q.s.subs
    ensures (exists order :: SeqEnabled(q, StartChild(r, Top(q), name, order))) <==> |q.stack| <= CAPACITY
    ensures forall order :: SeqEnabled(q, StartChild(r, Top(q), name, order)) ==>
              Elements(SeqApply(q, StartChild(r, Top(q), name, order)).s.subs[r].buf) == Elements(q.stack)
  {
    var n := |q.stack| - 1;
    assert OnStack(q.s, q.stack[n], q.stack[..n]);
    IdleUpdater(q, Top(q));
    ElementsCount(q.stack[..n]);
    forall order | SeqEnabled(q, StartChild(r, Top(q), name, order))
      ensures |q.stack| <= CAPACITY
      ensures Elements(SeqApply(q, StartChild(r, Top(q), name, order)).s.subs[r].buf) == Elements(q.stack)
    {
      StartedWithinDepth(q, r, name, order);
    }
    if |q.stack| <= CAPACITY {
      assert SeqEnabled(q, StartChild(r, Top(q), name, q.stack[..n]));
    }
  }

  lemma StartedWithinDepth(q: Conversion, r: nat, name: string, order: seq<Id>)
    requires SeqInv(q) && q.stack != [] && SeqEnabled(q, StartChild(r, Top(q), name, order))
    ensures |q.stack| <= CAPACITY
    ensures SeqApply(q, StartChild(r, Top(q), name, order)).s.subs[r].buf == [Top(q)] + order
    ensures Elements([Top(q)] + order) == Elements(q.stack)
  {
    FirstBuffer(q, order);
    PartitionCount([Top(q)] + order, {}, q.stack);
  }

  /** A request for the inputs of a target that is still being converted is always reported. */
  lemma UnfinishedMatchIsReported(steps: seq<Step>, r: nat)
    requires SeqRun(steps).Some? && SeqEnabled(SeqRun(steps).value, Compare(r, Same))
    ensures
      var s := SeqRun(steps).value.s;
      var t := Listed(s, s.calls[r].name)[s.calls[r].pc.k];
      var o := Apply(s, Compare(r, Same)).calls[r].pc.outcome;
      o == if Unfinished(s, t) then Recursion(t) else Existing(t)
  {
    SeqRunsKeep(steps);
    var q := SeqRun(steps).value;
    var s, c := q.s, q.s.calls[r];
    var t := Listed(s, c.name)[c.pc.k];
    assert CallWaits(s, c);
    assert Settled(s, c, t);
    if t in c.dependents {
      MemberIsElement(q.stack, t);
      var i :| 0 <= i < |q.stack| && q.stack[i] == t;
      assert OnStack(s, q.stack[i], q.stack[..i]);
    }
  }
}
