/** No ancestor's ID is lost on its way: what a target knows, everyone it asks for knows or is about to be told. */
module LegacyDelivery {
  import opened Options
  import opened RequestGraph
  import opened LegacyVisited
  import opened LegacyAncestry

  /** The `Add` call that uses subscription `r` holds the ID, or has given up on the subscription. */
  predicate InCall(s: State, r: nat, id: Id) {
    && r in s.calls
    && match s.calls[r].pc
       case Locking(_) => id in s.calls[r].dependents
       case Waiting(_, _) => id in s.calls[r].dependents
       case PuttingBack(todo) => id in todo
       case Comparing(_) => false
       case Draining(t) => t in s.targets && id in s.targets[t].dependentIDs
       case Returned(o) => o.Recursion? || o.Panicked? || o.Failed?
  }

  /** Target `t` knows the ID, is about to, or is done. */
  predicate InSink(s: State, t: Id, id: Id) {
    && t in s.targets
    && var x := s.targets[t];
       x.done || id in x.incoming || id in x.dependentIDs || (!x.updater.Idle? && x.updater.id == id)
  }

  /** The owner of subscription `r` is about to send the ID over it. */
  predicate ToBeSent(s: State, r: nat, id: Id)
    requires r in s.subs
  {
    && s.subs[r].owner in s.targets
    && var u := s.targets[s.subs[r].owner].updater;
       u.Sending? && u.id == id && r in u.rest
  }

  predicate Underway(s: State, r: nat, id: Id)
    requires r in s.subs
  {
    var sub := s.subs[r];
    || ToBeSent(s, r, id) || id in sub.buf || sub.hand == Some(id) || InCall(s, r, id)
    || (sub.sink.Some? && InSink(s, sub.sink.value, id))
  }

  /** What a target tells those it asks for: its own ID and all it has learnt. */
  predicate Tells(s: State, p: Id, id: Id) {
    p in s.targets && (id == p || id in s.targets[p].dependentIDs)
  }

  predicate SubsOwned(s: State) {
    forall r :: r in s.subs ==>
      s.subs[r].owner in s.targets && s.subs[r].owner in s.visitedList && r in s.targets[s.subs[r].owner].outgoing
  }

  predicate DrainsUnlisted(s: State) {
    forall r :: r in s.calls && s.calls[r].pc.Draining? ==>
      s.calls[r].pc.t in s.targets && s.calls[r].pc.t !in s.visitedList
  }

  predicate SendsKnown(s: State) {
    forall t :: t in s.targets && s.targets[t].updater.Sending? ==> s.targets[t].updater.id in s.targets[t].dependentIDs
  }

  ghost predicate AllTold(s: State, r: nat)
    requires r in s.subs
  {
    forall id :: Tells(s, s.subs[r].owner, id) ==> Underway(s, r, id)
  }

  /** A subscription gets its sink when its call returns. */
  predicate SinkLast(s: State, r: nat) {
    r in s.subs && Running(s, r) ==> s.subs[r].sink.None?
  }

  /** A target that a subscription feeds listens, unless it is done. */
  predicate SinkListens(s: State, r: nat) {
    r in s.subs && s.subs[r].sink.Some? ==>
      s.subs[r].sink.value in s.targets && (s.targets[s.subs[r].sink.value].done || s.targets[s.subs[r].sink.value].listening)
  }

  ghost predicate NoneLost(s: State) {
    && SubsOwned(s) && DrainsUnlisted(s) && SendsKnown(s)
    && (forall r: nat :: SinkLast(s, r) && SinkListens(s, r))
    && (forall r :: r in s.subs ==> AllTold(s, r))
  }

  // ----- An ID that is underway stays underway -----

  lemma StartRootKeeps(s: State, x: nat, name: string, r: nat, id: Id)
    requires Enabled(s, StartRoot(x, name)) && SubsOwned(s) && SendsKnown(s) && r in s.subs && Underway(s, r, id)
    ensures r in Apply(s, StartRoot(x, name)).subs && Underway(Apply(s, StartRoot(x, name)), r, id)
  {
  }

  lemma StartChildKeeps(s: State, x: nat, p: Id, name: string, order: seq<Id>, r: nat, id: Id)
    requires Enabled(s, StartChild(x, p, name, order)) && SubsOwned(s) && SendsKnown(s) && r in s.subs && Underway(s, r, id)
    ensures r in Apply(s, StartChild(x, p, name, order)).subs && Underway(Apply(s, StartChild(x, p, name, order)), r, id)
  {
  }

  lemma LookKeeps(s: State, x: nat, r: nat, id: Id)
    requires Enabled(s, Look(x)) && SubsOwned(s) && SendsKnown(s) && r in s.subs && Underway(s, r, id)
    ensures r in Apply(s, Look(x)).subs && Underway(Apply(s, Look(x)), r, id)
  {
  }

  lemma WaitSkipKeeps(s: State, x: nat, r: nat, id: Id)
    requires Enabled(s, WaitSkip(x)) && SubsOwned(s) && SendsKnown(s) && r in s.subs && Underway(s, r, id)
    ensures r in Apply(s, WaitSkip(x)).subs && Underway(Apply(s, WaitSkip(x)), r, id)
  {
  }

  lemma WaitRecvKeeps(s: State, x: nat, r: nat, id: Id)
    requires Enabled(s, WaitRecv(x)) && SubsOwned(s) && SendsKnown(s) && r in s.subs && Underway(s, r, id)
    ensures r in Apply(s, WaitRecv(x)).subs && Underway(Apply(s, WaitRecv(x)), r, id)
  {
  }

  lemma WaitDoneKeeps(s: State, x: nat, r: nat, id: Id)
    requires Enabled(s, WaitDone(x)) && SubsOwned(s) && SendsKnown(s) && r in s.subs && Underway(s, r, id)
    ensures r in Apply(s, WaitDone(x)).subs && Underway(Apply(s, WaitDone(x)), r, id)
  {
  }

  lemma WaitEndKeeps(s: State, x: nat, r: nat, id: Id)
    requires Enabled(s, WaitEnd(x)) && SubsOwned(s) && SendsKnown(s) && r in s.subs && Underway(s, r, id)
    ensures r in Apply(s, WaitEnd(x)).subs && Underway(Apply(s, WaitEnd(x)), r, id)
  {
  }

  lemma WaitCancelKeeps(s: State, x: nat, r: nat, id: Id)
    requires Enabled(s, WaitCancel(x)) && SubsOwned(s) && SendsKnown(s) && r in s.subs && Underway(s, r, id)
    ensures r in Apply(s, WaitCancel(x)).subs && Underway(Apply(s, WaitCancel(x)), r, id)
  {
  }

  lemma PutBackKeeps(s: State, x: nat, i: Id, r: nat, id: Id)
    requires Enabled(s, PutBack(x, i)) && SubsOwned(s) && SendsKnown(s) && r in s.subs && Underway(s, r, id)
    ensures r in Apply(s, PutBack(x, i)).subs && Underway(Apply(s, PutBack(x, i)), r, id)
  {
  }

  lemma PutBackEndKeeps(s: State, x: nat, r: nat, id: Id)
    requires Enabled(s, PutBackEnd(x)) && SubsOwned(s) && SendsKnown(s) && r in s.subs && Underway(s, r, id)
    ensures r in Apply(s, PutBackEnd(x)).subs && Underway(Apply(s, PutBackEnd(x)), r, id)
  {
  }

  lemma DifferentKeeps(s: State, x: nat, r: nat, id: Id)
    requires Enabled(s, Compare(x, Different)) && SubsOwned(s) && SendsKnown(s) && r in s.subs && Underway(s, r, id)
    ensures r in Apply(s, Compare(x, Different)).subs && Underway(Apply(s, Compare(x, Different)), r, id)
  {
  }

  lemma ErrorKeeps(s: State, x: nat, r: nat, id: Id)
    requires Enabled(s, Compare(x, CompareError)) && SubsOwned(s) && SendsKnown(s) && r in s.subs && Underway(s, r, id)
    ensures r in Apply(s, Compare(x, CompareError)).subs && Underway(Apply(s, Compare(x, CompareError)), r, id)
  {
  }

  lemma SameKeeps(s: State, x: nat, r: nat, id: Id)
    requires Enabled(s, Compare(x, Same)) && SubsOwned(s) && SendsKnown(s) && r in s.subs && Underway(s, r, id) && SinkLast(s, x)
    ensures r in Apply(s, Compare(x, Same)).subs && Underway(Apply(s, Compare(x, Same)), r, id)
  {
    SameTouches(s, x);
    if r == x {
      SameOwn(s, x, id);
    }
  }

  /** Finding a target the same changes the call and its subscription only. */
  lemma SameTouches(s: State, x: nat)
    requires Enabled(s, Compare(x, Same))
    ensures var s' := Apply(s, Compare(x, Same));
            && s'.targets == s.targets && s'.calls.Keys == s.calls.Keys && s'.subs.Keys == s.subs.Keys
            && (forall r :: r in s.calls && r != x ==> s'.calls[r] == s.calls[r])
            && (forall r :: r in s.subs && r != x ==> s'.subs[r] == s.subs[r])
  {
  }

  lemma SameOwn(s: State, x: nat, id: Id)
    requires Enabled(s, Compare(x, Same)) && x in s.subs && Underway(s, x, id) && SinkLast(s, x)
    ensures x in Apply(s, Compare(x, Same)).subs && Underway(Apply(s, Compare(x, Same)), x, id)
  {
  }

  lemma CreateKeeps(s: State, x: nat, t: Id, r: nat, id: Id)
    requires Enabled(s, Create(x, t)) && SubsOwned(s) && SendsKnown(s) && r in s.subs && Underway(s, r, id)
    ensures r in Apply(s, Create(x, t)).subs && Underway(Apply(s, Create(x, t)), r, id)
  {
  }

  lemma DrainKeeps(s: State, x: nat, r: nat, id: Id)
    requires Enabled(s, Drain(x)) && SubsOwned(s) && SendsKnown(s) && r in s.subs && Underway(s, r, id)
    ensures r in Apply(s, Drain(x)).subs && Underway(Apply(s, Drain(x)), r, id)
  {
  }

  lemma DrainEndKeeps(s: State, x: nat, r: nat, id: Id)
    requires Enabled(s, DrainEnd(x)) && SubsOwned(s) && SendsKnown(s) && r in s.subs && Underway(s, r, id) && SinkLast(s, x)
    ensures r in Apply(s, DrainEnd(x)).subs && Underway(Apply(s, DrainEnd(x)), r, id)
  {
  }

  lemma DrainCancelKeeps(s: State, x: nat, r: nat, id: Id)
    requires Enabled(s, DrainCancel(x)) && SubsOwned(s) && SendsKnown(s) && r in s.subs && Underway(s, r, id)
    ensures r in Apply(s, DrainCancel(x)).subs && Underway(Apply(s, DrainCancel(x)), r, id)
  {
  }

  lemma MonitorRecvKeeps(s: State, x: nat, r: nat, id: Id)
    requires Enabled(s, MonitorRecv(x)) && SubsOwned(s) && SendsKnown(s) && r in s.subs && Underway(s, r, id)
    ensures r in Apply(s, MonitorRecv(x)).subs && Underway(Apply(s, MonitorRecv(x)), r, id)
  {
  }

  lemma MonitorSendKeeps(s: State, x: nat, r: nat, id: Id)
    requires Enabled(s, MonitorSend(x)) && SubsOwned(s) && SendsKnown(s) && r in s.subs && Underway(s, r, id)
    ensures r in Apply(s, MonitorSend(x)).subs && Underway(Apply(s, MonitorSend(x)), r, id)
  {
  }

  lemma UpdaterTakeKeeps(s: State, t: Id, r: nat, id: Id)
    requires Enabled(s, UpdaterTake(t)) && SubsOwned(s) && SendsKnown(s) && r in s.subs && Underway(s, r, id)
    ensures r in Apply(s, UpdaterTake(t)).subs && Underway(Apply(s, UpdaterTake(t)), r, id)
  {
  }

  lemma UpdaterLockKeeps(s: State, t: Id, r: nat, id: Id)
    requires Enabled(s, UpdaterLock(t)) && SubsOwned(s) && SendsKnown(s) && r in s.subs && Underway(s, r, id)
    ensures r in Apply(s, UpdaterLock(t)).subs && Underway(Apply(s, UpdaterLock(t)), r, id)
  {
  }

  lemma UpdaterSendKeeps(s: State, t: Id, r: nat, id: Id)
    requires Enabled(s, UpdaterSend(t)) && SubsOwned(s) && SendsKnown(s) && r in s.subs && Underway(s, r, id)
    ensures r in Apply(s, UpdaterSend(t)).subs && Underway(Apply(s, UpdaterSend(t)), r, id)
  {
  }

  lemma UpdaterEndKeeps(s: State, t: Id, r: nat, id: Id)
    requires Enabled(s, UpdaterEnd(t)) && SubsOwned(s) && SendsKnown(s) && r in s.subs && Underway(s, r, id)
    ensures r in Apply(s, UpdaterEnd(t)).subs && Underway(Apply(s, UpdaterEnd(t)), r, id)
  {
  }

  lemma FinishKeeps(s: State, t: Id, r: nat, id: Id)
    requires Enabled(s, Finish(t)) && SubsOwned(s) && SendsKnown(s) && r in s.subs && Underway(s, r, id)
    ensures r in Apply(s, Finish(t)).subs && Underway(Apply(s, Finish(t)), r, id)
  {
  }

  lemma UnderwayKept(s: State, step: Step, r: nat, id: Id)
    requires Enabled(s, step) && NoneLost(s) && r in s.subs && Underway(s, r, id)
    ensures r in Apply(s, step).subs && Underway(Apply(s, step), r, id)
  {
    if Caller(step).None? {
      BackgroundKeeps(s, step, r, id);
    } else if HoldsLock(s.calls[step.r].pc) {
      HolderKeeps(s, step, r, id);
    } else {
      WaiterKeeps(s, step, r, id);
    }
  }

  lemma BackgroundKeeps(s: State, step: Step, r: nat, id: Id)
    requires Enabled(s, step) && Caller(step).None? && SubsOwned(s) && SendsKnown(s) && r in s.subs && Underway(s, r, id)
    ensures r in Apply(s, step).subs && Underway(Apply(s, step), r, id)
  {
    match step
    case StartRoot(x, name) => StartRootKeeps(s, x, name, r, id);
    case StartChild(x, p, name, order) => StartChildKeeps(s, x, p, name, order, r, id);
    case MonitorRecv(x) => MonitorRecvKeeps(s, x, r, id);
    case MonitorSend(x) => MonitorSendKeeps(s, x, r, id);
    case UpdaterTake(t) => UpdaterTakeKeeps(s, t, r, id);
    case UpdaterLock(t) => UpdaterLockKeeps(s, t, r, id);
    case UpdaterSend(t) => UpdaterSendKeeps(s, t, r, id);
    case UpdaterEnd(t) => UpdaterEndKeeps(s, t, r, id);
    case Finish(t) => FinishKeeps(s, t, r, id);
  }

  lemma WaiterKeeps(s: State, step: Step, r: nat, id: Id)
    requires Enabled(s, step) && Caller(step).Some? && !HoldsLock(s.calls[step.r].pc) && SubsOwned(s) && SendsKnown(s) && r in s.subs && Underway(s, r, id)
    ensures r in Apply(s, step).subs && Underway(Apply(s, step), r, id)
  {
    match step
    case Look(x) => LookKeeps(s, x, r, id);
    case WaitSkip(x) => WaitSkipKeeps(s, x, r, id);
    case WaitRecv(x) => WaitRecvKeeps(s, x, r, id);
    case WaitDone(x) => WaitDoneKeeps(s, x, r, id);
    case WaitEnd(x) => WaitEndKeeps(s, x, r, id);
    case WaitCancel(x) => WaitCancelKeeps(s, x, r, id);
  }

  lemma HolderKeeps(s: State, step: Step, r: nat, id: Id)
    requires Enabled(s, step) && Caller(step).Some? && HoldsLock(s.calls[step.r].pc) && SubsOwned(s) && SendsKnown(s) && r in s.subs && Underway(s, r, id)
    requires SinkLast(s, step.r)
    ensures r in Apply(s, step).subs && Underway(Apply(s, step), r, id)
  {
    match step
    case PutBack(x, i) => PutBackKeeps(s, x, i, r, id);
    case PutBackEnd(x) => PutBackEndKeeps(s, x, r, id);
    case Compare(x, Different) => DifferentKeeps(s, x, r, id);
    case Compare(x, CompareError) => ErrorKeeps(s, x, r, id);
    case Compare(x, Same) => SameKeeps(s, x, r, id);
    case Create(x, t) => CreateKeeps(s, x, t, r, id);
    case Drain(x) => DrainKeeps(s, x, r, id);
    case DrainEnd(x) => DrainEndKeeps(s, x, r, id);
    case DrainCancel(x) => DrainCancelKeeps(s, x, r, id);
  }

  // ----- What has newly been learnt is sent on -----

  lemma LockTells(s: State, t: Id, r: nat)
    requires Enabled(s, UpdaterLock(t)) && SubsOwned(s) && r in s.subs && s.subs[r].owner == t
    ensures Underway(Apply(s, UpdaterLock(t)), r, s.targets[t].updater.id)
  {
  }

  /** A target learns an ID by draining, before it asks for anything, or from its updater, which sends it on. */
  lemma NewlyLearnt(s: State, step: Step, p: Id, id: Id)
    requires Enabled(s, step) && DrainsUnlisted(s) && p in s.targets && p in s.visitedList
    requires id !in s.targets[p].dependentIDs && p in Apply(s, step).targets && id in Apply(s, step).targets[p].dependentIDs
    ensures step == UpdaterLock(p) && s.targets[p].updater.id == id
  {
    if TouchedTarget(s, step) == Some(p) {
      TouchedLearns(s, step, p, id);
    } else {
      OnlyTouchedTarget(s, step);
    }
  }

  lemma TouchedLearns(s: State, step: Step, p: Id, id: Id)
    requires Enabled(s, step) && TouchedTarget(s, step) == Some(p) && p in s.targets
    requires id !in s.targets[p].dependentIDs && id in Apply(s, step).targets[p].dependentIDs
    ensures (step.Drain? && s.calls[step.r].pc.t == p) || (step == UpdaterLock(p) && s.targets[p].updater.id == id)
  {
    TargetAfter(s, step, p);
  }

  lemma StartTells(s: State, r: nat, p: Id, name: string, order: seq<Id>, id: Id)
    requires Enabled(s, StartChild(r, p, name, order)) && Tells(s, p, id)
    ensures var s' := Apply(s, StartChild(r, p, name, order)); r in s'.subs && id in s'.subs[r].buf
  {
    if id == p {
      assert ([p] + order)[0] == p;
    } else {
      assert id in Elements(order);
      var i :| 0 <= i < |order| && order[i] == id;
      assert ([p] + order)[i + 1] == id;
    }
  }

  lemma NewSubStarts(s: State, step: Step, r: nat)
    requires Enabled(s, step) && r in Apply(s, step).subs && r !in s.subs
    ensures step.StartChild? && step.r == r
  {
    OnlyTouchedSub(s, step);
  }

  lemma AllToldKept(s: State, step: Step, r: nat)
    requires NoneLost(s) && Enabled(s, step) && r in Apply(s, step).subs
    ensures AllTold(Apply(s, step), r)
  {
    if r in s.subs {
      forall id | Tells(Apply(s, step), Apply(s, step).subs[r].owner, id) ensures Underway(Apply(s, step), r, id) {
        ToldKept(s, step, r, id);
      }
    } else {
      NewSubStarts(s, step, r);
      StartDelivers(s, step.r, step.parent, step.name, step.order);
    }
  }

  lemma StartDelivers(s: State, r: nat, p: Id, name: string, order: seq<Id>)
    requires Enabled(s, StartChild(r, p, name, order))
    ensures var s' := Apply(s, StartChild(r, p, name, order)); r in s'.subs && AllTold(s', r)
  {
    var s' := Apply(s, StartChild(r, p, name, order));
    forall id | Tells(s', p, id) ensures Underway(s', r, id) {
      StartTells(s, r, p, name, order, id);
    }
  }

  lemma ToldKept(s: State, step: Step, r: nat, id: Id)
    requires NoneLost(s) && Enabled(s, step) && r in s.subs && r in Apply(s, step).subs
    requires Tells(Apply(s, step), Apply(s, step).subs[r].owner, id)
    ensures Underway(Apply(s, step), r, id)
  {
    ApplyWidens(s, step);
    var p := s.subs[r].owner;
    if Tells(s, p, id) {
      assert AllTold(s, r);
      UnderwayKept(s, step, r, id);
    } else {
      NewlyLearnt(s, step, p, id);
      LockTells(s, p, r);
    }
  }

  // ----- The other parts -----

  lemma OutgoingKept(s: State, step: Step, t: Id)
    requires Enabled(s, step) && t in s.targets
    ensures t in Apply(s, step).targets && s.targets[t].outgoing <= Apply(s, step).targets[t].outgoing
  {
    ApplyGrows(s, step);
    if TouchedTarget(s, step) == Some(t) {
      TouchedOutgoing(s, step, t);
    } else {
      OnlyTouchedTarget(s, step);
    }
  }

  lemma TouchedOutgoing(s: State, step: Step, t: Id)
    requires Enabled(s, step) && TouchedTarget(s, step) == Some(t) && t in s.targets
    ensures t in Apply(s, step).targets && s.targets[t].outgoing <= Apply(s, step).targets[t].outgoing
  {
  }

  lemma VisitedGrows(s: State, step: Step)
    requires ListsTargets(s) && Enabled(s, step)
    ensures s.visitedList <= Apply(s, step).visitedList
  {
    if !Registers(s, step) {
      ListsSame(s, step);
    } else if step.Create? {
      CreateRegisters(s, step.r, step.t);
    } else {
      DrainEndRegisters(s, step.r);
    }
  }

  lemma OwnedKept(s: State, step: Step)
    requires ListsTargets(s) && SubsOwned(s) && Enabled(s, step)
    ensures SubsOwned(Apply(s, step))
  {
    forall r | r in Apply(s, step).subs
      ensures var s' := Apply(s, step);
              && s'.subs[r].owner in s'.targets && s'.subs[r].owner in s'.visitedList
              && r in s'.targets[s'.subs[r].owner].outgoing
    {
      if r in s.subs {
        ApplyWidens(s, step);
        OutgoingKept(s, step, s.subs[r].owner);
        VisitedGrows(s, step);
      } else {
        NewSubStarts(s, step, r);
        StartOwned(s, step.r, step.parent, step.name, step.order);
      }
    }
  }

  lemma StartOwned(s: State, r: nat, p: Id, name: string, order: seq<Id>)
    requires Enabled(s, StartChild(r, p, name, order))
    ensures var s' := Apply(s, StartChild(r, p, name, order));
            && r in s'.subs && s'.subs[r].owner == p && p in s'.targets && p in s'.visitedList
            && r in s'.targets[p].outgoing
  {
    var out := s.targets[p].outgoing + [r];
    assert out[|out| - 1] == r;
  }

  lemma UnlistedKept(s: State, step: Step, r: nat)
    requires WaitInv(s) && DrainsUnlisted(s) && Enabled(s, step)
    requires r in Apply(s, step).calls && Apply(s, step).calls[r].pc.Draining?
    ensures var s' := Apply(s, step); s'.calls[r].pc.t in s'.targets && s'.calls[r].pc.t !in s'.visitedList
  {
    ApplyGrows(s, step);
    if Caller(step) == Some(r) {
      CallerUnlisted(s, step);
    } else if r in s.calls {
      OthersUntouched(s, step, r);
      HeldVisitedSame(s, step, r);
    } else {
      NewCallLocks(s, step, r);
    }
  }

  lemma HeldVisitedSame(s: State, step: Step, r: nat)
    requires LockOwned(s) && Enabled(s, step) && r in s.calls && Caller(step) != Some(r) && HoldsLock(s.calls[r].pc)
    ensures Apply(s, step).visitedList == s.visitedList
  {
    assert Registers(s, step) ==> HoldsLock(s.calls[step.r].pc);
    ListsSame(s, step);
  }

  lemma CallerUnlisted(s: State, step: Step)
    requires WaitInv(s) && DrainsUnlisted(s) && Enabled(s, step) && Caller(step).Some?
    requires step.r in Apply(s, step).calls && Apply(s, step).calls[step.r].pc.Draining?
    ensures var s', r := Apply(s, step), step.r;
            s'.calls[r].pc.t in s'.targets && s'.calls[r].pc.t !in s'.visitedList
  {
    match step
    case Create(r, t) => CreateUnlisted(s, r, t);
    case Compare(r, v) => CompareNeverDrains(s, r, v);
    case _ =>
  }

  lemma CreateUnlisted(s: State, r: nat, t: Id)
    requires ListsTargets(s) && Enabled(s, Create(r, t)) && r in s.subs
    ensures var s' := Apply(s, Create(r, t));
            r in s'.calls && s'.calls[r].pc == Draining(t) && t in s'.targets && t !in s'.visitedList
  {
    assert forall u :: u in s.visitedList ==> u in s.targets;
  }

  lemma SendsKept(s: State, step: Step, t: Id)
    requires SendsKnown(s) && Enabled(s, step) && t in Apply(s, step).targets
    ensures var x := Apply(s, step).targets[t]; x.updater.Sending? ==> x.updater.id in x.dependentIDs
  {
    if TouchedTarget(s, step) != Some(t) {
      OnlyTouchedTarget(s, step);
    }
  }

  lemma SinkKept(s: State, step: Step, r: nat)
    requires SinkLast(s, r) && Enabled(s, step)
    ensures SinkLast(Apply(s, step), r)
  {
    if TouchedSub(s, step) != Some(r) {
      OnlyTouchedSub(s, step);
      if r in s.subs {
        RunningBefore(s, step, r);
      }
    } else {
      TouchedSink(s, step, r);
    }
  }

  lemma ListensKept(s: State, step: Step, r: nat)
    requires SinkListens(s, r) && Enabled(s, step)
    ensures SinkListens(Apply(s, step), r)
  {
    if TouchedSub(s, step) == Some(r) {
      TouchedListens(s, step, r);
    } else {
      OnlyTouchedSub(s, step);
      if r in s.subs && s.subs[r].sink.Some? {
        ListeningKept(s, step, s.subs[r].sink.value);
      }
    }
  }

  /** A target that listens goes on listening. */
  lemma ListeningKept(s: State, step: Step, t: Id)
    requires Enabled(s, step) && t in s.targets
    ensures t in Apply(s, step).targets && (s.targets[t].listening ==> Apply(s, step).targets[t].listening)
    ensures s.targets[t].done ==> Apply(s, step).targets[t].done
  {
    ApplyGrows(s, step);
    if TouchedTarget(s, step) != Some(t) {
      OnlyTouchedTarget(s, step);
    }
  }

  lemma TouchedListens(s: State, step: Step, r: nat)
    requires SinkListens(s, r) && Enabled(s, step) && TouchedSub(s, step) == Some(r)
    ensures SinkListens(Apply(s, step), r)
  {
    if r in s.subs && s.subs[r].sink.Some? {
      ListeningKept(s, step, s.subs[r].sink.value);
    }
    match step
    case Compare(x, v) => CompareListens(s, x, v);
    case DrainEnd(x) => DrainEndListens(s, x);
    case _ =>
  }

  lemma CompareListens(s: State, x: nat, v: Verdict)
    requires SinkListens(s, x) && Enabled(s, Compare(x, v))
    ensures SinkListens(Apply(s, Compare(x, v)), x)
  {
  }

  lemma DrainEndListens(s: State, x: nat)
    requires Enabled(s, DrainEnd(x))
    ensures SinkListens(Apply(s, DrainEnd(x)), x)
  {
  }

  lemma RunningBefore(s: State, step: Step, r: nat)
    requires Enabled(s, step) && r in s.subs
    ensures Running(Apply(s, step), r) ==> Running(s, r)
  {
    if Caller(step).None? {
      BackgroundCalls(s, step);
    } else {
      CallerCalls(s, step);
    }
  }

  lemma TouchedSink(s: State, step: Step, r: nat)
    requires SinkLast(s, r) && Enabled(s, step) && TouchedSub(s, step) == Some(r)
    ensures SinkLast(Apply(s, step), r)
  {
    if r in s.subs {
      SubAfter(s, step, r);
      RunningBefore(s, step, r);
    }
  }

  lemma NoneLostKept(s: State, step: Step)
    requires WaitInv(s) && NoneLost(s) && Enabled(s, step)
    ensures NoneLost(Apply(s, step))
  {
    OwnedKept(s, step);
    forall r | r in Apply(s, step).calls && Apply(s, step).calls[r].pc.Draining? { UnlistedKept(s, step, r); }
    forall t | t in Apply(s, step).targets { SendsKept(s, step, t); }
    forall r: nat { SinkKept(s, step, r); }
    forall r: nat { ListensKept(s, step, r); }
    forall r | r in Apply(s, step).subs { AllToldKept(s, step, r); }
  }

  /** In every interleaving, all that a target knows is underway to, or known by, whoever it asks for. */
  lemma {:induction false} NoIdIsLost(steps: seq<Step>)
    requires Run(steps).Some?
    ensures NoneLost(Run(steps).value)
  {
    if steps != [] {
      var before := steps[..|steps| - 1];
      NoIdIsLost(before);
      RunsKeepInvariants(before);
      NoneLostKept(Run(before).value, steps[|steps| - 1]);
    }
  }

  /** Nothing is on its way over subscription `r`. */
  predicate AtRest(s: State, r: nat) {
    && r in s.subs && s.subs[r].owner in s.targets && s.targets[s.subs[r].owner].updater.Idle?
    && s.subs[r].buf == [] && s.subs[r].hand.None?
    && s.subs[r].sink.Some? && s.subs[r].sink.value in s.targets
    && s.targets[s.subs[r].sink.value].incoming == [] && s.targets[s.subs[r].sink.value].updater.Idle?
    && r in s.calls && s.calls[r].pc.Returned? && s.calls[r].pc.outcome.Fresh?
  }

  /** Once nothing is on its way any more, an unfinished target knows who asked for it and all that one knows. */
  lemma AtRestAncestorsAreKnown(steps: seq<Step>, r: nat)
    requires Run(steps).Some? && AtRest(Run(steps).value, r)
    ensures var s := Run(steps).value;
            var p, t := s.subs[r].owner, s.subs[r].sink.value;
            s.targets[t].done || {p} + s.targets[p].dependentIDs <= s.targets[t].dependentIDs
  {
    NoIdIsLost(steps);
    var s := Run(steps).value;
    var p, t := s.subs[r].owner, s.subs[r].sink.value;
    assert AllTold(s, r);
    forall id | Tells(s, p, id) ensures s.targets[t].done || id in s.targets[t].dependentIDs {
      assert Underway(s, r, id);
    }
  }

  /** The next step of what is on its way over subscription `r` can be taken, unless a channel is full. */
  predicate Moves(s: State, r: nat)
    requires r in s.subs && s.subs[r].sink.Some?
  {
    var sub, t := s.subs[r], s.subs[r].sink.value;
    && t in s.targets
    && (sub.hand.None? && sub.buf != [] ==> Enabled(s, MonitorRecv(r)))
    && (sub.hand.Some? && |s.targets[t].incoming| < CAPACITY ==> Enabled(s, MonitorSend(r)))
    && (s.targets[t].done
        || (&& (s.targets[t].updater.Idle? && s.targets[t].incoming != [] ==> Enabled(s, UpdaterTake(t)))
            && (s.targets[t].updater.Held? ==> Enabled(s, UpdaterLock(t)))))
  }

  lemma ListeningMoves(s: State, r: nat)
    requires r in s.subs && s.subs[r].sink.Some? && SinkListens(s, r)
    ensures Moves(s, r)
  {
  }

  /** In every interleaving, what is on its way to an unfinished target can move on. */
  lemma DeliveryMoves(steps: seq<Step>, r: nat)
    requires Run(steps).Some? && r in Run(steps).value.subs && Run(steps).value.subs[r].sink.Some?
    ensures Moves(Run(steps).value, r)
  {
    NoIdIsLost(steps);
    assert SinkListens(Run(steps).value, r);
    ListeningMoves(Run(steps).value, r);
  }
}
