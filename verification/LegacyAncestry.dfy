/**
 Every ID that travels through the subscriptions belongs to a real requester.

 The recorded requests form a graph. An ID found in a target's `dependentIDs`, in a
 channel, in a goroutine's hand or in a call's `dependents` always lies upstream of
 the target it was delivered to, whatever the interleaving.
 */
module LegacyAncestry {
  import opened Options
  import opened RequestGraph
  import opened LegacyVisited

  ghost predicate SubGenuine(s: State, sub: Subscription) {
    && (forall i :: 0 <= i < |sub.buf| ==> Upstream(s.edges, sub.buf[i], sub.owner))
    && (sub.hand.Some? ==> Upstream(s.edges, sub.hand.value, sub.owner))
    && (sub.sink.Some? ==> (sub.owner, sub.sink.value) in s.edges)
  }

  ghost predicate OwnedBy(s: State, r: nat, t: Id) {
    r in s.subs && s.subs[r].owner == t
  }

  ghost predicate UpdaterGenuine(s: State, t: Id, u: Updater) {
    match u
    case Idle => true
    case Held(id) => Requests(s.edges, id, t)
    case Sending(id, rest) => Requests(s.edges, id, t) && forall i :: 0 <= i < |rest| ==> OwnedBy(s, rest[i], t)
  }

  ghost predicate TargetGenuine(s: State, t: Id, x: Target) {
    && (forall id :: id in x.dependentIDs ==> Requests(s.edges, id, t))
    && (forall i :: 0 <= i < |x.incoming| ==> Requests(s.edges, x.incoming[i], t))
    && (forall i :: 0 <= i < |x.outgoing| ==> OwnedBy(s, x.outgoing[i], t))
    && UpdaterGenuine(s, t, x.updater)
  }

  ghost predicate CallGenuine(s: State, r: nat, c: Call) {
    && (forall id :: id in c.dependents ==> r in s.subs && Upstream(s.edges, id, s.subs[r].owner))
    && (c.pc.PuttingBack? ==> c.pc.todo <= c.dependents)
    && (c.pc.Draining? ==> r in s.subs && (s.subs[r].owner, c.pc.t) in s.edges)
    && (c.pc.Returned? && c.pc.outcome.Recursion? ==> GenuineRecursion(s, r, c))
  }

  /**
   A call that ended in "infinite recursion" names a target of the wanted name which
   has itself, directly or through others, asked for the target that made the call.
   */
  ghost predicate GenuineRecursion(s: State, r: nat, c: Call)
    requires c.pc.Returned? && c.pc.outcome.Recursion?
  {
    var t := c.pc.outcome.t;
    && t in s.targets && s.targets[t].name == c.name
    && r in s.subs && Upstream(s.edges, t, s.subs[r].owner)
  }

  ghost predicate AncestryInv(s: State) {
    && (forall r :: r in s.subs ==> SubGenuine(s, s.subs[r]))
    && (forall t :: t in s.targets ==> TargetGenuine(s, t, s.targets[t]))
    && (forall r :: r in s.calls ==> CallGenuine(s, r, s.calls[r]))
  }

  /** Subscriptions keep their owner and the recorded requests only grow. */
  ghost predicate Widens(s: State, s': State) {
    && s.edges <= s'.edges
    && Grows(s, s')
    && (forall r :: r in s.subs ==> r in s'.subs && s'.subs[r].owner == s.subs[r].owner)
  }

  lemma ApplyWidens(s: State, step: Step)
    requires Enabled(s, step)
    ensures Widens(s, Apply(s, step))
  {
    ApplyGrows(s, step);
    if Caller(step).None? {
      BackgroundWidens(s, step);
    } else {
      CallerWidens(s, step);
    }
  }

  ghost predicate OwnersKept(s: State, s': State) {
    s.edges <= s'.edges && forall r :: r in s.subs ==> r in s'.subs && s'.subs[r].owner == s.subs[r].owner
  }

  lemma BackgroundWidens(s: State, step: Step)
    requires Enabled(s, step) && Caller(step).None?
    ensures OwnersKept(s, Apply(s, step))
  {
  }

  lemma CallerWidens(s: State, step: Step)
    requires Enabled(s, step) && Caller(step).Some?
    ensures OwnersKept(s, Apply(s, step))
  {
  }

  lemma WideningKeeps(s: State, s': State)
    requires Widens(s, s')
    ensures forall sub :: SubGenuine(s, sub) ==> SubGenuine(s', sub)
    ensures forall t, x :: TargetGenuine(s, t, x) ==> TargetGenuine(s', t, x)
    ensures forall r, c :: CallGenuine(s, r, c) ==> CallGenuine(s', r, c)
  {
    Monotone(s.edges, s'.edges);
    forall t, x | TargetGenuine(s, t, x) ensures TargetGenuine(s', t, x) {
      assert forall r :: OwnedBy(s, r, t) ==> OwnedBy(s', r, t);
    }
  }

  /** The one subscription a step writes. */
  function TouchedSub(s: State, step: Step): Option<nat>
    requires Enabled(s, step)
  {
    match step
    case StartChild(r, p, name, order) => Some(r)
    case WaitRecv(r) => Some(r)
    case PutBack(r, id) => Some(r)
    case Compare(r, verdict) => Some(r)
    case Drain(r) => Some(r)
    case DrainEnd(r) => Some(r)
    case MonitorRecv(r) => Some(r)
    case MonitorSend(r) => Some(r)
    case UpdaterSend(t) => Some(s.targets[t].updater.rest[0])
    case _ => None
  }

  /** The one target a step writes. */
  function TouchedTarget(s: State, step: Step): Option<Id>
    requires Enabled(s, step)
  {
    match step
    case StartChild(r, p, name, order) => Some(p)
    case Create(r, t) => Some(t)
    case Drain(r) => Some(s.calls[r].pc.t)
    case DrainEnd(r) => Some(s.calls[r].pc.t)
    case MonitorSend(r) => Some(s.subs[r].sink.value)
    case UpdaterTake(t) => Some(t)
    case UpdaterLock(t) => Some(t)
    case UpdaterSend(t) => Some(t)
    case UpdaterEnd(t) => Some(t)
    case Finish(t) => Some(t)
    case _ => None
  }

  lemma OnlyTouched(s: State, step: Step)
    requires Enabled(s, step)
    ensures var s' := Apply(s, step);
            && (forall r :: r in s'.subs && TouchedSub(s, step) != Some(r) ==> r in s.subs && s'.subs[r] == s.subs[r])
            && (forall t :: t in s'.targets && TouchedTarget(s, step) != Some(t) ==>
                  t in s.targets && s'.targets[t] == s.targets[t])
  {
    OnlyTouchedSub(s, step);
    OnlyTouchedTarget(s, step);
  }

  lemma OnlyTouchedSub(s: State, step: Step)
    requires Enabled(s, step)
    ensures forall r :: r in Apply(s, step).subs && TouchedSub(s, step) != Some(r) ==>
              r in s.subs && Apply(s, step).subs[r] == s.subs[r]
  {
  }

  lemma OnlyTouchedTarget(s: State, step: Step)
    requires Enabled(s, step)
    ensures forall t :: t in Apply(s, step).targets && TouchedTarget(s, step) != Some(t) ==>
              t in s.targets && Apply(s, step).targets[t] == s.targets[t]
  {
  }

  /** The ID a step sends into the subscription it writes. */
  function Sent(s: State, step: Step): Option<Id>
    requires Enabled(s, step)
  {
    match step
    case PutBack(r, id) => Some(id)
    case UpdaterSend(t) => Some(s.targets[t].updater.id)
    case _ => None
  }

  lemma SubAfter(s: State, step: Step, r: nat)
    requires Enabled(s, step) && TouchedSub(s, step) == Some(r) && r in s.subs
    ensures
      var s' := Apply(s, step);
      var sub, sub' := s.subs[r], s'.subs[r];
      && (forall i :: 0 <= i < |sub'.buf| ==> sub'.buf[i] in sub.buf || Some(sub'.buf[i]) == Sent(s, step))
      && (sub'.hand == sub.hand || sub'.hand.None? || (sub.buf != [] && sub'.hand == Some(sub.buf[0])))
      && (sub'.sink == sub.sink
          || (step.DrainEnd? && sub'.sink == Some(s.calls[r].pc.t))
          || (step.Compare? && sub'.sink.Some? && (sub.owner, sub'.sink.value) in s'.edges))
  {
  }

  lemma SentIsGenuine(s: State, step: Step, r: nat)
    requires AncestryInv(s) && Enabled(s, step)
    requires TouchedSub(s, step) == Some(r) && r in s.subs && Sent(s, step).Some?
    ensures Upstream(s.edges, Sent(s, step).value, s.subs[r].owner)
  {
    if step.PutBack? {
      assert CallGenuine(s, r, s.calls[r]);
    } else {
      assert TargetGenuine(s, step.t, s.targets[step.t]);
      assert OwnedBy(s, s.targets[step.t].updater.rest[0], step.t);
    }
  }

  lemma NewSubKept(s: State, step: Step)
    requires AncestryInv(s) && Enabled(s, step) && step.StartChild?
    ensures SubGenuine(Apply(s, step), Apply(s, step).subs[step.r])
  {
    assert TargetGenuine(s, step.parent, s.targets[step.parent]);
    forall i | 0 <= i < |step.order| ensures Upstream(s.edges, step.order[i], step.parent) {
      assert step.order[i] in Elements(step.order);
    }
  }

  lemma SubKept(s: State, step: Step, r: nat)
    requires AncestryInv(s) && Enabled(s, step)
    requires TouchedSub(s, step) == Some(r) && r in Apply(s, step).subs
    ensures SubGenuine(Apply(s, step), Apply(s, step).subs[r])
  {
    if step.StartChild? {
      NewSubKept(s, step);
    } else {
      ApplyWidens(s, step);
      Monotone(s.edges, Apply(s, step).edges);
      assert r in s.subs && SubGenuine(s, s.subs[r]);
      SubAfter(s, step, r);
      if Sent(s, step).Some? {
        SentIsGenuine(s, step, r);
      }
      if step.DrainEnd? {
        assert CallGenuine(s, r, s.calls[r]);
      }
    }
  }

  /** The ID a step adds to the target it writes. */
  function Delivered(s: State, step: Step): Option<Id>
    requires Enabled(s, step)
  {
    match step
    case Drain(r) => Some(s.subs[r].buf[0])
    case MonitorSend(r) => Some(s.subs[r].hand.value)
    case UpdaterLock(t) => Some(s.targets[t].updater.id)
    case _ => None
  }

  /** How a step may change a target: it delivers `got`, and `sub` is a new subscription. */
  ghost predicate Changed(x: Target, x': Target, got: Option<Id>, sub: Option<nat>) {
    && (forall id :: id in x'.dependentIDs ==> id in x.dependentIDs || Some(id) == got)
    && (forall i :: 0 <= i < |x'.incoming| ==> x'.incoming[i] in x.incoming || Some(x'.incoming[i]) == got)
    && (forall i :: 0 <= i < |x'.outgoing| ==> x'.outgoing[i] in x.outgoing || Some(x'.outgoing[i]) == sub)
    && (match x'.updater
        case Idle => true
        case Held(id) => x.updater == x'.updater || id in x.incoming
        case Sending(id, rest) =>
          (x.updater.Held? || x.updater.Sending?) && id == x.updater.id
          && forall i :: 0 <= i < |rest| ==> rest[i] in x.outgoing || (x.updater.Sending? && rest[i] in x.updater.rest))
  }

  lemma TargetAfter(s: State, step: Step, t: Id)
    requires Enabled(s, step) && TouchedTarget(s, step) == Some(t) && t in s.targets
    ensures Changed(s.targets[t], Apply(s, step).targets[t], Delivered(s, step),
                    if step.StartChild? then Some(step.r) else None)
  {
  }

  lemma ChangedGenuine(s: State, s': State, t: Id, x': Target, got: Option<Id>, sub: Option<nat>)
    requires t in s.targets && TargetGenuine(s, t, s.targets[t]) && Widens(s, s') && s'.edges == s.edges
    requires Changed(s.targets[t], x', got, sub)
    requires got.Some? ==> Requests(s.edges, got.value, t)
    requires sub.Some? ==> OwnedBy(s', sub.value, t)
    ensures TargetGenuine(s', t, x')
  {
    assert forall r :: OwnedBy(s, r, t) ==> OwnedBy(s', r, t);
  }

  lemma DeliveredIsGenuine(s: State, step: Step, t: Id)
    requires AncestryInv(s) && Enabled(s, step)
    requires TouchedTarget(s, step) == Some(t) && t in s.targets && Delivered(s, step).Some?
    ensures Requests(s.edges, Delivered(s, step).value, t)
  {
    match step
    case Drain(r) =>
      assert CallGenuine(s, r, s.calls[r]) && SubGenuine(s, s.subs[r]);
      Extend(s.edges, s.subs[r].buf[0], s.subs[r].owner, t);
    case MonitorSend(r) =>
      assert SubGenuine(s, s.subs[r]);
      Extend(s.edges, s.subs[r].hand.value, s.subs[r].owner, t);
    case UpdaterLock(_) =>
      assert TargetGenuine(s, t, s.targets[t]);
  }

  /** Targets are written, once they exist, by steps that record no request. */
  lemma TargetStepsKeepEdges(s: State, step: Step, t: Id)
    requires Enabled(s, step) && TouchedTarget(s, step) == Some(t) && t in s.targets
    ensures Apply(s, step).edges == s.edges
  {
  }

  lemma TargetKept(s: State, step: Step, t: Id)
    requires AncestryInv(s) && Enabled(s, step)
    requires TouchedTarget(s, step) == Some(t) && t in Apply(s, step).targets
    ensures TargetGenuine(Apply(s, step), t, Apply(s, step).targets[t])
  {
    if t in s.targets {
      ApplyWidens(s, step);
      TargetStepsKeepEdges(s, step, t);
      TargetAfter(s, step, t);
      if Delivered(s, step).Some? {
        DeliveredIsGenuine(s, step, t);
      }
      assert TargetGenuine(s, t, s.targets[t]);
      ChangedGenuine(s, Apply(s, step), t, Apply(s, step).targets[t], Delivered(s, step),
                     if step.StartChild? then Some(step.r) else None);
    } else {
      assert Apply(s, step).targets[t] == NewTarget(s.calls[step.r].name, false);
    }
  }

  /** How a step of call `r` may change the call. */
  predicate CallChanged(s: State, s': State, r: nat)
    requires r in s.calls && r in s'.calls
  {
    var c, c' := s.calls[r], s'.calls[r];
    && c'.name == c.name
    && (c'.dependents == c.dependents
        || (r in s.subs && s.subs[r].buf != [] && c'.dependents == c.dependents + {s.subs[r].buf[0]}))
    && (c'.pc.PuttingBack? ==> c'.pc.todo <= c'.dependents || (c.pc.PuttingBack? && c'.pc.todo <= c.pc.todo))
    && (c'.pc.Draining? ==> c'.pc == c.pc || (r in s.subs && (s.subs[r].owner, c'.pc.t) in s'.edges))
    && (c'.pc.Returned? && c'.pc.outcome.Recursion? ==>
          c.pc.Comparing? && c.pc.k < |Listed(s, c.name)|
          && c'.pc.outcome.t in c.dependents && c'.pc.outcome.t == Listed(s, c.name)[c.pc.k])
  }

  lemma WaiterAfter(s: State, step: Step, r: nat)
    requires Enabled(s, step) && Caller(step) == Some(r) && !HoldsLock(s.calls[r].pc)
    ensures r in Apply(s, step).calls && CallChanged(s, Apply(s, step), r)
  {
  }

  lemma HolderAfter(s: State, step: Step, r: nat)
    requires Enabled(s, step) && Caller(step) == Some(r) && HoldsLock(s.calls[r].pc)
    ensures r in Apply(s, step).calls && CallChanged(s, Apply(s, step), r)
  {
    if step.Create? {
      CreateAfter(s, r, step.t);
    }
  }

  lemma CreateAfter(s: State, r: nat, t: Id)
    requires Enabled(s, Create(r, t))
    ensures r in Apply(s, Create(r, t)).calls && CallChanged(s, Apply(s, Create(r, t)), r)
  {
  }

  lemma CallAfter(s: State, step: Step, r: nat)
    requires Enabled(s, step) && Caller(step) == Some(r)
    ensures r in Apply(s, step).calls && CallChanged(s, Apply(s, step), r)
  {
    if HoldsLock(s.calls[r].pc) {
      HolderAfter(s, step, r);
    } else {
      WaiterAfter(s, step, r);
    }
  }

  lemma CallKept(s: State, step: Step, r: nat)
    requires WaitInv(s) && AncestryInv(s) && Enabled(s, step) && r in s.calls && Caller(step) == Some(r)
    ensures r in Apply(s, step).calls && CallGenuine(Apply(s, step), r, Apply(s, step).calls[r])
  {
    var s' := Apply(s, step);
    ApplyWidens(s, step);
    Monotone(s.edges, s'.edges);
    CallAfter(s, step, r);
    assert CallGenuine(s, r, s.calls[r]);
    if r in s.subs {
      assert SubGenuine(s, s.subs[r]);
    }
  }

  lemma NewCallKept(s: State, step: Step, r: nat)
    requires Enabled(s, step) && r in Apply(s, step).calls && r !in s.calls
    ensures CallGenuine(Apply(s, step), r, Apply(s, step).calls[r])
  {
    if Caller(step).None? {
      BackgroundCalls(s, step);
    } else {
      CallerCalls(s, step);
    }
  }

  lemma SubsKept(s: State, step: Step)
    requires AncestryInv(s) && Enabled(s, step)
    ensures forall r :: r in Apply(s, step).subs ==> SubGenuine(Apply(s, step), Apply(s, step).subs[r])
  {
    var s' := Apply(s, step);
    ApplyWidens(s, step);
    WideningKeeps(s, s');
    OnlyTouched(s, step);
    forall r | r in s'.subs ensures SubGenuine(s', s'.subs[r]) {
      if TouchedSub(s, step) == Some(r) {
        SubKept(s, step, r);
      } else {
        assert SubGenuine(s, s.subs[r]);
      }
    }
  }

  lemma TargetsKept(s: State, step: Step)
    requires AncestryInv(s) && Enabled(s, step)
    ensures forall t :: t in Apply(s, step).targets ==> TargetGenuine(Apply(s, step), t, Apply(s, step).targets[t])
  {
    var s' := Apply(s, step);
    ApplyWidens(s, step);
    WideningKeeps(s, s');
    OnlyTouched(s, step);
    forall t | t in s'.targets ensures TargetGenuine(s', t, s'.targets[t]) {
      if TouchedTarget(s, step) == Some(t) {
        TargetKept(s, step, t);
      } else {
        assert TargetGenuine(s, t, s.targets[t]);
      }
    }
  }

  lemma CallsKept(s: State, step: Step)
    requires WaitInv(s) && AncestryInv(s) && Enabled(s, step)
    ensures forall r :: r in Apply(s, step).calls ==> CallGenuine(Apply(s, step), r, Apply(s, step).calls[r])
  {
    var s' := Apply(s, step);
    ApplyWidens(s, step);
    WideningKeeps(s, s');
    forall r | r in s'.calls ensures CallGenuine(s', r, s'.calls[r]) {
      if Caller(step) == Some(r) {
        CallKept(s, step, r);
      } else if r in s.calls {
        OthersUntouched(s, step, r);
        assert CallGenuine(s, r, s.calls[r]);
      } else {
        NewCallKept(s, step, r);
      }
    }
  }

  lemma AncestryKept(s: State, step: Step)
    requires WaitInv(s) && AncestryInv(s) && Enabled(s, step)
    ensures AncestryInv(Apply(s, step))
  {
    SubsKept(s, step);
    TargetsKept(s, step);
    CallsKept(s, step);
  }

  /** A recorded request (a, b) stands for a call that `a` made for the name of `b`. */
  ghost predicate Backed(s: State, a: Id, b: Id) {
    exists r :: BackedBy(s, a, b, r)
  }

  ghost predicate BackedBy(s: State, a: Id, b: Id, r: nat) {
    OwnedBy(s, r, a) && r in s.calls && b in s.targets && s.calls[r].name == s.targets[b].name
  }

  ghost predicate EdgesInv(s: State) {
    forall a, b :: (a, b) in s.edges ==> Backed(s, a, b)
  }

  lemma NewEdge(s: State, step: Step, a: Id, b: Id)
    requires WaitInv(s) && Enabled(s, step) && (a, b) in Apply(s, step).edges && (a, b) !in s.edges
    ensures Caller(step).Some? && BackedBy(Apply(s, step), a, b, step.r)
  {
    if !step.Compare? && !step.Create? {
      EdgesOnlyByCompareOrCreate(s, step);
    }
  }

  lemma EdgesOnlyByCompareOrCreate(s: State, step: Step)
    requires Enabled(s, step) && !step.Compare? && !step.Create?
    ensures Apply(s, step).edges == s.edges
  {
  }

  lemma EdgesKept(s: State, step: Step)
    requires WaitInv(s) && EdgesInv(s) && Enabled(s, step)
    ensures EdgesInv(Apply(s, step))
  {
    var s' := Apply(s, step);
    ApplyWidens(s, step);
    forall a, b | (a, b) in s'.edges ensures Backed(s', a, b) {
      if (a, b) in s.edges {
        assert Backed(s, a, b);
        var r :| BackedBy(s, a, b, r);
        CallNames(s, step, r);
        assert BackedBy(s', a, b, r);
      } else {
        NewEdge(s, step, a, b);
      }
    }
  }

  lemma CallNames(s: State, step: Step, r: nat)
    requires Enabled(s, step) && r in s.calls
    ensures r in Apply(s, step).calls && Apply(s, step).calls[r].name == s.calls[r].name
  {
    if Caller(step) == Some(r) {
      CallAfter(s, step, r);
    } else {
      OthersUntouched(s, step, r);
    }
  }

  predicate Finished(s: State, t: Id) {
    t in s.targets && s.targets[t].done
  }

  /** Both invariants hold at the end of every interleaving. */
  lemma {:induction false} RunsKeepInvariants(steps: seq<Step>)
    requires Run(steps).Some?
    ensures WaitInv(Run(steps).value) && AncestryInv(Run(steps).value) && EdgesInv(Run(steps).value)
  {
    if steps != [] {
      var before := steps[..|steps| - 1];
      RunsKeepInvariants(before);
      WaitKept(Run(before).value, steps[|steps| - 1]);
      AncestryKept(Run(before).value, steps[|steps| - 1]);
      EdgesKept(Run(before).value, steps[|steps| - 1]);
    }
  }

  /**
   When the wait ends with the lock held, every listed target of the wanted name is done or
   is a dependent; so no interleaving reaches the "same sts but not done" panic.
   */
  lemma NoPanicInAnyInterleaving(steps: seq<Step>, r: nat)
    requires Run(steps).Some? && r in Run(steps).value.calls
    ensures var s := Run(steps).value;
            var c := s.calls[r];
            && !(c.pc.Returned? && c.pc.outcome.Panicked?)
            && (HoldsLock(c.pc) ==>
                  s.lock == Some(r)
                  && forall i :: 0 <= i < |Listed(s, c.name)| ==>
                       Listed(s, c.name)[i] in c.dependents || Finished(s, Listed(s, c.name)[i]))
  {
    RunsKeepInvariants(steps);
    var s := Run(steps).value;
    var c := s.calls[r];
    assert CallWaits(s, c);
    if HoldsLock(c.pc) {
      forall i | 0 <= i < |Listed(s, c.name)|
        ensures Listed(s, c.name)[i] in c.dependents || Finished(s, Listed(s, c.name)[i])
      {
        assert Settled(s, c, Listed(s, c.name)[i]);
      }
    }
  }

  /** "Infinite recursion" is reported only when the named target really is upstream of the requester. */
  lemma RecursionIsGenuine(steps: seq<Step>, r: nat)
    requires Run(steps).Some? && r in Run(steps).value.calls
    requires Run(steps).value.calls[r].pc.Returned? && Run(steps).value.calls[r].pc.outcome.Recursion?
    ensures var s := Run(steps).value;
            var t := s.calls[r].pc.outcome.t;
            && t in s.targets && s.targets[t].name == s.calls[r].name
            && r in s.subs && Upstream(s.edges, t, s.subs[r].owner)
            && (forall a, b :: (a, b) in s.edges ==> Backed(s, a, b))
  {
    RunsKeepInvariants(steps);
    assert CallGenuine(Run(steps).value, r, Run(steps).value.calls[r]);
  }

  /** Wherever an ID is found, its target has really asked, directly or not, for the one holding it. */
  lemma IdsAreGenuine(steps: seq<Step>)
    requires Run(steps).Some?
    ensures var s := Run(steps).value;
            && (forall a, b :: (a, b) in s.edges ==> Backed(s, a, b))
            && (forall t, id :: t in s.targets && id in s.targets[t].dependentIDs ==> Requests(s.edges, id, t))
            && (forall t, i :: t in s.targets && 0 <= i < |s.targets[t].incoming| ==>
                  Requests(s.edges, s.targets[t].incoming[i], t))
            && (forall r, i :: r in s.subs && 0 <= i < |s.subs[r].buf| ==>
                  Upstream(s.edges, s.subs[r].buf[i], s.subs[r].owner))
            && (forall r, id :: r in s.calls && id in s.calls[r].dependents ==>
                  r in s.subs && Upstream(s.edges, id, s.subs[r].owner))
  {
    RunsKeepInvariants(steps);
    var s := Run(steps).value;
    forall t, id | t in s.targets && id in s.targets[t].dependentIDs ensures Requests(s.edges, id, t) {
      assert TargetGenuine(s, t, s.targets[t]);
    }
    forall t, i | t in s.targets && 0 <= i < |s.targets[t].incoming|
      ensures Requests(s.edges, s.targets[t].incoming[i], t)
    {
      assert TargetGenuine(s, t, s.targets[t]);
    }
    forall r, id | r in s.calls && id in s.calls[r].dependents
      ensures r in s.subs && Upstream(s.edges, id, s.subs[r].owner)
    {
      assert CallGenuine(s, r, s.calls[r]);
    }
  }
}
