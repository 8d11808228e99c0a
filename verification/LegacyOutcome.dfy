/** What a request for a target returns: the first listed target with the same inputs, or a new one. */
module LegacyOutcome {
  import opened Options
  import opened RequestGraph
  import opened LegacyVisited
  import opened LegacyAncestry
  import opened LegacySequential

  /** At step `m` of the run, call `r` compares the listed target `u` and finds `v`. */
  ghost predicate JudgedAt(steps: seq<Step>, m: nat, r: nat, u: Id, v: Verdict) {
    && m < |steps| && steps[m] == Compare(r, v) && Run(steps[..m]).Some?
    && var s := Run(steps[..m]).value;
       Enabled(s, Compare(r, v)) && Listed(s, s.calls[r].name)[s.calls[r].pc.k] == u
  }

  ghost predicate Judged(steps: seq<Step>, r: nat, u: Id, v: Verdict) {
    exists m: nat :: JudgedAt(steps, m, r, u, v)
  }

  /** Call `r` finds the listed target `u` the same and returns `o` for it. */
  ghost predicate SettledAt(steps: seq<Step>, m: nat, r: nat, u: Id, o: Outcome) {
    && JudgedAt(steps, m, r, u, Same)
    && var s' := Apply(Run(steps[..m]).value, Compare(r, Same));
       r in s'.calls && s'.calls[r].pc == Returned(o)
  }

  /** Call `r` has found the first `n` targets of the list different. */
  ghost predicate AllDifferent(steps: seq<Step>, r: nat, list: seq<Id>, n: nat) {
    n <= |list| && forall i :: 0 <= i < n ==> Judged(steps, r, list[i], Different)
  }

  ghost predicate NewAt(steps: seq<Step>, r: nat, list: seq<Id>, n: nat, t: Id) {
    n < |list| && list[n] == t && AllDifferent(steps, r, list, n)
  }

  ghost predicate SameAt(steps: seq<Step>, r: nat, list: seq<Id>, n: nat, t: Id, o: Outcome) {
    n < |list| && list[n] == t && AllDifferent(steps, r, list, n) && exists m: nat :: SettledAt(steps, m, r, t, o)
  }

  /** What a call has compared, by where it is. */
  ghost predicate CallJudged(steps: seq<Step>, c: Call, r: nat, list: seq<Id>) {
    match c.pc
    case Comparing(k) => AllDifferent(steps, r, list, k)
    case Draining(t) => AllDifferent(steps, r, list, |list|)
    case Returned(Fresh(t)) => exists n: nat :: NewAt(steps, r, list, n, t)
    case Returned(Existing(t)) => exists n: nat :: SameAt(steps, r, list, n, t, Existing(t))
    case Returned(Recursion(t)) => exists n: nat :: SameAt(steps, r, list, n, t, Recursion(t))
    case _ => true
  }

  ghost predicate AllJudged(steps: seq<Step>, s: State) {
    forall r :: r in s.calls ==> CallJudged(steps, s.calls[r], r, Listed(s, s.calls[r].name))
  }

  // ----- Longer runs and longer lists -----

  lemma JudgedLonger(steps: seq<Step>, x: Step, r: nat, u: Id, v: Verdict)
    requires Judged(steps, r, u, v)
    ensures Judged(steps + [x], r, u, v)
  {
    var m: nat :| JudgedAt(steps, m, r, u, v);
    assert (steps + [x])[..m] == steps[..m];
    assert JudgedAt(steps + [x], m, r, u, v);
  }

  lemma AllDifferentLonger(steps: seq<Step>, x: Step, r: nat, list: seq<Id>, list': seq<Id>, n: nat)
    requires AllDifferent(steps, r, list, n) && list <= list'
    ensures AllDifferent(steps + [x], r, list', n)
  {
    forall i | 0 <= i < n ensures Judged(steps + [x], r, list'[i], Different) {
      JudgedLonger(steps, x, r, list[i], Different);
    }
  }

  /** A call that is not concerned, and keeps its list unless it has returned, has compared what it had. */
  lemma CallJudgedLonger(steps: seq<Step>, x: Step, c: Call, r: nat, list: seq<Id>, list': seq<Id>)
    requires CallJudged(steps, c, r, list) && list <= list' && (HoldsLock(c.pc) ==> list' == list)
    ensures CallJudged(steps + [x], c, r, list')
  {
    match c.pc
    case Comparing(k) => AllDifferentLonger(steps, x, r, list, list', k);
    case Draining(t) => AllDifferentLonger(steps, x, r, list, list', |list|);
    case Returned(Fresh(t)) =>
      var n: nat :| NewAt(steps, r, list, n, t);
      AllDifferentLonger(steps, x, r, list, list', n);
      assert NewAt(steps + [x], r, list', n, t);
    case Returned(Existing(t)) => SameLonger(steps, x, r, list, list', t, Existing(t));
    case Returned(Recursion(t)) => SameLonger(steps, x, r, list, list', t, Recursion(t));
    case _ =>
  }

  lemma SameLonger(steps: seq<Step>, x: Step, r: nat, list: seq<Id>, list': seq<Id>, t: Id, o: Outcome)
    requires (exists n: nat :: SameAt(steps, r, list, n, t, o)) && list <= list'
    ensures exists n: nat :: SameAt(steps + [x], r, list', n, t, o)
  {
    var n: nat :| SameAt(steps, r, list, n, t, o);
    AllDifferentLonger(steps, x, r, list, list', n);
    var m: nat :| SettledAt(steps, m, r, t, o);
    assert (steps + [x])[..m] == steps[..m];
    assert SettledAt(steps + [x], m, r, t, o);
    assert SameAt(steps + [x], r, list', n, t, o);
  }

  // ----- Every step -----

  lemma CompareJudges(steps: seq<Step>, s: State, r: nat, v: Verdict)
    requires Run(steps) == Some(s) && Enabled(s, Compare(r, v))
    ensures JudgedAt(steps + [Compare(r, v)], |steps|, r, Listed(s, s.calls[r].name)[s.calls[r].pc.k], v)
    ensures Run((steps + [Compare(r, v)])[..|steps|]) == Some(s)
  {
    assert (steps + [Compare(r, v)])[..|steps|] == steps;
  }

  lemma DifferentKeeps(steps: seq<Step>, s: State, r: nat)
    requires Run(steps) == Some(s) && Enabled(s, Compare(r, Different))
    requires CallJudged(steps, s.calls[r], r, Listed(s, s.calls[r].name))
    ensures var s', x := Apply(s, Compare(r, Different)), Compare(r, Different);
            r in s'.calls && CallJudged(steps + [x], s'.calls[r], r, Listed(s', s'.calls[r].name))
  {
    var x, c := Compare(r, Different), s.calls[r];
    var list, k := Listed(s, c.name), c.pc.k;
    CompareLists(s, r, Different);
    DifferentMoves(s, r);
    CompareJudges(steps, s, r, Different);
    AllDifferentLonger(steps, x, r, list, list, k);
    OneMore(steps + [x], r, list, k);
  }

  lemma DifferentMoves(s: State, r: nat)
    requires Enabled(s, Compare(r, Different))
    ensures var s', c := Apply(s, Compare(r, Different)), s.calls[r];
            r in s'.calls && s'.calls[r] == c.(pc := Comparing(c.pc.k + 1))
  {
  }

  lemma OneMore(steps: seq<Step>, r: nat, list: seq<Id>, k: nat)
    requires k < |list| && AllDifferent(steps, r, list, k)
    requires exists m: nat :: JudgedAt(steps, m, r, list[k], Different)
    ensures AllDifferent(steps, r, list, k + 1)
  {
    assert Judged(steps, r, list[k], Different);
  }

  lemma SameKeeps(steps: seq<Step>, s: State, r: nat)
    requires Run(steps) == Some(s) && Enabled(s, Compare(r, Same))
    requires CallJudged(steps, s.calls[r], r, Listed(s, s.calls[r].name))
    ensures var s', x := Apply(s, Compare(r, Same)), Compare(r, Same);
            r in s'.calls && CallJudged(steps + [x], s'.calls[r], r, Listed(s', s'.calls[r].name))
  {
    var x, c := Compare(r, Same), s.calls[r];
    var list, k := Listed(s, c.name), c.pc.k;
    CompareLists(s, r, Same);
    CompareJudges(steps, s, r, Same);
    AllDifferentLonger(steps, x, r, list, list, k);
    var o := SameMoves(s, r);
    assert SettledAt(steps + [x], |steps|, r, list[k], o);
    assert SameAt(steps + [x], r, list, k, list[k], o);
  }

  lemma SameMoves(s: State, r: nat) returns (o: Outcome)
    requires Enabled(s, Compare(r, Same))
    ensures var s', c := Apply(s, Compare(r, Same)), s.calls[r];
            && r in s'.calls && s'.calls[r] == c.(pc := Returned(o))
            && var t := Listed(s, c.name)[c.pc.k]; o == Recursion(t) || o == Panicked(t) || o == Existing(t)
  {
    o := Apply(s, Compare(r, Same)).calls[r].pc.outcome;
  }

  lemma CreateKeeps(steps: seq<Step>, s: State, r: nat, t: Id)
    requires Enabled(s, Create(r, t)) && CallJudged(steps, s.calls[r], r, Listed(s, s.calls[r].name))
    ensures var s', x := Apply(s, Create(r, t)), Create(r, t);
            r in s'.calls && CallJudged(steps + [x], s'.calls[r], r, Listed(s', s'.calls[r].name))
  {
    var s', x, c := Apply(s, Create(r, t)), Create(r, t), s.calls[r];
    var list := Listed(s, c.name);
    AllDifferentLonger(steps, x, r, list, list, |list|);
    if r !in s.subs {
      CreateRegisters(s, r, t);
      AllDifferentLonger(steps, x, r, list, list + [t], |list|);
      assert NewAt(steps + [x], r, list + [t], |list|, t);
    }
  }

  lemma DrainEndKeeps(steps: seq<Step>, s: State, r: nat)
    requires ListsTargets(s) && Enabled(s, DrainEnd(r)) && CallJudged(steps, s.calls[r], r, Listed(s, s.calls[r].name))
    ensures var s', x := Apply(s, DrainEnd(r)), DrainEnd(r);
            r in s'.calls && CallJudged(steps + [x], s'.calls[r], r, Listed(s', s'.calls[r].name))
  {
    var x, c := DrainEnd(r), s.calls[r];
    var list, t := Listed(s, c.name), c.pc.t;
    DrainEndRegisters(s, r);
    AllDifferentLonger(steps, x, r, list, list + [t], |list|);
    assert NewAt(steps + [x], r, list + [t], |list|, t);
  }

  lemma DrainKeeps(steps: seq<Step>, s: State, r: nat)
    requires Enabled(s, Drain(r)) && CallJudged(steps, s.calls[r], r, Listed(s, s.calls[r].name))
    ensures var s', x := Apply(s, Drain(r)), Drain(r);
            r in s'.calls && CallJudged(steps + [x], s'.calls[r], r, Listed(s', s'.calls[r].name))
  {
    var list := Listed(s, s.calls[r].name);
    AllDifferentLonger(steps, Drain(r), r, list, list, |list|);
  }

  /** The other steps of a call lead nowhere near a comparison that is not its first. */
  lemma OtherKeeps(steps: seq<Step>, s: State, step: Step)
    requires Enabled(s, step) && Caller(step).Some?
    requires !(step.Compare? && !step.verdict.CompareError?) && !step.Create? && !step.DrainEnd? && !step.Drain?
    ensures var s', r := Apply(s, step), step.r;
            r in s'.calls && CallJudged(steps + [step], s'.calls[r], r, Listed(s', s'.calls[r].name))
  {
  }

  lemma CallerKeeps(steps: seq<Step>, s: State, step: Step)
    requires Run(steps) == Some(s) && WaitInv(s) && Enabled(s, step) && Caller(step).Some?
    requires CallJudged(steps, s.calls[step.r], step.r, Listed(s, s.calls[step.r].name))
    ensures var s', r := Apply(s, step), step.r;
            r in s'.calls && CallJudged(steps + [step], s'.calls[r], r, Listed(s', s'.calls[r].name))
  {
    match step
    case Compare(r, Different) => DifferentKeeps(steps, s, r);
    case Compare(r, Same) => SameKeeps(steps, s, r);
    case Create(r, t) => CreateKeeps(steps, s, r, t);
    case DrainEnd(r) => DrainEndKeeps(steps, s, r);
    case Drain(r) => DrainKeeps(steps, s, r);
    case _ => OtherKeeps(steps, s, step);
  }

  lemma BystanderKeeps(steps: seq<Step>, s: State, step: Step, r: nat)
    requires WaitInv(s) && Enabled(s, step) && r in s.calls && Caller(step) != Some(r)
    requires CallJudged(steps, s.calls[r], r, Listed(s, s.calls[r].name))
    ensures var s' := Apply(s, step);
            r in s'.calls && CallJudged(steps + [step], s'.calls[r], r, Listed(s', s'.calls[r].name))
  {
    OthersUntouched(s, step, r);
    ApplyGrows(s, step);
    HeldListSame(s, step, r);
    var name := s.calls[r].name;
    CallJudgedLonger(steps, step, s.calls[r], r, Listed(s, name), Listed(Apply(s, step), name));
  }

  lemma JudgedKept(steps: seq<Step>, s: State, step: Step)
    requires Run(steps) == Some(s) && WaitInv(s) && AllJudged(steps, s) && Enabled(s, step)
    ensures AllJudged(steps + [step], Apply(s, step))
  {
    var s' := Apply(s, step);
    forall r | r in s'.calls ensures CallJudged(steps + [step], s'.calls[r], r, Listed(s', s'.calls[r].name)) {
      if Caller(step) == Some(r) {
        CallerKeeps(steps, s, step);
      } else if r in s.calls {
        BystanderKeeps(steps, s, step, r);
      } else {
        NewCallLocks(s, step, r);
      }
    }
  }

  /**
   After every interleaving: a call that made a new target has found every target listed before it different; one
   that returned a listed target has found that one the same and all before it different.
   */
  lemma {:induction false} EveryListedTargetIsCompared(steps: seq<Step>)
    requires Run(steps).Some?
    ensures AllJudged(steps, Run(steps).value)
  {
    if steps != [] {
      var before, last := steps[..|steps| - 1], steps[|steps| - 1];
      EveryListedTargetIsCompared(before);
      RunsKeepInvariants(before);
      JudgedKept(before, Run(before).value, last);
      assert before + [last] == steps;
    }
  }

  // ----- Verdicts given by a relation -----

  /** Every comparison of the run says what `same` says. */
  ghost predicate Follows(steps: seq<Step>, same: (nat, Id) -> bool) {
    forall m: nat, r: nat, u, v :: JudgedAt(steps, m, r, u, v) ==> v == if same(r, u) then Same else Different
  }

  /** None of the first `n` targets of the list is the same. */
  ghost predicate NoneSame(same: (nat, Id) -> bool, r: nat, list: seq<Id>, n: nat) {
    n <= |list| && forall i :: 0 <= i < n ==> !same(r, list[i])
  }

  ghost predicate FirstSame(same: (nat, Id) -> bool, r: nat, list: seq<Id>, u: Id) {
    same(r, u) && exists n: nat :: n < |list| && list[n] == u && NoneSame(same, r, list, n)
  }

  lemma DifferentIsNotSame(steps: seq<Step>, same: (nat, Id) -> bool, r: nat, list: seq<Id>, n: nat)
    requires Follows(steps, same) && AllDifferent(steps, r, list, n)
    ensures NoneSame(same, r, list, n)
  {
    forall i | 0 <= i < n ensures !same(r, list[i]) {
      var m: nat :| JudgedAt(steps, m, r, list[i], Different);
    }
  }

  lemma {:induction false} SeqPrefix(steps: seq<Step>, m: nat)
    requires m < |steps| && SeqRun(steps).Some?
    ensures SeqRun(steps[..m]).Some? && SeqEnabled(SeqRun(steps[..m]).value, steps[m])
    ensures Run(steps[..m]) == Some(SeqRun(steps[..m]).value.s)
  {
    var init := steps[..|steps| - 1];
    if m < |steps| - 1 {
      SeqPrefix(init, m);
      assert init[..m] == steps[..m];
    } else {
      assert init == steps[..m];
      SeqRunIsRun(init);
    }
  }

  /** The target that a request settles on is reported as recursion exactly if it is unfinished then. */
  lemma SettledSequentially(steps: seq<Step>, m: nat, r: nat, u: Id, o: Outcome)
    requires SeqRun(steps).Some? && SettledAt(steps, m, r, u, o)
    ensures o == if Unfinished(Run(steps[..m]).value, u) then Recursion(u) else Existing(u)
  {
    SeqPrefix(steps, m);
    UnfinishedMatchIsReported(steps[..m], r);
  }

  /**
   What a request of a sequential conversion returns, unless it is cancelled. With the same inputs listed, the first
   such target: as recursion if it is unfinished when it is compared, and for reuse if it is done. A new target
   exactly if none is listed before it.
   */
  lemma RequestReturns(steps: seq<Step>, same: (nat, Id) -> bool, r: nat)
    requires SeqRun(steps).Some? && Follows(steps, same)
    requires r in SeqRun(steps).value.s.calls && SeqRun(steps).value.s.calls[r].pc.Returned?
    ensures
      var s := SeqRun(steps).value.s;
      var list := Listed(s, s.calls[r].name);
      match s.calls[r].pc.outcome
      case Fresh(t) => exists n: nat :: n < |list| && list[n] == t && NoneSame(same, r, list, n)
      case Existing(u) =>
        FirstSame(same, r, list, u)
        && exists m: nat :: SettledAt(steps, m, r, u, Existing(u)) && !Unfinished(Run(steps[..m]).value, u)
      case Recursion(u) =>
        FirstSame(same, r, list, u)
        && exists m: nat :: SettledAt(steps, m, r, u, Recursion(u)) && Unfinished(Run(steps[..m]).value, u)
      case Panicked(_) => false
      case Failed => true
  {
    SeqRunIsRun(steps);
    EveryListedTargetIsCompared(steps);
    NoPanicInAnyInterleaving(steps, r);
    var s := Run(steps).value;
    var c, list := s.calls[r], Listed(s, s.calls[r].name);
    assert CallJudged(steps, c, r, list);
    match c.pc.outcome
    case Fresh(t) =>
      var n: nat :| NewAt(steps, r, list, n, t);
      DifferentIsNotSame(steps, same, r, list, n);
    case Existing(u) => SettledOn(steps, same, r, list, u, Existing(u));
    case Recursion(u) => SettledOn(steps, same, r, list, u, Recursion(u));
    case _ =>
  }

  lemma SettledOn(steps: seq<Step>, same: (nat, Id) -> bool, r: nat, list: seq<Id>, u: Id, o: Outcome)
    requires SeqRun(steps).Some? && Follows(steps, same) && exists n: nat :: SameAt(steps, r, list, n, u, o)
    ensures FirstSame(same, r, list, u)
    ensures exists m: nat :: SettledAt(steps, m, r, u, o)
              && o == if Unfinished(Run(steps[..m]).value, u) then Recursion(u) else Existing(u)
  {
    var n: nat :| SameAt(steps, r, list, n, u, o);
    DifferentIsNotSame(steps, same, r, list, n);
    var m: nat :| SettledAt(steps, m, r, u, o);
    assert JudgedAt(steps, m, r, u, Same);
    SettledSequentially(steps, m, r, u, o);
  }
}
