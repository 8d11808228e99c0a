/** The conversion of targets over the shared collection. */
module Conversion {
  import opened Sets
  import opened UpfrontVisited
  import opened ConversionSpec
  import opened ConversionLaws
  import opened ConversionExact

  /** The collection holds the targets of `s`, with these hashes and these of them done. */
  ghost predicate Holds(vc: Collection, s: State)
    reads vc, vc.visited.Values
  {
    && vc.visited.Keys == s.hash.Keys
    && (forall k :: k in s.hash ==> vc.visited[k].hash == s.hash[k])
    && (forall k :: k in s.hash ==> (vc.visited[k].done <==> k in s.done))
    && s.done <= s.hash.Keys
  }

  /** Nothing was taken out of the collection, and what was put in is new. */
  twostate predicate Grown(vc: Collection)
    reads vc
  {
    && (forall k :: k in old(vc.visited) ==> k in vc.visited && vc.visited[k] == old(vc.visited[k]))
    && (forall t :: t in vc.visited.Values ==> t in old(vc.visited.Values) || fresh(t))
  }

  lemma StepsUnfold(g: Recipes, k: Key, steps: seq<Step>, i: nat, stack: set<Key>, s: State)
    requires i < |steps|
    ensures VisitSteps(g, k, steps[i..], stack, s) ==
      if steps[i].Rehash? then VisitSteps(g, k, steps[i + 1..], stack, Rehashed(s, k, steps[i].hash))
      else
        var r := Visit(g, steps[i].key, stack, s);
        if r.outcome.Converted? then VisitSteps(g, k, steps[i + 1..], stack, r.s) else r
  {
    assert steps[i..][1..] == steps[i + 1..];
  }

  method Enter(vc: Collection, k: Key, ghost s: State) returns (sts: Target, found: bool)
    requires vc.Valid() && Holds(vc, s)
    modifies vc
    ensures vc.Valid() && Grown(vc) && found == (k in s.hash)
    ensures Holds(vc, if found then s else Entered(s, k))
    ensures k in vc.visited && vc.visited[k] == sts
  {
    var candidate := new Target(k);
    sts, found := vc.Add(candidate);
  }

  method Declare(vc: Collection, k: Key, sts: Target, h: Key, ghost s: State)
    requires vc.Valid() && Holds(vc, s) && k in vc.visited && vc.visited[k] == sts
    modifies sts
    ensures Holds(vc, Rehashed(s, k, h))
  {
    sts.hash := h;
  }

  method Finish(vc: Collection, k: Key, sts: Target, ghost s: State)
    requires vc.Valid() && Holds(vc, s) && k in vc.visited && vc.visited[k] == sts
    modifies sts
    ensures Holds(vc, Finished(s, k))
  {
    sts.done := true;
  }

  /** `stack` holds the input hashes of the targets whose conversion led here. */
  method Convert(g: Recipes, k: Key, stack: set<Key>, vc: Collection, ghost s: State) returns (r: Outcome)
    requires vc.Valid() && Holds(vc, s)
    modifies vc, vc.visited.Values
    ensures vc.Valid() && Grown(vc)
    ensures var run := Visit(g, k, stack, s); r == run.outcome && Holds(vc, run.s)
    decreases |g.Keys - s.hash.Keys|, 0
  {
    var sts, found := Enter(vc, k, s);
    if found {
      return if sts.hash in stack then Cycle else if sts.done then Converted else Blocked;
    }
    if k !in g {
      return Unknown;
    }
    FewerLeft(g.Keys, s.hash.Keys, k);
    VisitUnfold(g, k, stack, s);
    r := ConvertNew(g, k, stack, vc, sts, Entered(s, k));
  }

  lemma VisitUnfold(g: Recipes, k: Key, stack: set<Key>, s: State)
    requires k in g && k !in s.hash
    ensures Entered(s, k).hash.Keys == s.hash.Keys + {k}
    ensures Visit(g, k, stack, s) == NewRun(g, k, stack, Entered(s, k))
  {
  }

  function NewRun(g: Recipes, k: Key, stack: set<Key>, s: State): Run
    requires k in g
  {
    var r := VisitSteps(g, k, g[k], stack + {k}, s);
    if r.outcome.Converted? then Run(Converted, Finished(r.s, k)) else r
  }

  method ConvertNew(g: Recipes, k: Key, stack: set<Key>, vc: Collection, sts: Target, ghost s: State)
    returns (r: Outcome)
    requires vc.Valid() && Holds(vc, s) && k in vc.visited && vc.visited[k] == sts && sts.hash == k && k in g
    modifies vc, vc.visited.Values
    ensures vc.Valid() && Grown(vc)
    ensures var run := NewRun(g, k, stack, s); r == run.outcome && Holds(vc, run.s)
    decreases |g.Keys - s.hash.Keys|, 2
  {
    r := ConvertSteps(g, k, g[k], stack + {sts.hash}, vc, sts, s);
    if r.Converted? {
      Finish(vc, k, sts, VisitSteps(g, k, g[k], stack + {k}, s).s);
    }
  }

  method ConvertSteps(
      g: Recipes, k: Key, steps: seq<Step>, stack: set<Key>, vc: Collection, sts: Target, ghost s: State)
    returns (r: Outcome)
    requires vc.Valid() && Holds(vc, s) && k in vc.visited && vc.visited[k] == sts
    modifies vc, vc.visited.Values
    ensures vc.Valid() && Grown(vc)
    ensures var run := VisitSteps(g, k, steps, stack, s); r == run.outcome && Holds(vc, run.s)
    decreases |g.Keys - s.hash.Keys|, 1
  {
    ghost var now := s;
    assert steps[0..] == steps;
    for i := 0 to |steps|
      invariant vc.Valid() && Grown(vc) && Holds(vc, now) && s.hash.Keys <= now.hash.Keys
      invariant VisitSteps(g, k, steps, stack, s) == VisitSteps(g, k, steps[i..], stack, now)
    {
      StepsUnfold(g, k, steps, i, stack, now);
      match steps[i]
      case Rehash(h) =>
        Declare(vc, k, sts, h, now);
        now := Rehashed(now, k, h);
      case Request(b) =>
        NotMoreLeft(g.Keys, s.hash.Keys, now.hash.Keys);
        r := Convert(g, b, stack, vc, now);
        now := Visit(g, b, stack, now).s;
        if !r.Converted? {
          return;
        }
    }
    r := Converted;
  }

  /** The first call, with an empty collection and an empty hash stack. */
  method ConvertRoot(g: Recipes, root: Key) returns (r: Outcome, vc: Collection)
    ensures vc.Valid() && r == RunOf(g, root).outcome
    ensures root !in g ==> r == Unknown
    ensures root in g ==> (r.Converted? <==> forall p :: !Stops(g, root, p))
    ensures root in g ==> forall o: Outcome :: !o.Converted? ==> (r == o <==> EndsWith(g, root, o))
    ensures r.Converted? ==> !Loops(g, root) && Closed(g, root)
    ensures r.Converted? ==> forall k :: k in vc.visited <==> Reachable(g, root, k)
    ensures r.Converted? ==> forall k :: k in vc.visited ==> vc.visited[k].done
    ensures !Loops(g, root) && Closed(g, root) ==> r == if exists p :: Mistaken(g, root, p) then Cycle else Converted
    ensures Apart(g) ==> (r.Converted? <==> !Loops(g, root) && Closed(g, root))
    ensures Fixed(g) && Closed(g, root) ==> r == if Loops(g, root) then Cycle else Converted
  {
    vc := new Collection();
    r := Convert(g, root, {}, vc, State(map[], {}));
    RootLaws(g, root);
  }

  lemma RootLaws(g: Recipes, root: Key)
    ensures var run := RunOf(g, root);
            && (root !in g ==> run.outcome == Unknown)
            && (root in g ==> (run.outcome.Converted? <==> forall p :: !Stops(g, root, p)))
            && (root in g ==> forall o: Outcome :: !o.Converted? ==> (run.outcome == o <==> EndsWith(g, root, o)))
            && (run.outcome.Converted? ==>
                  && !Loops(g, root) && Closed(g, root)
                  && (forall k :: k in run.s.hash <==> k in run.s.done)
                  && forall k :: k in run.s.hash <==> Reachable(g, root, k))
            && (!Loops(g, root) && Closed(g, root) ==>
                  run.outcome == if exists p :: Mistaken(g, root, p) then Cycle else Converted)
            && (Apart(g) ==> (run.outcome.Converted? <==> !Loops(g, root) && Closed(g, root)))
            && (Fixed(g) && Closed(g, root) ==> run.outcome == if Loops(g, root) then Cycle else Converted)
  {
    if root in g {
      ConvertedExactly(g, root);
      forall o: Outcome | !o.Converted? ensures RunOf(g, root).outcome == o <==> EndsWith(g, root, o) {
        OutcomeExactly(g, root, o);
      }
    }
    if RunOf(g, root).outcome.Converted? {
      var _ := ConvertedInOrder(g, root);
    }
    if !Loops(g, root) && Closed(g, root) {
      AcyclicExactly(g, root);
    }
    if Apart(g) {
      ApartExactly(g, root);
    }
    if Fixed(g) {
      FixedNeverBlocks(g, root);
    }
  }

  /** A target that declares an ARG and then asks for itself is not recognised: the run waits for itself. */
  lemma RehashedCycleBlocks()
    ensures var g: Recipes := map[1 := [Rehash(9), Request(1)]]; Apart(g) && RunOf(g, 1).outcome == Blocked
  {
    var g: Recipes := map[1 := [Rehash(9), Request(1)]];
    var s := State(map[1 := 1], {});
    var s1 := Rehashed(s, 1, 9);
    assert g[1][0..] == g[1];
    StepsUnfold(g, 1, g[1], 0, {1}, s);
    StepsUnfold(g, 1, g[1], 1, {1}, s1);
    assert Visit(g, 1, {1}, s1).outcome == Blocked;
    assert Entered(State(map[], {}), 1) == s && {} + {1} == {1};
    VisitUnfold(g, 1, {}, State(map[], {}));
  }

  /** A target whose hash becomes that of a target on the stack is taken for a cycle when it is asked for again. */
  lemma RehashedDiamondReported()
    ensures var g: Recipes := map[1 := [Request(2), Request(2)], 2 := [Rehash(1)]];
            !Loops(g, 1) && Closed(g, 1) && RunOf(g, 1).outcome == Cycle
  {
    var g: Recipes := map[1 := [Request(2), Request(2)], 2 := [Rehash(1)]];
    assert forall a, b :: Asks(g, a, b) ==> a == 1 && b == 2;
    var order: seq<Key> := [2, 1];
    assert order[..1] == [2] && order[0] == 2;
    assert forall i, b :: 0 <= i < |order| && Asks(g, order[i], b) ==> i == 1 && b in order[..1];
    OrderedIsAcyclic(g, order, 1);
    var s := State(map[1 := 1], {});
    var s2 := Entered(s, 2);
    var s3 := Rehashed(s2, 2, 1);
    var s4 := Finished(s3, 2);
    assert g[2][0..] == g[2] && g[1][0..] == g[1];
    StepsUnfold(g, 2, g[2], 0, {1} + {2}, s2);
    assert VisitSteps(g, 2, g[2][1..], {1} + {2}, s3) == Run(Converted, s3);
    VisitUnfold(g, 2, {1}, s);
    assert Visit(g, 2, {1}, s) == Run(Converted, s4);
    StepsUnfold(g, 1, g[1], 0, {1}, s);
    StepsUnfold(g, 1, g[1], 1, {1}, s4);
    assert Visit(g, 2, {1}, s4).outcome == Cycle;
    assert Entered(State(map[], {}), 1) == s && {} + {1} == {1};
    VisitUnfold(g, 1, {}, State(map[], {}));
  }
}
