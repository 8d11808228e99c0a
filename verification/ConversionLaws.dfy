/** What a conversion reports, compared with the graph of requests in the recipes. */
module ConversionLaws {
  import opened Sets
  import opened UpfrontVisited
  import opened ConversionSpec

  predicate Asks(g: Recipes, a: Key, b: Key) {
    a in g && Request(b) in g[a]
  }

  predicate Path(g: Recipes, p: seq<Key>) {
    forall i :: 0 <= i < |p| - 1 ==> Asks(g, p[i], p[i + 1])
  }

  predicate PathTo(g: Recipes, p: seq<Key>, a: Key, b: Key) {
    p != [] && p[0] == a && p[|p| - 1] == b && Path(g, p)
  }

  ghost predicate Reachable(g: Recipes, a: Key, b: Key) {
    exists p: seq<Key> :: PathTo(g, p, a, b)
  }

  /** The last key of `p` occurs in it before. */
  predicate Returns(p: seq<Key>) {
    p != [] && p[|p| - 1] in p[..|p| - 1]
  }

  /** Some path from `root` runs into itself. */
  ghost predicate Loops(g: Recipes, root: Key) {
    exists p: seq<Key> :: Path(g, p) && Returns(p) && p[0] == root
  }

  /** Every key that can be reached has a recipe. */
  ghost predicate Closed(g: Recipes, root: Key) {
    forall b :: Reachable(g, root, b) ==> b in g
  }

  /** Every key once, and after everything it asks for. */
  ghost predicate Ordered(g: Recipes, order: seq<Key>) {
    && (forall i, j :: 0 <= i < j < |order| ==> order[i] != order[j])
    && (forall i :: 0 <= i < |order| ==> order[i] in g)
    && (forall i, b :: 0 <= i < |order| && Asks(g, order[i], b) ==> b in order[..i])
  }

  // ----- Graphs -----

  lemma {:induction false} PathDescends(g: Recipes, order: seq<Key>, p: seq<Key>, n: nat)
    requires Ordered(g, order) && Path(g, p) && n < |order| && p != [] && p[0] == order[n]
    ensures forall i :: 0 < i < |p| ==> p[i] in order[..n]
    decreases |p|
  {
    if |p| > 1 {
      assert Asks(g, p[0], p[1]);
      var m :| 0 <= m < n && order[m] == p[1];
      PathDescends(g, order, p[1..], m);
      forall i | 1 < i < |p| ensures p[i] in order[..n] {
        assert p[i] == p[1..][i - 1] && p[i] in order[..m];
      }
    }
  }

  /** Keys in such an order reach no cycle and nothing without a recipe. */
  lemma OrderedIsAcyclic(g: Recipes, order: seq<Key>, root: Key)
    requires Ordered(g, order) && root in order
    ensures !Loops(g, root) && Closed(g, root)
    ensures forall b :: Reachable(g, root, b) ==> b in order
  {
    var n :| 0 <= n < |order| && order[n] == root;
    forall b | Reachable(g, root, b) ensures b in order {
      var p: seq<Key> :| PathTo(g, p, root, b);
      PathDescends(g, order, p, n);
    }
    if Loops(g, root) {
      var p: seq<Key> :| Path(g, p) && Returns(p) && p[0] == root;
      var i :| 0 <= i < |p| - 1 && p[i] == p[|p| - 1];
      PathDescends(g, order, p, n);
      assert p[i] in order;
      var m :| 0 <= m < |order| && order[m] == p[i];
      PathDescends(g, order, p[i..], m);
      assert false;
    }
  }

  // ----- Every state of a conversion -----

  /** The known targets are those being converted and those that are done, the latter listed in `order`. */
  ghost predicate Inv(g: Recipes, root: Key, s: State, stack: set<Key>, order: seq<Key>) {
    && s.hash.Keys == stack + s.done
    && stack !! s.done
    && stack <= g.Keys
    && (forall k {:trigger Reachable(g, root, k)} :: k in s.hash ==> Reachable(g, root, k))
    && (forall k :: k in order <==> k in s.done)
    && Ordered(g, order)
  }

  // ----- An induction principle for conversions -----

  /**
   `states` holds of the state and hash stack between steps, `asks` of a stack and a key that is asked
   for, and `converts` of a stack and the target being converted.
   */
  datatype Invariant = Invariant(
    states: (State, set<Key>) -> bool,
    asks: (set<Key>, Key) -> bool,
    converts: (set<Key>, Key) -> bool)

  ghost predicate Inductive(g: Recipes, v: Invariant) {
    && (forall s, stack :: v.states(s, stack) ==> stack <= s.hash.Keys)
    && (forall s, stack, k {:trigger v.states(Entered(s, k), stack + {k})} ::
          v.states(s, stack) && v.asks(stack, k) && k !in s.hash && k in g ==>
          v.states(Entered(s, k), stack + {k}) && v.converts(stack + {k}, k))
    && (forall stack, me, k {:trigger v.asks(stack, k), Asks(g, me, k)} ::
          v.converts(stack, me) && Asks(g, me, k) ==> v.asks(stack, k))
    && (forall s, stack, me, h {:trigger v.states(Rehashed(s, me, h), stack)} ::
          v.states(s, stack) && v.converts(stack, me) ==> v.states(Rehashed(s, me, h), stack))
    && (forall s, stack, k {:trigger v.states(Finished(s, k), stack)} ::
          k !in stack && v.states(s, stack + {k}) && AsksDone(g, k, s) ==> v.states(Finished(s, k), stack))
  }

  ghost predicate AsksDone(g: Recipes, k: Key, s: State) {
    forall b :: Asks(g, k, b) ==> b in s.done
  }

  lemma {:induction false} VisitLaw(g: Recipes, v: Invariant, k: Key, stack: set<Key>, s: State)
    requires Inductive(g, v) && v.states(s, stack) && v.asks(stack, k)
    ensures var r := Visit(g, k, stack, s); r.outcome.Converted? ==> v.states(r.s, stack)
    decreases |g.Keys - s.hash.Keys|, 0
  {
    if k !in s.hash && k in g {
      FewerLeft(g.Keys, s.hash.Keys, k);
      assert Entered(s, k).hash.Keys == s.hash.Keys + {k};
      assert v.states(Entered(s, k), stack + {k});
      VisitStepsLaw(g, v, k, g[k], stack + {k}, Entered(s, k));
      var r := VisitSteps(g, k, g[k], stack + {k}, Entered(s, k));
      assert r.outcome.Converted? ==> AsksDone(g, k, r.s);
    }
  }

  /** After its steps the target is as before, and what the steps ask for is done. */
  ghost predicate StepsKeep(v: Invariant, steps: seq<Step>, stack: set<Key>, r: Run) {
    r.outcome.Converted? ==> v.states(r.s, stack) && forall b :: Request(b) in steps ==> b in r.s.done
  }

  lemma {:induction false} VisitStepsLaw(g: Recipes, v: Invariant, me: Key, steps: seq<Step>, stack: set<Key>, s: State)
    requires Inductive(g, v) && v.states(s, stack) && v.converts(stack, me)
    requires me in g && EndOf(steps, g[me])
    ensures StepsKeep(v, steps, stack, VisitSteps(g, me, steps, stack, s))
    decreases |g.Keys - s.hash.Keys|, 1, |steps|, 1
  {
    if steps != [] {
      EndOfNext(steps, g[me]);
      match steps[0] {
        case Rehash(h) =>
          assert v.states(Rehashed(s, me, h), stack);
          NotMoreLeft(g.Keys, s.hash.Keys, Rehashed(s, me, h).hash.Keys);
          VisitStepsLaw(g, v, me, steps[1..], stack, Rehashed(s, me, h));
          DoneFirst(steps, VisitSteps(g, me, steps[1..], stack, Rehashed(s, me, h)).s.done);
        case Request(k) =>
          assert Asks(g, me, k);
          RequestLaw(g, v, me, steps, stack, s);
      }
    }
  }

  lemma {:induction false} RequestLaw(g: Recipes, v: Invariant, me: Key, steps: seq<Step>, stack: set<Key>, s: State)
    requires Inductive(g, v) && v.states(s, stack) && v.converts(stack, me)
    requires me in g && EndOf(steps, g[me])
    requires steps != [] && steps[0].Request? && v.asks(stack, steps[0].key)
    ensures StepsKeep(v, steps, stack, VisitSteps(g, me, steps, stack, s))
    decreases |g.Keys - s.hash.Keys|, 1, |steps|, 0
  {
    VisitLaw(g, v, steps[0].key, stack, s);
    var r := Visit(g, steps[0].key, stack, s);
    if r.outcome.Converted? {
      NotMoreLeft(g.Keys, s.hash.Keys, r.s.hash.Keys);
      EndOfNext(steps, g[me]);
      VisitStepsLaw(g, v, me, steps[1..], stack, r.s);
      DoneFirst(steps, VisitSteps(g, me, steps[1..], stack, r.s).s.done);
    }
  }

  predicate EndOf(steps: seq<Step>, all: seq<Step>) {
    |steps| <= |all| && steps == all[|all| - |steps|..]
  }

  lemma EndOfNext(steps: seq<Step>, all: seq<Step>)
    requires steps != [] && EndOf(steps, all)
    ensures EndOf(steps[1..], all) && steps[0] in all
  {
    assert all[|all| - |steps|] == steps[0];
  }

  lemma DoneFirst(steps: seq<Step>, done: set<Key>)
    requires steps != [] && (steps[0].Request? ==> steps[0].key in done)
    ensures (forall b :: Request(b) in steps[1..] ==> b in done) ==> forall b :: Request(b) in steps ==> b in done
  {
    assert forall b :: Request(b) in steps ==> Request(b) == steps[0] || Request(b) in steps[1..];
  }

  // ----- The invariant of every conversion -----

  /** `calls` are the targets being converted, outermost first; the last of them is `me`. */
  ghost predicate Calls(g: Recipes, root: Key, stack: set<Key>, calls: seq<Key>, me: Key) {
    PathTo(g, calls, root, me) && forall c :: c in stack ==> c in calls
  }

  ghost predicate Converts(g: Recipes, root: Key, stack: set<Key>, me: Key) {
    me in stack && exists calls: seq<Key> :: Calls(g, root, stack, calls, me)
  }

  ghost predicate Asking(g: Recipes, root: Key, stack: set<Key>, k: Key) {
    exists calls: seq<Key> :: PathTo(g, calls + [k], root, k) && forall c :: c in stack ==> c in calls
  }

  ghost predicate Good(g: Recipes, root: Key, s: State, stack: set<Key>) {
    exists order: seq<Key> :: Inv(g, root, s, stack, order)
  }

  ghost function Always(g: Recipes, root: Key): Invariant {
    Invariant(
      (s, stack) => Good(g, root, s, stack),
      (stack, k) => Asking(g, root, stack, k),
      (stack, me) => Converts(g, root, stack, me))
  }

  lemma Enter(g: Recipes, root: Key, k: Key, s: State, stack: set<Key>)
    requires Good(g, root, s, stack) && Asking(g, root, stack, k) && k !in s.hash && k in g
    ensures Good(g, root, Entered(s, k), stack + {k}) && Converts(g, root, stack + {k}, k)
  {
    var order: seq<Key> :| Inv(g, root, s, stack, order);
    var calls: seq<Key> :| PathTo(g, calls + [k], root, k) && forall c :: c in stack ==> c in calls;
    assert Reachable(g, root, k);
    assert Inv(g, root, Entered(s, k), stack + {k}, order);
    assert Calls(g, root, stack + {k}, calls + [k], k);
  }

  lemma AskingOn(g: Recipes, root: Key, me: Key, stack: set<Key>, k: Key)
    requires Converts(g, root, stack, me) && Asks(g, me, k)
    ensures Asking(g, root, stack, k)
  {
    var calls: seq<Key> :| Calls(g, root, stack, calls, me);
    assert PathTo(g, calls + [k], root, k);
  }

  lemma RehashKept(g: Recipes, root: Key, me: Key, h: Key, s: State, stack: set<Key>)
    requires Good(g, root, s, stack) && Converts(g, root, stack, me)
    ensures Good(g, root, Rehashed(s, me, h), stack)
  {
    var order: seq<Key> :| Inv(g, root, s, stack, order);
    assert s.hash[me := h].Keys == s.hash.Keys;
    assert Inv(g, root, Rehashed(s, me, h), stack, order);
  }

  lemma Leave(g: Recipes, root: Key, k: Key, s: State, stack: set<Key>)
    requires k !in stack && Good(g, root, s, stack + {k}) && AsksDone(g, k, s)
    ensures Good(g, root, Finished(s, k), stack)
  {
    var order: seq<Key> :| Inv(g, root, s, stack + {k}, order);
    LeaveOrdered(g, k, order);
    assert Inv(g, root, Finished(s, k), stack, order + [k]);
  }

  lemma LeaveOrdered(g: Recipes, k: Key, order: seq<Key>)
    requires Ordered(g, order) && k in g && k !in order
    requires forall b :: Asks(g, k, b) ==> b in order
    ensures Ordered(g, order + [k])
  {
    var o := order + [k];
    forall i, b | 0 <= i < |o| && Asks(g, o[i], b) ensures b in o[..i] {
      assert o[..i] == order[..i];
      assert order[..|order|] == order;
    }
  }

  lemma AlwaysInductive(g: Recipes, root: Key)
    ensures Inductive(g, Always(g, root))
  {
    forall s, stack, k | Good(g, root, s, stack) && Asking(g, root, stack, k) && k !in s.hash && k in g
      ensures Good(g, root, Entered(s, k), stack + {k}) && Converts(g, root, stack + {k}, k)
    { Enter(g, root, k, s, stack); }
    forall stack, me, k | Converts(g, root, stack, me) && Asks(g, me, k)
      ensures Asking(g, root, stack, k) { AskingOn(g, root, me, stack, k); }
    forall s, stack, me, h | Good(g, root, s, stack) && Converts(g, root, stack, me)
      ensures Good(g, root, Rehashed(s, me, h), stack) { RehashKept(g, root, me, h, s, stack); }
    forall s, stack, k | k !in stack && Good(g, root, s, stack + {k}) && AsksDone(g, k, s)
      ensures Good(g, root, Finished(s, k), stack) { Leave(g, root, k, s, stack); }
  }

  // ----- Whole runs -----

  function RunOf(g: Recipes, root: Key): Run {
    Visit(g, root, {}, State(map[], {}))
  }

  /** For all recipes: a conversion that succeeds has converted exactly the reachable targets, each once. */
  lemma ConvertedInOrder(g: Recipes, root: Key) returns (order: seq<Key>)
    requires RunOf(g, root).outcome.Converted?
    ensures Ordered(g, order) && !Loops(g, root) && Closed(g, root)
    ensures forall k :: k in order <==> Reachable(g, root, k)
    ensures forall k :: k in order <==> k in RunOf(g, root).s.hash
    ensures forall k :: k in order <==> k in RunOf(g, root).s.done
  {
    assert PathTo(g, [] + [root], root, root);
    var none: set<Key>, start := {}, State(map[], {});
    assert Inv(g, root, start, none, []);
    assert Good(g, root, start, none) && Asking(g, root, none, root);
    AlwaysInductive(g, root);
    VisitLaw(g, Always(g, root), root, none, start);
    assert Good(g, root, RunOf(g, root).s, none);
    order :| Inv(g, root, RunOf(g, root).s, none, order);
    OrderedIsAcyclic(g, order, root);
  }
}
