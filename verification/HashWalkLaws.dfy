/** The ways of loading other targets agree wherever they succeed, and exactly when the name test fails. */
module HashWalkLaws {
  import opened Sets
  import opened Options
  import opened HashWalk

  // ----- Resolving scripts -----

  /** A script is resolved exactly if it has no error and each of its loads succeeds. */
  lemma {:induction false} ResolvesExactly(items: seq<Item>, load: Loading)
    ensures Resolve(items, load).Some? <==>
      Fail !in items && forall n, a :: Req(n, a) in items ==> load(n, a).Some?
  {
    if items != [] {
      var init, last := items[..|items| - 1], items[|items| - 1];
      ResolvesExactly(init, load);
      assert items == init + [last];
    }
  }

  /** `l2` succeeds wherever `l1` does, with the same hash. */
  ghost predicate Below(l1: Loading, l2: Loading) {
    forall n, a :: l1(n, a).Some? ==> l2(n, a) == l1(n, a)
  }

  lemma {:induction false} ResolveMonotone(items: seq<Item>, l1: Loading, l2: Loading)
    requires Below(l1, l2) && Resolve(items, l1).Some?
    ensures Resolve(items, l2) == Resolve(items, l1)
  {
    if items != [] {
      ResolveMonotone(items[..|items| - 1], l1, l2);
    }
  }

  lemma WalkMonotone(e: Earthfile, n: string, a: Args, l1: Loading, l2: Loading)
    requires Below(l1, l2) && WalkTarget(e, n, a, l1).Some?
    ensures WalkTarget(e, n, a, l2) == WalkTarget(e, n, a, l1)
  {
    ResolveMonotone(Items(e, n, a), l1, l2);
  }

  // ----- The plain definition -----

  lemma {:induction false} DeeperSame(e: Earthfile, d: nat, d': nat, n: string, a: Args)
    requires d <= d' && AtDepth(e, d, n, a).Some?
    ensures AtDepth(e, d', n, a) == AtDepth(e, d, n, a)
    decreases d, 0
  {
    DeeperIsAbove(e, d - 1, d' - 1);
    WalkMonotone(e, n, a, DepthLoad(e, d - 1), DepthLoad(e, d' - 1));
  }

  lemma {:induction false} DeeperIsAbove(e: Earthfile, d: nat, d': nat)
    requires d <= d'
    ensures Below(DepthLoad(e, d), DepthLoad(e, d'))
    decreases d, 1
  {
    forall n, a | AtDepth(e, d, n, a).Some? ensures AtDepth(e, d', n, a) == AtDepth(e, d, n, a) {
      DeeperSame(e, d, d', n, a);
    }
  }

  ghost function PureLoad(e: Earthfile): Loading {
    (n: string, a: Args) => PureHash(e, n, a)
  }

  /** The depth does not matter: whatever depth succeeds, the hash is the same. */
  lemma DepthIrrelevant(e: Earthfile, d: nat, n: string, a: Args)
    requires AtDepth(e, d, n, a).Some?
    ensures PureHash(e, n, a) == AtDepth(e, d, n, a)
  {
    var d': nat :| AtDepth(e, d', n, a).Some? && PureHash(e, n, a) == AtDepth(e, d', n, a);
    if d <= d' {
      DeeperSame(e, d, d', n, a);
    } else {
      DeeperSame(e, d', d, n, a);
    }
  }

  /** A script that is resolved makes finitely many loads, so some depth is enough for all of them. */
  lemma {:induction false} ResolveReachesDepth(e: Earthfile, items: seq<Item>) returns (d: nat)
    requires Resolve(items, PureLoad(e)).Some?
    ensures Resolve(items, DepthLoad(e, d)) == Resolve(items, PureLoad(e))
  {
    d := 0;
    if items != [] {
      var init, last := items[..|items| - 1], items[|items| - 1];
      d := ResolveReachesDepth(e, init);
      if last.Req? {
        var x: nat :| AtDepth(e, x, last.name, last.args).Some?
                      && PureHash(e, last.name, last.args) == AtDepth(e, x, last.name, last.args);
        var both := if d < x then x else d;
        DeeperIsAbove(e, d, both);
        DeeperSame(e, x, both, last.name, last.args);
        ResolveMonotone(init, DepthLoad(e, d), DepthLoad(e, both));
        d := both;
      }
    }
  }

  /** The pure hash of a target is what its script gives with pure hashes for the others, failures included. */
  lemma PureIsFixpoint(e: Earthfile, n: string, a: Args)
    ensures PureHash(e, n, a) == WalkTarget(e, n, a, PureLoad(e))
  {
    if WalkTarget(e, n, a, PureLoad(e)).Some? {
      var d := ResolveReachesDepth(e, Items(e, n, a));
      DepthIrrelevant(e, d + 1, n, a);
    } else if PureHash(e, n, a).Some? {
      var d: nat :| AtDepth(e, d, n, a).Some?;
      DepthBelowPure(e, d - 1);
      WalkMonotone(e, n, a, DepthLoad(e, d - 1), PureLoad(e));
    }
  }

  lemma DepthBelowPure(e: Earthfile, d: nat)
    ensures Below(DepthLoad(e, d), PureLoad(e))
  {
    forall n, a | AtDepth(e, d, n, a).Some? ensures PureHash(e, n, a) == AtDepth(e, d, n, a) {
      DepthIrrelevant(e, d, n, a);
    }
  }

  // ----- The code without its cache -----

  /** Where the walk that forbids repeated names succeeds, it gives the pure hash. */
  lemma {:induction false} VisitedBelowPure(e: Earthfile, visited: set<string>)
    ensures Below(VisitedLoad(e, visited), PureLoad(e))
    decreases |Names(e) - visited|
  {
    forall n, a | VisitedLoad(e, visited)(n, a).Some?
      ensures PureLoad(e)(n, a) == VisitedLoad(e, visited)(n, a)
    {
      FewerLeft(Names(e), visited, n);
      VisitedBelowPure(e, visited + {n});
      ResolveMonotone(Items(e, n, a), VisitedLoad(e, visited + {n}), PureLoad(e));
      PureIsFixpoint(e, n, a);
    }
  }

  /** Two unmemoised walks of the same target with different visited sets agree if both succeed. */
  lemma VisitedSetIrrelevant(e: Earthfile, v1: set<string>, v2: set<string>, n: string, a: Args)
    requires VisitedLoad(e, v1)(n, a).Some? && VisitedLoad(e, v2)(n, a).Some?
    ensures VisitedLoad(e, v1)(n, a) == VisitedLoad(e, v2)(n, a)
  {
    VisitedBelowPure(e, v1);
    VisitedBelowPure(e, v2);
  }

  /** A target with its arguments. */
  type Node = (string, Args)

  predicate Loads(e: Earthfile, x: Node, y: Node) {
    x.0 in Names(e) && Req(y.0, y.1) in Items(e, x.0, x.1)
  }

  /** Each target of the chain loads the next. */
  predicate LoadChain(e: Earthfile, p: seq<Node>, x: Node) {
    p != [] && p[0] == x && forall i :: 0 <= i < |p| - 1 ==> Loads(e, p[i], p[i + 1])
  }

  predicate NewNames(p: seq<Node>, visited: set<string>) {
    && (forall i :: 0 <= i < |p| ==> p[i].0 !in visited)
    && (forall i, j :: 0 <= i < j < |p| ==> p[i].0 != p[j].0)
  }

  ghost predicate NeverRepeats(e: Earthfile, x: Node, visited: set<string>) {
    forall p :: LoadChain(e, p, x) ==> NewNames(p, visited)
  }

  lemma RepeatsBelow(e: Earthfile, x: Node, visited: set<string>)
    ensures NeverRepeats(e, x, visited) <==>
      x.0 !in visited && forall y :: Loads(e, x, y) ==> NeverRepeats(e, y, visited + {x.0})
  {
    if NeverRepeats(e, x, visited) {
      assert LoadChain(e, [x], x);
      assert [x][0].0 !in visited;
      forall y, p | Loads(e, x, y) && LoadChain(e, p, y) ensures NewNames(p, visited + {x.0}) {
        NewNamesCons(e, x, p, y, visited);
      }
    }
    if x.0 !in visited && forall y :: Loads(e, x, y) ==> NeverRepeats(e, y, visited + {x.0}) {
      forall p | LoadChain(e, p, x) ensures NewNames(p, visited) {
        if |p| > 1 {
          assert Loads(e, p[0], p[1]) && LoadChain(e, p[1..], p[1]);
          assert NewNames(p[1..], visited + {x.0});
          NewNamesTail(p, visited);
        }
      }
    }
  }

  lemma NewNamesCons(e: Earthfile, x: Node, p: seq<Node>, y: Node, visited: set<string>)
    requires NeverRepeats(e, x, visited) && Loads(e, x, y) && LoadChain(e, p, y)
    ensures NewNames(p, visited + {x.0})
  {
    var q := [x] + p;
    assert LoadChain(e, q, x);
    assert NewNames(q, visited);
    forall i | 0 <= i < |p| ensures p[i].0 !in visited + {x.0} {
      assert q[i + 1] == p[i] && q[0] == x;
    }
    forall i, j | 0 <= i < j < |p| ensures p[i].0 != p[j].0 {
      assert q[i + 1] == p[i] && q[j + 1] == p[j];
    }
  }

  lemma NewNamesTail(p: seq<Node>, visited: set<string>)
    requires p != [] && p[0].0 !in visited && NewNames(p[1..], visited + {p[0].0})
    ensures NewNames(p, visited)
  {
    assert forall i :: 0 < i < |p| ==> p[i] == p[1..][i - 1];
  }

  /**
   The walk that forbids repeated names succeeds exactly if the pure hash exists and no chain of loads from the
   target repeats a name or runs into a forbidden one, whatever the arguments.
   */
  lemma {:induction false} VisitedExactly(e: Earthfile, visited: set<string>, n: string, a: Args)
    ensures VisitedLoad(e, visited)(n, a).Some? <==> PureHash(e, n, a).Some? && NeverRepeats(e, (n, a), visited)
    decreases |Names(e) - visited|
  {
    PureStep(e, n, a);
    VisitedStep(e, visited, n, a);
    RepeatsBelow(e, (n, a), visited);
    if n in Names(e) && n !in visited {
      FewerLeft(Names(e), visited, n);
      forall n', a' | Req(n', a') in Items(e, n, a)
        ensures Loads(e, (n, a), (n', a'))
        ensures VisitedLoad(e, visited + {n})(n', a').Some? <==>
          PureHash(e, n', a').Some? && NeverRepeats(e, (n', a'), visited + {n})
      {
        VisitedExactly(e, visited + {n}, n', a');
      }
    }
  }

  lemma VisitedStep(e: Earthfile, visited: set<string>, n: string, a: Args)
    ensures VisitedLoad(e, visited)(n, a).Some? <==>
      && n in Names(e) && n !in visited && Fail !in Items(e, n, a)
      && forall n', a' :: Req(n', a') in Items(e, n, a) ==> VisitedLoad(e, visited + {n})(n', a').Some?
  {
    if n in Names(e) && n !in visited {
      VisitedUnfolds(e, visited, n, a);
      ResolvesExactly(Items(e, n, a), VisitedLoad(e, visited + {n}));
    }
  }

  lemma VisitedUnfolds(e: Earthfile, visited: set<string>, n: string, a: Args)
    requires n in Names(e) && n !in visited
    ensures VisitedLoad(e, visited)(n, a) == WalkTarget(e, n, a, VisitedLoad(e, visited + {n}))
  {
  }

  lemma PureStep(e: Earthfile, n: string, a: Args)
    ensures PureHash(e, n, a).Some? <==>
      && n in Names(e) && Fail !in Items(e, n, a)
      && forall n', a' :: Req(n', a') in Items(e, n, a) ==> PureHash(e, n', a').Some?
  {
    PureIsFixpoint(e, n, a);
    if n in Names(e) {
      ResolvesExactly(Items(e, n, a), PureLoad(e));
    }
  }

  // ----- Dependencies -----

  /** `load` with another hash for one target and its arguments. */
  function Replaced(load: Loading, n: string, a: Args, h: Hash): Loading {
    (n': string, a': Args) => if n' == n && a' == a then Some(h) else load(n', a')
  }

  /** `l2` differs from `load` in the hash of one target and its arguments. */
  ghost predicate Differs(load: Loading, l2: Loading, n: string, a: Args) {
    && load(n, a).Some? && l2(n, a).Some? && l2(n, a) != load(n, a)
    && forall n', a' :: n' != n || a' != a ==> l2(n', a') == load(n', a')
  }

  lemma {:induction false} ResolveReplaced(items: seq<Item>, load: Loading, l2: Loading, n: string, a: Args)
    requires Differs(load, l2, n, a) && Resolve(items, load).Some?
    ensures var other := Resolve(items, l2);
            && other.Some? && |other.value| == |Resolve(items, load).value|
            && (other == Resolve(items, load) <==> Req(n, a) !in items)
  {
    if items != [] {
      var init, last := items[..|items| - 1], items[|items| - 1];
      ResolveLast(items, load);
      ResolveLast(items, l2);
      ResolveReplaced(init, load, l2, n, a);
      AppendedAlike(Resolve(init, load).value, Resolve(init, l2).value, LastToken(last, load), LastToken(last, l2));
      InLast(items, Req(n, a));
    }
  }

  lemma InLast(items: seq<Item>, x: Item)
    requires items != []
    ensures x in items <==> x in items[..|items| - 1] || x == items[|items| - 1]
  {
    assert items == items[..|items| - 1] + [items[|items| - 1]];
  }

  predicate LastServed(item: Item, load: Loading) {
    item.Tok? || (item.Req? && load(item.name, item.args).Some?)
  }

  function LastToken(item: Item, load: Loading): Token
    requires LastServed(item, load)
  {
    if item.Tok? then item.t else Sub(load(item.name, item.args).value)
  }

  lemma ResolveLast(items: seq<Item>, load: Loading)
    requires items != []
    ensures var init, last := Resolve(items[..|items| - 1], load), items[|items| - 1];
            Resolve(items, load) ==
            if init.Some? && LastServed(last, load) then Some(init.value + [LastToken(last, load)]) else None
  {
  }

  lemma AppendedAlike(x: Hash, y: Hash, s: Token, t: Token)
    requires |x| == |y|
    ensures x + [s] == y + [t] <==> x == y && s == t
  {
    assert (x + [s])[..|x|] == x && (y + [t])[..|y|] == y;
    assert (x + [s])[|x|] == s && (y + [t])[|y|] == t;
  }

  /** Another hash for one dependency leaves the walk successful, and changes its hash exactly if it is loaded. */
  lemma DependencyMatters(e: Earthfile, t: string, args: Args, load: Loading, n: string, a: Args, h: Hash)
    requires load(n, a).Some? && load(n, a) != Some(h) && WalkTarget(e, t, args, load).Some?
    ensures var other := WalkTarget(e, t, args, Replaced(load, n, a, h));
            other.Some? && (other == WalkTarget(e, t, args, load) <==> !Loads(e, (t, args), (n, a)))
  {
    var items := Items(e, t, args);
    var l2 := Replaced(load, n, a, h);
    assert Differs(load, l2, n, a);
    ResolveReplaced(items, load, l2, n, a);
    var x, y := Resolve(items, load).value, Resolve(items, l2).value;
    assert x == (e.header(args) + x)[|e.header(args)|..];
    assert y == (e.header(args) + y)[|e.header(args)|..];
  }
}
