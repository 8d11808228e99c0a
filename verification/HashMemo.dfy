/** The walk with its cache, as a function, and what the cache can and cannot change. */
module HashMemo {
  import opened Sets
  import opened Options
  import opened HashWalk
  import opened HashWalkLaws

  type Cache = map<(string, Args), Hash>

  /** Every cached hash is the pure hash of its target and arguments. */
  ghost predicate Truthful(e: Earthfile, cache: Cache) {
    forall n, a :: (n, a) in cache ==> PureHash(e, n, a) == Some(cache[(n, a)])
  }

  /** What has been written, or None after an error, and the cache. */
  datatype Run = Run(out: Option<Hash>, cache: Cache)

  /** Going through a script, with the names in `visited` forbidden. */
  function Feed(e: Earthfile, visited: set<string>, r: Run, items: seq<Item>): Run
    decreases |Names(e) - visited|, 2, |items|
  {
    if items == [] then r
    else FeedItem(e, visited, Feed(e, visited, r, items[..|items| - 1]), items[|items| - 1])
  }

  function FeedItem(e: Earthfile, visited: set<string>, r: Run, item: Item): Run
    decreases |Names(e) - visited|, 1, 0
  {
    if r.out.None? then r
    else
      match item
      case Tok(t) => Run(Some(r.out.value + [t]), r.cache)
      case Fail => Run(None, r.cache)
      case Req(n, a) =>
        var sub := Ask(e, visited, r.cache, n, a);
        Run(if sub.out.Some? then Some(r.out.value + [Sub(sub.out.value)]) else None, sub.cache)
  }

  /** The hash of another target: forbidden names first, then the cache, then a walk of its own. */
  function Ask(e: Earthfile, visited: set<string>, cache: Cache, n: string, a: Args): Run
    decreases |Names(e) - visited|, 0, 0
  {
    if n in visited then Run(None, cache)
    else if (n, a) in cache then Run(Some(cache[(n, a)]), cache)
    else if n !in Names(e) then Run(None, cache)
    else
      FewerLeft(Names(e), visited, n);
      var r := Feed(e, visited + {n}, Run(Some(e.header(a)), cache), Items(e, n, a));
      if r.out.Some? then Run(r.out, r.cache[(n, a) := r.out.value]) else r
  }

  lemma {:induction false} FeedAppend(e: Earthfile, visited: set<string>, r: Run, a: seq<Item>, b: seq<Item>)
    ensures Feed(e, visited, r, a + b) == Feed(e, visited, Feed(e, visited, r, a), b)
    decreases |b|
  {
    if b == [] {
      assert a + b == a;
    } else {
      FeedAppend(e, visited, r, a, b[..|b| - 1]);
      assert (a + b)[..|a + b| - 1] == a + b[..|b| - 1];
    }
  }

  lemma {:induction false} FeedFailed(e: Earthfile, visited: set<string>, r: Run, items: seq<Item>)
    requires r.out.None?
    ensures Feed(e, visited, r, items) == r
    decreases |items|
  {
    if items != [] {
      FeedFailed(e, visited, r, items[..|items| - 1]);
    }
  }

  // ----- What the cache can change -----

  /** The cache stays truthful, a success is the pure result, and what succeeds without the cache succeeds. */
  lemma {:induction false} FeedSound(e: Earthfile, visited: set<string>, r: Run, items: seq<Item>)
    requires Truthful(e, r.cache) && r.out.Some?
    ensures var f, pure := Feed(e, visited, r, items), Resolve(items, PureLoad(e));
            && Truthful(e, f.cache)
            && (f.out.Some? ==> pure.Some? && f.out.value == r.out.value + pure.value)
            && (Resolve(items, VisitedLoad(e, visited)).Some? ==> f.out.Some?)
    decreases |Names(e) - visited|, 1, |items|
  {
    if items == [] {
      assert r.out.value + [] == r.out.value;
    } else {
      var init, last := items[..|items| - 1], items[|items| - 1];
      FeedSound(e, visited, r, init);
      var f := Feed(e, visited, r, init);
      if f.out.Some? && last.Req? {
        AskSound(e, visited, f.cache, last.name, last.args);
      }
    }
  }

  lemma {:induction false} AskSound(e: Earthfile, visited: set<string>, cache: Cache, n: string, a: Args)
    requires Truthful(e, cache)
    ensures var r := Ask(e, visited, cache, n, a);
            && Truthful(e, r.cache)
            && (r.out.Some? ==> r.out == PureHash(e, n, a))
            && (VisitedLoad(e, visited)(n, a).Some? ==> r.out.Some?)
    decreases |Names(e) - visited|, 0, 1
  {
    if n !in visited && (n, a) !in cache && n in Names(e) {
      AskNewSound(e, visited, cache, n, a);
    }
  }

  lemma {:induction false} AskNewSound(e: Earthfile, visited: set<string>, cache: Cache, n: string, a: Args)
    requires Truthful(e, cache) && n !in visited && n in Names(e)
    ensures var r := Feed(e, visited + {n}, Run(Some(e.header(a)), cache), Items(e, n, a));
            && Truthful(e, r.cache)
            && (r.out.Some? ==> r.out == PureHash(e, n, a))
            && (VisitedLoad(e, visited)(n, a).Some? ==> r.out.Some?)
    decreases |Names(e) - visited|, 0, 0
  {
    FewerLeft(Names(e), visited, n);
    FeedSound(e, visited + {n}, Run(Some(e.header(a)), cache), Items(e, n, a));
    PureIsFixpoint(e, n, a);
  }

  /** A target that is served with the cache would be served without it exactly if no chain of its loads repeats a name. */
  lemma CacheHidesRepeats(e: Earthfile, visited: set<string>, cache: Cache, n: string, a: Args)
    requires Truthful(e, cache) && Ask(e, visited, cache, n, a).out.Some?
    ensures VisitedLoad(e, visited)(n, a).Some? <==> NeverRepeats(e, (n, a), visited)
  {
    AskSound(e, visited, cache, n, a);
    VisitedExactly(e, visited, n, a);
  }

  // ----- A repeated name that the cache hides -----

  /** `a` needs `b`, and `b` needs `a` with an argument, with which `a` needs nothing; `r` needs `b` and then `a`. */
  function Detour(): Earthfile {
    Earthfile(
      map["a" := [Refer("a")], "b" := [Refer("b")], "r" := [Refer("r")]],
      (args: Args) => map[], (args: Args) => [],
      (env: Env, text: string) => None,
      (env: Env, args: Args, text: string) =>
        if text == "r" then [Req("b", map[]), Req("a", map[])]
        else if text == "b" then [Req("a", map["k" := "v"])]
        else if "k" in args then []
        else [Req("b", map[])],
      (env: Env, text: string) => No,
      (env: Env, text: string) => None)
  }

  lemma DetourItems(n: string, args: Args)
    requires n in Detour().targets
    ensures n in Names(Detour()) && n != BASE
    ensures Items(Detour(), n, args) == [Tok(Num(1)), Tok(Str(n))] + Detour().referred(map[], args, n)
  {
    var e, b := Detour(), [Refer(n)];
    assert e.targets[n] == b && b[..0] == [];
    assert Stmts(e, b[..0], map[], args) == Script([], map[]);
    assert Stmts(e, b, map[], args).items == [Tok(Str(n))] + e.referred(map[], args, n);
  }

  lemma FeedOne(e: Earthfile, visited: set<string>, r: Run, item: Item)
    ensures Feed(e, visited, r, [item]) == FeedItem(e, visited, r, item)
  {
    assert [item][..0] == [];
  }

  lemma FeedTwo(e: Earthfile, visited: set<string>, r: Run, x: Item, y: Item)
    ensures Feed(e, visited, r, [x, y]) == FeedItem(e, visited, FeedItem(e, visited, r, x), y)
  {
    FeedOne(e, visited, r, x);
    FeedOne(e, visited, Feed(e, visited, r, [x]), y);
    FeedAppend(e, visited, r, [x], [y]);
    assert [x] + [y] == [x, y];
  }

  /** Walking one of the two targets, when what it needs is served. */
  lemma DetourWalk(visited: set<string>, cache: Cache, n: string, args: Args)
    requires n == "a" || n == "b"
    ensures var e := Detour();
            var r := Feed(e, visited, Run(Some([]), cache), Items(e, n, args));
            if n == "a" && "k" in args then r.out.Some? && r.cache == cache
            else
              var sub := Ask(e, visited, cache, if n == "a" then "b" else "a", if n == "a" then map[] else map["k" := "v"]);
              r.cache == sub.cache && (sub.out.Some? ==> r.out.Some?)
  {
    var e, r := Detour(), Run(Some([]), cache);
    var rest := e.referred(map[], args, n);
    DetourItems(n, args);
    FeedTwo(e, visited, r, Tok(Num(1)), Tok(Str(n)));
    var two := Feed(e, visited, r, [Tok(Num(1)), Tok(Str(n))]);
    assert two.out.Some? && two.cache == cache;
    FeedAppend(e, visited, r, [Tok(Num(1)), Tok(Str(n))], rest);
    if rest != [] {
      assert rest == [rest[0]];
      FeedOne(e, visited, two, rest[0]);
    }
  }

  lemma AskWalks(e: Earthfile, visited: set<string>, cache: Cache, n: string, a: Args)
    requires n !in visited && (n, a) !in cache && n in Names(e)
    ensures var r := Feed(e, visited + {n}, Run(Some(e.header(a)), cache), Items(e, n, a));
            Ask(e, visited, cache, n, a) == if r.out.Some? then Run(r.out, r.cache[(n, a) := r.out.value]) else r
  {
  }

  /** Loading b caches it, and a with an argument; a itself is not cached. */
  lemma DetourFirst() returns (r: Run)
    ensures r == Ask(Detour(), {}, map[], "b", map[]) && r.out.Some?
    ensures ("b", map[]) in r.cache && ("a", map[]) !in r.cache
  {
    var e, none: set<string>, k: Args := Detour(), {}, map["k" := "v"];
    DetourWalk(none + {"b"} + {"a"}, map[], "a", k);
    AskWalks(e, none + {"b"}, map[], "a", k);
    DetourWalk(none + {"b"}, map[], "b", map[]);
    AskWalks(e, none, map[], "b", map[]);
    r := Ask(e, none, map[], "b", map[]);
    assert k != map[] by {
      assert "k" in k;
    }
  }

  lemma DetourSecond(cache: Cache)
    requires ("b", map[]) in cache && ("a", map[]) !in cache
    ensures Ask(Detour(), {}, cache, "a", map[]).out.Some?
  {
    var none: set<string> := {};
    DetourWalk(none + {"a"}, cache, "a", map[]);
    AskWalks(Detour(), none, cache, "a", map[]);
  }

  /**
   The walk of `r`: its second load finds b in the cache and succeeds; without the cache it comes back to the
   name a and fails.
   */
  lemma DetourRoot()
    ensures var e := Detour();
            var items := LoadBlock(e, e.targets["r"], map[], map[]).items;
            && Feed(e, {}, Run(Some([]), map[]), items).out.Some?
            && Resolve(items, VisitedLoad(e, {})).None?
  {
    var e, none: set<string>, no: Args := Detour(), {}, map[];
    var start, two := Run(Some([]), map[]), [Tok(Num(1)), Tok(Str("r"))];
    DetourItems("r", no);
    FeedTwo(e, none, start, two[0], two[1]);
    var s1 := Feed(e, none, start, two);
    assert s1.out.Some? && s1.cache == map[];
    var r := DetourFirst();
    DetourSecond(r.cache);
    FeedTwo(e, none, s1, Req("b", no), Req("a", no));
    FeedAppend(e, none, start, two, [Req("b", no), Req("a", no)]);
    DetourFails();
  }

  lemma DetourFails()
    ensures var e := Detour(); Resolve(LoadBlock(e, e.targets["r"], map[], map[]).items, VisitedLoad(e, {})).None?
  {
    var e, none: set<string>, no: Args := Detour(), {}, map[];
    DetourItems("r", no);
    var items := Items(e, "r", no);
    assert items[3] == Req("a", no);
    DetourRepeats();
    ResolvesExactly(items, VisitedLoad(e, none));
  }

  lemma DetourLoads(n: string, args: Args, item: Item)
    requires n in Detour().targets && item.Req? && item in Detour().referred(map[], args, n)
    ensures Loads(Detour(), (n, args), (item.name, item.args))
  {
    DetourItems(n, args);
  }

  lemma DetourRepeats()
    ensures VisitedLoad(Detour(), {})("a", map[]).None?
  {
    var e, none: set<string>, no: Args, k: Args := Detour(), {}, map[], map["k" := "v"];
    var p: seq<Node> := [("a", no), ("b", no), ("a", k)];
    assert e.referred(map[], no, "a") == [Req("b", no)] && e.referred(map[], no, "b") == [Req("a", k)];
    DetourLoads("a", no, Req("b", no));
    DetourLoads("b", no, Req("a", k));
    assert LoadChain(e, p, ("a", no));
    assert p[0].0 == p[2].0 && !NewNames(p, none);
    VisitedExactly(e, none, "a", no);
  }
}
