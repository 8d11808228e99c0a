/** The memoising loader: one object per target being walked, all sharing one cache. */
module HashLoader {
  import opened Sets
  import opened Options
  import opened HashWalk
  import opened HashWalkLaws
  import opened HashMemo

  /** The cache and the statistics that all loaders of one run share. */
  class Shared {
    var hashCache: Cache
    var targetsVisited: int
    var targetsHashed: int
    var targetCacheHits: int

    constructor ()
      ensures hashCache == map[] && targetsVisited == targetsHashed == targetCacheHits == 0
    {
      hashCache := map[];
      targetsVisited, targetsHashed, targetCacheHits := 0, 0, 0;
    }

    /** Targets entered and neither hashed nor served from the cache. */
    function Open(): int
      reads this
    {
      targetsVisited - targetsHashed - targetCacheHits
    }
  }

  /** A loader's variables and transcript. */
  datatype St = St(env: Env, out: Hash)

  /** From `st0` and `cache0`, going through the script `sc` succeeds (`ok`) and leads to `st`, and to `cache` in any case. */
  ghost predicate Did(
      e: Earthfile, visited: set<string>, st0: St, cache0: Cache, sc: Script, ok: bool, st: St, cache: Cache)
  {
    var r := Feed(e, visited, Run(Some(st0.out), cache0), sc.items);
    cache == r.cache && (ok <==> r.out.Some?) && (ok ==> st == St(sc.env, r.out.value))
  }

  lemma DidNothing(e: Earthfile, visited: set<string>, st: St, cache: Cache, env: Env)
    ensures Did(e, visited, st, cache, Script([], env), true, St(env, st.out), cache)
  {
  }

  /** A script and then another; if the first fails the second does not matter. */
  lemma DidThen(
      e: Earthfile, visited: set<string>, st0: St, cache0: Cache, p: Script, ok1: bool, st1: St, cache1: Cache,
      q: Script, ok: bool, st: St, cache: Cache)
    requires Did(e, visited, st0, cache0, p, ok1, st1, cache1)
    requires if ok1 then Did(e, visited, st1, cache1, q, ok, st, cache) else !ok && cache == cache1
    ensures Did(e, visited, st0, cache0, Joined(p, q), ok, st, cache)
  {
    FeedAppend(e, visited, Run(Some(st0.out), cache0), p.items, q.items);
    if !ok1 {
      FeedFailed(e, visited, Feed(e, visited, Run(Some(st0.out), cache0), p.items), q.items);
    }
  }

  class Loader {
    const e: Earthfile
    const args: Args
    /** Names being walked, this loader's included unless it is the root. */
    const visited: set<string>
    /** How many targets below the root this loader is. */
    const depth: nat
    const shared: Shared
    var st: St

    ghost predicate Valid() {
      visited <= Names(e) && depth == |visited|
    }

    constructor (e: Earthfile, args: Args, visited: set<string>, depth: nat, shared: Shared, st: St)
      ensures this.e == e && this.args == args && this.visited == visited && this.depth == depth
              && this.shared == shared && this.st == st
    {
      this.e, this.args, this.visited, this.depth, this.shared, this.st := e, args, visited, depth, shared, st;
    }

    method Write(t: Token)
      modifies this
      ensures st == old(st).(out := old(st).out + [t])
      ensures Did(e, visited, old(st), shared.hashCache, Wrote(t, old(st).env), true, st, shared.hashCache)
    {
      FeedOne(e, visited, Run(Some(st.out), shared.hashCache), Tok(t));
      st := st.(out := st.out + [t]);
    }

    method HandleStatements(b: Block) returns (ok: bool)
      requires Valid()
      modifies this, shared
      ensures Did(e, visited, old(st), old(shared.hashCache), LoadBlock(e, b, old(st).env, args), ok, st, shared.hashCache)
      ensures ok ==> shared.Open() == old(shared.Open())
      decreases |Names(e) - visited|, Size(b), 3, 0
    {
      ghost var st0, cache0 := st, shared.hashCache;
      Write(Num(|b|));
      ghost var st1 := st;
      assert b[..0] == [];
      DidNothing(e, visited, st1, cache0, st1.env);
      for i := 0 to |b|
        invariant Did(e, visited, st1, cache0, Stmts(e, b[..i], st1.env, args), true, st, shared.hashCache)
        invariant shared.Open() == old(shared.Open())
      {
        SizeOfElement(b, i);
        ghost var st2, cache2 := st, shared.hashCache;
        ok := HandleStatement(b[i]);
        StmtsNext(e, b, i, st1.env, args);
        DidThen(e, visited, st1, cache0, Stmts(e, b[..i], st1.env, args), true, st2, cache2,
                Statement(e, b[i], st2.env, args), ok, st, shared.hashCache);
        if !ok {
          StmtsStop(e, visited, st1, cache0, b, i + 1, args, st, shared.hashCache);
          DidThen(e, visited, st0, cache0, Wrote(Num(|b|), st0.env), true, st1, cache0,
                  Stmts(e, b, st1.env, args), false, st, shared.hashCache);
          return;
        }
      }
      assert b[..|b|] == b;
      DidThen(e, visited, st0, cache0, Wrote(Num(|b|), st0.env), true, st1, cache0,
              Stmts(e, b, st1.env, args), true, st, shared.hashCache);
      ok := true;
    }

    method HandleStatement(s: Stmt) returns (ok: bool)
      requires Valid()
      modifies this, shared
      ensures Did(e, visited, old(st), old(shared.hashCache), Statement(e, s, old(st).env, args), ok, st, shared.hashCache)
      ensures ok ==> shared.Open() == old(shared.Open())
      decreases |Names(e) - visited|, StmtSize(s) + 1, 1, 0
    {
      ghost var st0, cache0 := st, shared.hashCache;
      match s
      case Command(text) =>
        Write(Str(text));
        ok := true;
      case Declare(text) => ok := HandleDeclare(text);
      case Refer(text) =>
        Write(Str(text));
        ghost var st1 := st;
        ok := HandleReferences(e.referred(st.env, args, text));
        DidThen(e, visited, st0, cache0, Wrote(Str(text), st0.env), true, st1, cache0,
                Script(e.referred(st0.env, args, text), st0.env), ok, st, shared.hashCache);
      case With(text, body) => ok := HandleWith(text, body);
      case If(text, _, _, _, _) =>
        Write(Str(text));
        ghost var st1 := st;
        ok := HandleIf(s);
        DidThen(e, visited, st0, cache0, Wrote(Str(text), st0.env), true, st1, cache0,
                Conditional(e, s, 0, st0.env, args), ok, st, shared.hashCache);
      case For(text, body) => ok := HandleFor(text, body);
      case Wait(text, body) =>
        ok := WriteThenBlock(Str(text), body);
      case Try(t, c, f) => ok := HandleTry(t, c, f);
    }

    method WriteThenBlock(t: Token, b: Block) returns (ok: bool)
      requires Valid()
      modifies this, shared
      ensures Did(e, visited, old(st), old(shared.hashCache),
                  Joined(Wrote(t, old(st).env), LoadBlock(e, b, old(st).env, args)), ok, st, shared.hashCache)
      ensures ok ==> shared.Open() == old(shared.Open())
      decreases |Names(e) - visited|, Size(b), 4, 0
    {
      ghost var st0, cache0 := st, shared.hashCache;
      Write(t);
      ghost var st1 := st;
      ok := HandleStatements(b);
      DidThen(e, visited, st0, cache0, Wrote(t, st0.env), true, st1, cache0,
              LoadBlock(e, b, st0.env, args), ok, st, shared.hashCache);
    }

    /** ARG, LET, SET and IMPORT. */
    method HandleDeclare(text: string) returns (ok: bool)
      modifies this
      ensures Did(e, visited, old(st), shared.hashCache, Statement(e, Declare(text), old(st).env, args), ok, st, shared.hashCache)
    {
      ghost var st0, cache := st, shared.hashCache;
      Write(Str(text));
      ghost var st1 := st;
      var d := e.declared(st.env, text);
      if d.None? {
        FeedOne(e, visited, Run(Some(st.out), cache), Fail);
        ok := false;
        DidThen(e, visited, st0, cache, Wrote(Str(text), st0.env), true, st1, cache, Script([Fail], st0.env), ok, st, cache);
      } else {
        FeedToks(e, visited, Run(Some(st.out), cache), d.value.0);
        st := St(d.value.1, st.out + d.value.0);
        ok := true;
        DidThen(e, visited, st0, cache, Wrote(Str(text), st0.env), true, st1, cache,
                Script(Toks(d.value.0), d.value.1), ok, st, cache);
      }
    }

    /** What a command that refers to targets writes and loads, in order. */
    method HandleReferences(items: seq<Item>) returns (ok: bool)
      requires Valid()
      modifies this, shared
      ensures Did(e, visited, old(st), old(shared.hashCache), Script(items, old(st).env), ok, st, shared.hashCache)
      ensures ok ==> shared.Open() == old(shared.Open())
      decreases |Names(e) - visited|, 0, 1, 0
    {
      ghost var r0 := Run(Some(st.out), shared.hashCache);
      assert items[..0] == [];
      for i := 0 to |items|
        invariant Feed(e, visited, r0, items[..i]) == Run(Some(st.out), shared.hashCache)
        invariant st.env == old(st).env && shared.Open() == old(shared.Open())
      {
        assert items[..i + 1][..i] == items[..i];
        assert items == items[..i + 1] + items[i + 1..];
        FeedAppend(e, visited, r0, items[..i + 1], items[i + 1..]);
        match items[i] {
          case Tok(t) => st := st.(out := st.out + [t]);
          case Fail =>
            FeedFailed(e, visited, Run(None, shared.hashCache), items[i + 1..]);
            return false;
          case Req(n, a) =>
            var hash := LoadTarget(n, a);
            if hash.None? {
              FeedFailed(e, visited, Run(None, shared.hashCache), items[i + 1..]);
              return false;
            }
            st := st.(out := st.out + [Sub(hash.value)]);
        }
      }
      assert items[..|items|] == items;
      ok := true;
    }

    method HandleWith(text: string, body: Block) returns (ok: bool)
      requires Valid()
      modifies this, shared
      ensures Did(e, visited, old(st), old(shared.hashCache), Statement(e, With(text, body), old(st).env, args), ok, st, shared.hashCache)
      ensures ok ==> shared.Open() == old(shared.Open())
      decreases |Names(e) - visited|, Size(body), 4, 0
    {
      ghost var st0, cache0 := st, shared.hashCache;
      var items := e.referred(st.env, args, text);
      ok := HandleReferences(items);
      ghost var ok1, st1, cache1 := ok, st, shared.hashCache;
      if ok {
        ok := HandleStatements(body);
      }
      DidThen(e, visited, st0, cache0, Script(items, st0.env), ok1, st1, cache1,
              LoadBlock(e, body, st0.env, args), ok, st, shared.hashCache);
    }

    /** Evaluates the conditions in turn; the first that holds, or cannot be decided, ends the search. */
    method HandleIf(s: Stmt) returns (ok: bool)
      requires Valid() && s.If?
      modifies this, shared
      ensures Did(e, visited, old(st), old(shared.hashCache), Conditional(e, s, 0, old(st).env, args), ok, st, shared.hashCache)
      ensures ok ==> shared.Open() == old(shared.Open())
      decreases |Names(e) - visited|, StmtSize(s), 5, 0
    {
      var i := 0;
      while i <= |s.elseIfs|
        invariant i <= |s.elseIfs| + 1
        invariant st == old(st) && shared.hashCache == old(shared.hashCache) && shared.Open() == old(shared.Open())
        invariant Conditional(e, s, 0, st.env, args) == Conditional(e, s, i, st.env, args)
      {
        match e.tested(st.env, CondOf(s, i)) {
          case Yes =>
            ok := HandleStatements(BodyOf(s, i));
            return;
          case Complex =>
            ok := HandleIfDefault(s);
            return;
          case Broken =>
            FeedOne(e, visited, Run(Some(st.out), shared.hashCache), Fail);
            return false;
          case No =>
        }
        i := i + 1;
      }
      ok := HandleOptional(s.elseBody);
    }

    method HandleOptional(b: OptBlock) returns (ok: bool)
      requires Valid()
      modifies this, shared
      ensures Did(e, visited, old(st), old(shared.hashCache), MaybeBlock(e, b, old(st).env, args), ok, st, shared.hashCache)
      ensures ok ==> shared.Open() == old(shared.Open())
      decreases |Names(e) - visited|, OptSize(b), 4, 0
    {
      if b.Absent? {
        DidNothing(e, visited, st, shared.hashCache, st.env);
        ok := true;
      } else {
        ok := HandleStatements(b.block);
      }
    }

    /** Every branch, for want of a decision. */
    method HandleIfDefault(s: Stmt) returns (ok: bool)
      requires Valid() && s.If?
      modifies this, shared
      ensures Did(e, visited, old(st), old(shared.hashCache), Everything(e, s, old(st).env, args), ok, st, shared.hashCache)
      ensures ok ==> shared.Open() == old(shared.Open())
      decreases |Names(e) - visited|, StmtSize(s), 4, 0
    {
      ghost var st0, cache0 := st, shared.hashCache;
      ghost var p := LoadBlock(e, s.thenBody, st.env, args);
      ok := HandleStatements(s.thenBody);
      ghost var ok1, st1, cache1 := ok, st, shared.hashCache;
      if ok {
        ok := HandleBranches(s.elseIfs);
      }
      ghost var ok2, st2, cache2 := ok, st, shared.hashCache;
      DidThen(e, visited, st0, cache0, p, ok1, st1, cache1, Branches(e, s.elseIfs, p.env, args), ok2, st2, cache2);
      ghost var q := Joined(p, Branches(e, s.elseIfs, p.env, args));
      if ok {
        ok := HandleOptional(s.elseBody);
      }
      DidThen(e, visited, st0, cache0, q, ok2, st2, cache2, MaybeBlock(e, s.elseBody, q.env, args), ok, st, shared.hashCache);
    }

    method HandleBranches(es: seq<ElseIf>) returns (ok: bool)
      requires Valid()
      modifies this, shared
      ensures Did(e, visited, old(st), old(shared.hashCache), Branches(e, es, old(st).env, args), ok, st, shared.hashCache)
      ensures ok ==> shared.Open() == old(shared.Open())
      decreases |Names(e) - visited|, ElseIfsSize(es), 5, 0
    {
      ghost var st0, cache0 := st, shared.hashCache;
      assert es[..0] == [];
      DidNothing(e, visited, st0, cache0, st0.env);
      for i := 0 to |es|
        invariant Did(e, visited, st0, cache0, Branches(e, es[..i], st0.env, args), true, st, shared.hashCache)
        invariant shared.Open() == old(shared.Open())
      {
        BranchSize(es, i);
        ghost var st1, cache1 := st, shared.hashCache;
        ok := WriteThenBlock(Str(es[i].text), es[i].body);
        assert es[..i + 1][..i] == es[..i];
        DidThen(e, visited, st0, cache0, Branches(e, es[..i], st0.env, args), true, st1, cache1,
                Branch(e, es[i], st1.env, args), ok, st, shared.hashCache);
        if !ok {
          BranchesStop(e, visited, st0, cache0, es, i + 1, args, st, shared.hashCache);
          return;
        }
      }
      assert es[..|es|] == es;
      ok := true;
    }

    method HandleFor(text: string, body: Block) returns (ok: bool)
      requires Valid()
      modifies this, shared
      ensures Did(e, visited, old(st), old(shared.hashCache), Statement(e, For(text, body), old(st).env, args), ok, st, shared.hashCache)
      ensures ok ==> shared.Open() == old(shared.Open())
      decreases |Names(e) - visited|, Size(body), 6, 0
    {
      ghost var st0, cache0 := st, shared.hashCache;
      Write(Str(text));
      ghost var st1 := st;
      var vals := e.values(st.env, text);
      if vals.None? {
        FeedOne(e, visited, Run(Some(st.out), cache0), Fail);
        ok := false;
        DidThen(e, visited, st0, cache0, Wrote(Str(text), st0.env), true, st1, cache0, Script([Fail], st0.env), ok, st, cache0);
      } else {
        var x, vs := vals.value.0, vals.value.1;
        Write(Num(|vs|));
        ghost var st2 := st;
        ok := HandleRounds(x, vs, body);
        DidThen(e, visited, st1, cache0, Wrote(Num(|vs|), st1.env), true, st2, cache0,
                Rounds(e, x, vs, body, st2.env, args), ok, st, shared.hashCache);
        DidThen(e, visited, st0, cache0, Wrote(Str(text), st0.env), true, st1, cache0,
                Joined(Wrote(Num(|vs|), st1.env), Rounds(e, x, vs, body, st2.env, args)), ok, st, shared.hashCache);
      }
    }

    method HandleRounds(x: string, vals: seq<string>, body: Block) returns (ok: bool)
      requires Valid()
      modifies this, shared
      ensures Did(e, visited, old(st), old(shared.hashCache), Rounds(e, x, vals, body, old(st).env, args), ok, st, shared.hashCache)
      ensures ok ==> shared.Open() == old(shared.Open())
      decreases |Names(e) - visited|, Size(body), 5, 0
    {
      ghost var st0, cache0 := st, shared.hashCache;
      assert vals[..0] == [];
      DidNothing(e, visited, st0, cache0, st0.env);
      for i := 0 to |vals|
        invariant Did(e, visited, st0, cache0, Rounds(e, x, vals[..i], body, st0.env, args), true, st, shared.hashCache)
        invariant shared.Open() == old(shared.Open())
      {
        ghost var st1, cache1 := st, shared.hashCache;
        ok := HandleRound(x, vals[i], body);
        assert vals[..i + 1][..i] == vals[..i];
        DidThen(e, visited, st0, cache0, Rounds(e, x, vals[..i], body, st0.env, args), true, st1, cache1,
                Round(e, x, vals[i], body, st1.env, args), ok, st, shared.hashCache);
        if !ok {
          RoundsStop(e, visited, st0, cache0, x, vals, i + 1, body, args, st, shared.hashCache);
          return;
        }
      }
      assert vals[..|vals|] == vals;
      ok := true;
    }

    method HandleRound(x: string, v: string, body: Block) returns (ok: bool)
      requires Valid()
      modifies this, shared
      ensures Did(e, visited, old(st), old(shared.hashCache), Round(e, x, v, body, old(st).env, args), ok, st, shared.hashCache)
      ensures ok ==> shared.Open() == old(shared.Open())
      decreases |Names(e) - visited|, Size(body), 4, 0
    {
      ghost var st0, cache0 := st, shared.hashCache;
      ghost var t := Str("FOR " + x + "=" + v);
      Write(Str("FOR " + x + "=" + v));
      st := st.(env := st.env[x := v]);
      ghost var st1 := st;
      ok := HandleStatements(body);
      ghost var ok1, st2 := ok, st;
      ghost var p := LoadBlock(e, body, st0.env[x := v], args);
      RoundSteps(e, visited, st0, cache0, t, st1, p, ok1, st2, shared.hashCache, x);
      if ok {
        st := st.(env := st.env - {x});
      }
    }

    method HandleTry(t: Block, c: OptBlock, f: OptBlock) returns (ok: bool)
      requires Valid()
      modifies this, shared
      ensures Did(e, visited, old(st), old(shared.hashCache), Statement(e, Try(t, c, f), old(st).env, args), ok, st, shared.hashCache)
      ensures ok ==> shared.Open() == old(shared.Open())
      decreases |Names(e) - visited|, StmtSize(Try(t, c, f)), 5, 0
    {
      ghost var st0, cache0 := st, shared.hashCache;
      ghost var p := Joined(Wrote(Str("TRY"), st.env), LoadBlock(e, t, st.env, args));
      ok := WriteThenBlock(Str("TRY"), t);
      ghost var ok1, st1, cache1 := ok, st, shared.hashCache;
      if ok {
        ok := HandleOptional(c);
      }
      ghost var ok2, st2, cache2 := ok, st, shared.hashCache;
      DidThen(e, visited, st0, cache0, p, ok1, st1, cache1, MaybeBlock(e, c, p.env, args), ok2, st2, cache2);
      ghost var q := Joined(p, MaybeBlock(e, c, p.env, args));
      if ok {
        ok := HandleOptional(f);
      }
      DidThen(e, visited, st0, cache0, q, ok2, st2, cache2, MaybeBlock(e, f, q.env, args), ok, st, shared.hashCache);
    }

    /** The hash of a referenced target, from the cache or by a new loader. */
    method LoadTarget(n: string, a: Args) returns (hash: Option<Hash>)
      requires Valid()
      modifies shared
      ensures Run(hash, shared.hashCache) == Ask(e, visited, old(shared.hashCache), n, a)
      ensures n in visited ==> hash == None && shared.targetsVisited == old(shared.targetsVisited)
      ensures n !in visited && (n, a) in old(shared.hashCache) ==>
                && hash == Some(old(shared.hashCache)[(n, a)]) && shared.hashCache == old(shared.hashCache)
                && shared.targetCacheHits == old(shared.targetCacheHits) + 1
      ensures hash.Some? ==> shared.Open() == old(shared.Open())
      decreases |Names(e) - visited|, 0, 0, 0
    {
      if n in visited {
        return None;
      }
      shared.targetsVisited := shared.targetsVisited + 1;
      if (n, a) in shared.hashCache {
        shared.targetCacheHits := shared.targetCacheHits + 1;
        return Some(shared.hashCache[(n, a)]);
      }
      if n !in Names(e) {
        return None;
      }
      AskWalks(e, visited, shared.hashCache, n, a);
      FewerLeft(Names(e), visited, n);
      var child := new Loader(e, a, visited + {n}, depth + 1, shared, St(e.initial(a), e.header(a)));
      if n != BASE {
        var ok := child.HandleStatements(e.targets[n]);
        if !ok {
          return None;
        }
      }
      shared.hashCache := shared.hashCache[(n, a) := child.st.out];
      shared.targetsHashed := shared.targetsHashed + 1;
      return Some(child.st.out);
    }
  }

  // ----- Scripts cut short -----

  lemma StmtsNext(e: Earthfile, b: Block, i: nat, env: Env, args: Args)
    requires i < |b|
    ensures var p := Stmts(e, b[..i], env, args);
            Stmts(e, b[..i + 1], env, args) == Joined(p, Statement(e, b[i], p.env, args))
  {
    assert b[..i + 1][..i] == b[..i];
  }

  lemma {:induction false} StmtsStop(
      e: Earthfile, visited: set<string>, st0: St, cache0: Cache, b: Block, i: nat, args: Args, st: St, cache: Cache)
    requires i <= |b| && Did(e, visited, st0, cache0, Stmts(e, b[..i], st0.env, args), false, st, cache)
    ensures Did(e, visited, st0, cache0, Stmts(e, b, st0.env, args), false, st, cache)
    decreases |b| - i
  {
    if i == |b| {
      assert b[..i] == b;
    } else {
      StmtsNext(e, b, i, st0.env, args);
      var p := Stmts(e, b[..i], st0.env, args);
      DidThen(e, visited, st0, cache0, p, false, st, cache, Statement(e, b[i], p.env, args), false, st, cache);
      StmtsStop(e, visited, st0, cache0, b, i + 1, args, st, cache);
    }
  }

  lemma {:induction false} BranchesStop(
      e: Earthfile, visited: set<string>, st0: St, cache0: Cache, es: seq<ElseIf>, i: nat, args: Args, st: St, cache: Cache)
    requires i <= |es| && Did(e, visited, st0, cache0, Branches(e, es[..i], st0.env, args), false, st, cache)
    ensures Did(e, visited, st0, cache0, Branches(e, es, st0.env, args), false, st, cache)
    decreases |es| - i
  {
    if i == |es| {
      assert es[..i] == es;
    } else {
      assert es[..i + 1][..i] == es[..i];
      var p := Branches(e, es[..i], st0.env, args);
      DidThen(e, visited, st0, cache0, p, false, st, cache, Branch(e, es[i], p.env, args), false, st, cache);
      BranchesStop(e, visited, st0, cache0, es, i + 1, args, st, cache);
    }
  }

  lemma {:induction false} RoundsStop(
      e: Earthfile, visited: set<string>, st0: St, cache0: Cache, x: string, vals: seq<string>, i: nat, body: Block,
      args: Args, st: St, cache: Cache)
    requires i <= |vals| && Did(e, visited, st0, cache0, Rounds(e, x, vals[..i], body, st0.env, args), false, st, cache)
    ensures Did(e, visited, st0, cache0, Rounds(e, x, vals, body, st0.env, args), false, st, cache)
    decreases |vals| - i
  {
    if i == |vals| {
      assert vals[..i] == vals;
    } else {
      assert vals[..i + 1][..i] == vals[..i];
      var p := Rounds(e, x, vals[..i], body, st0.env, args);
      DidThen(e, visited, st0, cache0, p, false, st, cache, Round(e, x, vals[i], body, p.env, args), false, st, cache);
      RoundsStop(e, visited, st0, cache0, x, vals, i + 1, body, args, st, cache);
    }
  }

  /** Hash a value, bind it, use it, unbind it. */
  lemma RoundSteps(
      e: Earthfile, visited: set<string>, st0: St, cache0: Cache, t: Token, st1: St, p: Script, ok: bool, st2: St,
      cache: Cache, x: string)
    requires st1.out == st0.out + [t] && Did(e, visited, st1, cache0, p, ok, st2, cache)
    ensures Did(e, visited, st0, cache0, Joined(Joined(Wrote(t, st0.env), p), Script([], p.env - {x})), ok,
                St(st2.env - {x}, st2.out), cache)
    ensures !ok ==> Did(e, visited, st0, cache0, Joined(Joined(Wrote(t, st0.env), p), Script([], p.env - {x})), ok, st2, cache)
  {
    FeedOne(e, visited, Run(Some(st0.out), cache0), Tok(t));
    var w := Script([Tok(t)], st1.env);
    assert Did(e, visited, st0, cache0, w, true, st1, cache0);
    DidThen(e, visited, st0, cache0, w, true, st1, cache0, p, ok, st2, cache);
    var q := Joined(w, p);
    DidNothing(e, visited, st2, cache, p.env - {x});
    DidThen(e, visited, st0, cache0, q, ok, st2, cache, Script([], p.env - {x}), ok, St(st2.env - {x}, st2.out), cache);
  }

  lemma {:induction false} FeedToks(e: Earthfile, visited: set<string>, r: Run, ts: Hash)
    requires r.out.Some?
    ensures Feed(e, visited, r, Toks(ts)) == Run(Some(r.out.value + ts), r.cache)
    decreases |ts|
  {
    if ts == [] {
      assert r.out.value + ts == r.out.value;
    } else {
      var n := |ts| - 1;
      FeedToks(e, visited, r, ts[..n]);
      assert Toks(ts)[..n] == Toks(ts[..n]);
      assert r.out.value + ts[..n] + [ts[n]] == r.out.value + ts;
    }
  }

  // ----- Whole runs -----

  /** Along a chain of loaders below the root every name occurs at most once. */
  lemma DepthBounded(l: Loader)
    requires l.Valid()
    ensures l.depth <= |Names(l.e)|
  {
    NotLarger(l.visited, Names(l.e));
  }

  /**
   A whole run. The root loader has processed the base recipe, which left `st`, and forbids no name yet.
   Its own entry is the last thing written to the cache, under its own key.
   */
  method HashRoot(e: Earthfile, n: string, args: Args, st: St) returns (r: Option<Hash>, shared: Shared)
    ensures n !in Names(e) ==> r == None
    ensures n in Names(e) ==>
              var items := if n == BASE then [] else LoadBlock(e, e.targets[n], st.env, args).items;
              var pure := Resolve(items, PureLoad(e));
              && r == Feed(e, {}, Run(Some(st.out), map[]), items).out
              && (r.Some? ==> pure.Some? && r == Some(st.out + pure.value))
              && (Resolve(items, VisitedLoad(e, {})).Some? ==> r.Some?)
    ensures r.Some? ==> shared.Open() == 0
    ensures r.Some? ==> (n, args) in shared.hashCache && Truthful(e, shared.hashCache - {(n, args)})
  {
    shared := new Shared();
    shared.targetsVisited := 1;
    var root := new Loader(e, args, {}, 0, shared, st);
    if n !in Names(e) {
      return None, shared;
    }
    ghost var start, items := Run(Some(st.out), map[]), if n == BASE then [] else LoadBlock(e, e.targets[n], st.env, args).items;
    FeedSound(e, {}, start, items);
    if n != BASE {
      var ok := root.HandleStatements(e.targets[n]);
      if !ok {
        return None, shared;
      }
    }
    r := Some(root.st.out);
    shared.hashCache := shared.hashCache[(n, args) := root.st.out];
    shared.targetsHashed := shared.targetsHashed + 1;
  }

  /** A run that succeeds through the cache only: `r` loads b and then a. */
  method CacheHidesDetour() returns (r: Option<Hash>)
    ensures r.Some?
    ensures var e := Detour(); Resolve(LoadBlock(e, e.targets["r"], map[], map[]).items, VisitedLoad(e, {})).None?
  {
    DetourRoot();
    var shared;
    r, shared := HashRoot(Detour(), "r", map[], St(map[], []));
  }
}
