/** What the script of a statement contains, said from the statement and the verdicts on its conditions. */
module HashScripts {
  import opened Options
  import opened HashWalk

  predicate StandsAt(part: seq<Item>, items: seq<Item>, i: nat) {
    i + |part| <= |items| && items[i..i + |part|] == part
  }

  /** `part` stands somewhere in `items`, unbroken. */
  ghost predicate Within(part: seq<Item>, items: seq<Item>) {
    exists i: nat :: StandsAt(part, items, i)
  }

  lemma WithinMiddle(a: seq<Item>, part: seq<Item>, b: seq<Item>)
    ensures Within(part, a + part + b)
  {
    assert StandsAt(part, a + part + b, |a|);
  }

  lemma WithinPlus(part: seq<Item>, items: seq<Item>, a: seq<Item>, b: seq<Item>)
    requires Within(part, items)
    ensures Within(part, a + items + b)
  {
    var i: nat :| StandsAt(part, items, i);
    assert StandsAt(part, a + items + b, |a| + i);
  }

  lemma JoinedAssociative(p: Script, q: Script, r: Script)
    ensures Joined(Joined(p, q), r) == Joined(p, Joined(q, r))
  {
    assert p.items + q.items + r.items == p.items + (q.items + r.items);
  }

  // ----- Blocks -----

  /** A block is its number of statements and then its statements. */
  lemma BlockItems(e: Earthfile, b: Block, env: Env, args: Args)
    ensures LoadBlock(e, b, env, args).items == [Tok(Num(|b|))] + Stmts(e, b, env, args).items
    ensures LoadBlock(e, b, env, args).env == Stmts(e, b, env, args).env
  {
  }

  lemma StmtsOne(e: Earthfile, s: Stmt, env: Env, args: Args)
    ensures Stmts(e, [s], env, args) == Statement(e, s, env, args)
  {
    assert [s][..0] == [];
    var t := Statement(e, s, env, args);
    assert [] + t.items == t.items;
  }

  /** Statements one after the other, each with the variables the ones before it leave. */
  lemma {:induction false} StmtsConcat(e: Earthfile, a: Block, b: Block, env: Env, args: Args)
    ensures var p := Stmts(e, a, env, args); Stmts(e, a + b, env, args) == Joined(p, Stmts(e, b, p.env, args))
    decreases |b|
  {
    var p := Stmts(e, a, env, args);
    if b == [] {
      assert a + b == a && p.items + [] == p.items;
    } else {
      var init, s := b[..|b| - 1], b[|b| - 1];
      StmtsConcat(e, a, init, env, args);
      assert (a + b)[..|a + b| - 1] == a + init;
      var q := Stmts(e, init, p.env, args);
      JoinedAssociative(p, q, Statement(e, s, q.env, args));
    }
  }

  // ----- IF -----

  /** The conditions before ELSE IF number `k` are all false, the one of IF included. */
  predicate NoneBefore(e: Earthfile, s: Stmt, k: nat, env: Env)
    requires s.If? && k <= |s.elseIfs|
  {
    e.tested(env, s.cond).No? && forall j :: 0 <= j < k ==> e.tested(env, s.elseIfs[j].cond).No?
  }

  lemma {:induction false} PassFalse(e: Earthfile, s: Stmt, k: nat, env: Env, args: Args)
    requires s.If? && k <= |s.elseIfs| && NoneBefore(e, s, k, env)
    ensures Conditional(e, s, 0, env, args) == Conditional(e, s, k + 1, env, args)
  {
    if k > 0 {
      PassFalse(e, s, k - 1, env, args);
      assert CondOf(s, k) == s.elseIfs[k - 1].cond;
    }
  }

  /** A condition that holds makes its own body count, and no other. */
  lemma IfTakesThen(e: Earthfile, s: Stmt, env: Env, args: Args)
    requires s.If? && e.tested(env, s.cond).Yes?
    ensures Statement(e, s, env, args).items == [Tok(Str(s.text))] + LoadBlock(e, s.thenBody, env, args).items
    ensures Statement(e, s, env, args).env == LoadBlock(e, s.thenBody, env, args).env
  {
  }

  lemma IfTakesElseIf(e: Earthfile, s: Stmt, k: nat, env: Env, args: Args)
    requires s.If? && k < |s.elseIfs| && NoneBefore(e, s, k, env) && e.tested(env, s.elseIfs[k].cond).Yes?
    ensures Statement(e, s, env, args).items == [Tok(Str(s.text))] + LoadBlock(e, s.elseIfs[k].body, env, args).items
    ensures Statement(e, s, env, args).env == LoadBlock(e, s.elseIfs[k].body, env, args).env
  {
    PassFalse(e, s, k, env, args);
  }

  /** With no condition that holds, the ELSE body counts, if there is one. */
  lemma IfTakesElse(e: Earthfile, s: Stmt, env: Env, args: Args)
    requires s.If? && NoneBefore(e, s, |s.elseIfs|, env)
    ensures Statement(e, s, env, args).items ==
      [Tok(Str(s.text))] + if s.elseBody.Present? then LoadBlock(e, s.elseBody.block, env, args).items else []
  {
    PassFalse(e, s, |s.elseIfs|, env, args);
  }

  /** The branch whose condition is the first that is not false: 0 is that of IF. */
  predicate Decides(e: Earthfile, s: Stmt, i: nat, env: Env, v: Verdict)
    requires s.If? && i <= |s.elseIfs|
  {
    if i == 0 then e.tested(env, s.cond) == v
    else NoneBefore(e, s, i - 1, env) && e.tested(env, s.elseIfs[i - 1].cond) == v
  }

  lemma DecidedBy(e: Earthfile, s: Stmt, i: nat, env: Env, args: Args)
    requires s.If? && i <= |s.elseIfs| && (i > 0 ==> NoneBefore(e, s, i - 1, env))
    ensures Conditional(e, s, 0, env, args) == Conditional(e, s, i, env, args)
  {
    if i > 0 {
      PassFalse(e, s, i - 1, env, args);
    }
  }

  /** A condition that cannot be expanded is an error. */
  lemma IfFails(e: Earthfile, s: Stmt, i: nat, env: Env, args: Args)
    requires s.If? && i <= |s.elseIfs| && Decides(e, s, i, env, Broken)
    ensures Statement(e, s, env, args).items == [Tok(Str(s.text)), Fail]
  {
    DecidedBy(e, s, i, env, args);
    assert [Tok(Str(s.text))] + [Fail] == [Tok(Str(s.text)), Fail];
  }

  /** One that is too complex makes every body count: first that of IF, each ELSE IF after its text, ELSE last. */
  lemma IfTakesAll(e: Earthfile, s: Stmt, i: nat, env: Env, args: Args)
    requires s.If? && i <= |s.elseIfs| && Decides(e, s, i, env, Complex)
    ensures var items := Statement(e, s, env, args).items;
            && [Tok(Str(s.text))] + LoadBlock(e, s.thenBody, env, args).items <= items
            && (forall k :: 0 <= k < |s.elseIfs| ==> BranchWithin(e, s.elseIfs[k], args, items))
            && (s.elseBody.Present? ==> exists env' :: LoadedLast(e, s.elseBody.block, env', args, items))
  {
    DecidedBy(e, s, i, env, args);
    var all := Everything(e, s, env, args);
    var p := LoadBlock(e, s.thenBody, env, args);
    var branches := Branches(e, s.elseIfs, p.env, args);
    var q := Joined(p, branches);
    var last := MaybeBlock(e, s.elseBody, q.env, args);
    var head := [Tok(Str(s.text))];
    var items := Statement(e, s, env, args).items;
    assert items == head + (p.items + branches.items + last.items);
    assert items == head + p.items + (branches.items + last.items);
    forall k | 0 <= k < |s.elseIfs| ensures BranchWithin(e, s.elseIfs[k], args, items) {
      BranchInBranches(e, s.elseIfs, k, p.env, args);
      assert items == (head + p.items) + branches.items + last.items;
      BranchPlus(e, s.elseIfs[k], args, branches.items, head + p.items, last.items);
    }
    if s.elseBody.Present? {
      assert items == (head + p.items + branches.items) + last.items;
      assert LoadedLast(e, s.elseBody.block, q.env, args, items);
    }
  }

  /** The script of the block, from these variables, ends `items`. */
  predicate LoadedLast(e: Earthfile, b: Block, env: Env, args: Args, items: seq<Item>) {
    var part := LoadBlock(e, b, env, args).items;
    |part| <= |items| && items[|items| - |part|..] == part
  }

  /** The text of the branch and the script of its body, from some variables, stand in `items`. */
  ghost predicate BranchWithin(e: Earthfile, x: ElseIf, args: Args, items: seq<Item>) {
    exists env :: Within([Tok(Str(x.text))] + LoadBlock(e, x.body, env, args).items, items)
  }

  lemma BranchPlus(e: Earthfile, x: ElseIf, args: Args, items: seq<Item>, a: seq<Item>, b: seq<Item>)
    requires BranchWithin(e, x, args, items)
    ensures BranchWithin(e, x, args, a + items + b)
  {
    var env :| Within([Tok(Str(x.text))] + LoadBlock(e, x.body, env, args).items, items);
    WithinPlus([Tok(Str(x.text))] + LoadBlock(e, x.body, env, args).items, items, a, b);
  }

  lemma {:induction false} BranchInBranches(e: Earthfile, es: seq<ElseIf>, k: nat, env: Env, args: Args)
    requires k < |es|
    ensures BranchWithin(e, es[k], args, Branches(e, es, env, args).items)
  {
    var init, x := es[..|es| - 1], es[|es| - 1];
    var p := Branches(e, init, env, args);
    var part := Branch(e, x, p.env, args).items;
    if k < |es| - 1 {
      BranchInBranches(e, init, k, env, args);
      BranchPlus(e, es[k], args, p.items, [], part);
      assert [] + p.items + part == p.items + part;
    } else {
      WithinMiddle(p.items, part, []);
      assert p.items + part + [] == p.items + part;
      assert part == [Tok(Str(x.text))] + LoadBlock(e, x.body, p.env, args).items;
    }
  }

  /** Bodies that are not taken make no difference. */
  lemma UntakenIrrelevant(e: Earthfile, s: Stmt, s2: Stmt, i: nat, env: Env, args: Args)
    requires s.If? && s2.If? && s2.text == s.text && s2.cond == s.cond && |s2.elseIfs| == |s.elseIfs|
    requires forall j :: 0 <= j < |s.elseIfs| ==> s2.elseIfs[j].cond == s.elseIfs[j].cond
    requires i <= |s.elseIfs| && Decides(e, s, i, env, Yes)
    requires if i == 0 then s2.thenBody == s.thenBody else s2.elseIfs[i - 1].body == s.elseIfs[i - 1].body
    ensures Statement(e, s2, env, args) == Statement(e, s, env, args)
  {
    if i == 0 {
      IfTakesThen(e, s, env, args);
      IfTakesThen(e, s2, env, args);
    } else {
      assert NoneBefore(e, s2, i - 1, env);
      IfTakesElseIf(e, s, i - 1, env, args);
      IfTakesElseIf(e, s2, i - 1, env, args);
    }
  }

  // ----- FOR -----

  /** The values of a FOR one after the other. */
  lemma {:induction false} RoundsConcat(
      e: Earthfile, x: string, a: seq<string>, b: seq<string>, body: Block, env: Env, args: Args)
    ensures var p := Rounds(e, x, a, body, env, args);
            Rounds(e, x, a + b, body, env, args) == Joined(p, Rounds(e, x, b, body, p.env, args))
    decreases |b|
  {
    var p := Rounds(e, x, a, body, env, args);
    if b == [] {
      assert a + b == a && p.items + [] == p.items;
    } else {
      var init, v := b[..|b| - 1], b[|b| - 1];
      RoundsConcat(e, x, a, init, body, env, args);
      assert (a + b)[..|a + b| - 1] == a + init;
      var q := Rounds(e, x, init, body, p.env, args);
      JoinedAssociative(p, q, Round(e, x, v, body, q.env, args));
    }
  }

  /** In its round the body sees the variable bound to the value; afterwards the variable is unbound. */
  lemma RoundsOne(e: Earthfile, x: string, v: string, body: Block, env: Env, args: Args)
    ensures var r, inner := Rounds(e, x, [v], body, env, args), LoadBlock(e, body, env[x := v], args);
            && r.items == [Tok(Str("FOR " + x + "=" + v))] + inner.items
            && r.env == inner.env - {x}
            && x !in r.env
  {
    assert [v][..0] == [];
    var inner := LoadBlock(e, body, env[x := v], args);
    assert Rounds(e, x, [v], body, env, args).items == [] + (([Tok(Str("FOR " + x + "=" + v))] + inner.items) + []);
  }

  /** The header and the number of values come first; values that cannot be expanded are an error. */
  lemma ForItems(e: Earthfile, text: string, body: Block, env: Env, args: Args)
    ensures var sc, vals := Statement(e, For(text, body), env, args), e.values(env, text);
            if vals.None? then sc.items == [Tok(Str(text)), Fail]
            else
              var rounds := Rounds(e, vals.value.0, vals.value.1, body, env, args);
              && sc.items == [Tok(Str(text)), Tok(Num(|vals.value.1|))] + rounds.items && sc.env == rounds.env
              && (vals.value.1 != [] ==> vals.value.0 !in sc.env)
  {
    var vals := e.values(env, text);
    if vals.Some? {
      var rounds := Rounds(e, vals.value.0, vals.value.1, body, env, args);
      assert [Tok(Str(text))] + ([Tok(Num(|vals.value.1|))] + rounds.items)
          == [Tok(Str(text)), Tok(Num(|vals.value.1|))] + rounds.items;
    } else {
      assert [Tok(Str(text))] + [Fail] == [Tok(Str(text)), Fail];
    }
  }

  // ----- The other statements -----

  /** WITH loads all its references and then its body. */
  lemma WithItems(e: Earthfile, text: string, body: Block, env: Env, args: Args)
    ensures Statement(e, With(text, body), env, args).items
         == e.referred(env, args, text) + LoadBlock(e, body, env, args).items
  {
  }

  lemma WaitItems(e: Earthfile, text: string, body: Block, env: Env, args: Args)
    ensures Statement(e, Wait(text, body), env, args).items == [Tok(Str(text))] + LoadBlock(e, body, env, args).items
  {
  }

  /** TRY: its blocks in order, those that are missing skipped, each with the variables the ones before it leave. */
  lemma TryItems(e: Earthfile, t: Block, c: Block, f: Block, env: Env, args: Args)
    ensures
      var p := LoadBlock(e, t, env, args);
      var q := LoadBlock(e, c, p.env, args);
      && Statement(e, Try(t, Absent, Absent), env, args).items == [Tok(Str("TRY"))] + p.items
      && Statement(e, Try(t, Present(c), Absent), env, args).items == [Tok(Str("TRY"))] + p.items + q.items
      && Statement(e, Try(t, Absent, Present(f)), env, args).items
         == [Tok(Str("TRY"))] + p.items + LoadBlock(e, f, p.env, args).items
      && Statement(e, Try(t, Present(c), Present(f)), env, args).items
         == [Tok(Str("TRY"))] + p.items + q.items + LoadBlock(e, f, q.env, args).items
  {
    var p := LoadBlock(e, t, env, args);
    var q := LoadBlock(e, c, p.env, args);
    assert forall a: seq<Item> :: a + [] == a;
  }

  /** A declaration is hashed, then its expanded form, and takes effect; one that fails is an error. */
  lemma DeclareItems(e: Earthfile, text: string, env: Env, args: Args)
    ensures var sc, d := Statement(e, Declare(text), env, args), e.declared(env, text);
            if d.None? then sc.items == [Tok(Str(text)), Fail]
            else sc.items == [Tok(Str(text))] + Toks(d.value.0) && sc.env == d.value.1
  {
    assert [Tok(Str(text))] + [Fail] == [Tok(Str(text)), Fail];
  }

  /** A command that refers to targets is hashed and then loads them; any other command is hashed. */
  lemma CommandItems(e: Earthfile, text: string, env: Env, args: Args)
    ensures Statement(e, Refer(text), env, args) == Script([Tok(Str(text))] + e.referred(env, args, text), env)
    ensures Statement(e, Command(text), env, args) == Script([Tok(Str(text))], env)
  {
  }

  // ----- Targets -----

  /** Every statement of a target is hashed, with the variables that the ones before it leave. */
  lemma StatementOfTarget(e: Earthfile, n: string, a: Args, i: nat)
    requires n in e.targets && n != BASE && i < |e.targets[n]|
    ensures var b := e.targets[n];
            Within(Statement(e, b[i], Stmts(e, b[..i], e.initial(a), a).env, a).items, Items(e, n, a))
  {
    var b, env := e.targets[n], e.initial(a);
    var q := Statement(e, b[i], Stmts(e, b[..i], env, a).env, a);
    StatementOfBlock(e, b, i, env, a);
    var all := Stmts(e, b, env, a);
    WithinPlus(q.items, all.items, [Tok(Num(|b|))], []);
    assert Items(e, n, a) == [Tok(Num(|b|))] + all.items + [];
  }

  lemma StatementOfBlock(e: Earthfile, b: Block, i: nat, env: Env, args: Args)
    requires i < |b|
    ensures Within(Statement(e, b[i], Stmts(e, b[..i], env, args).env, args).items, Stmts(e, b, env, args).items)
  {
    var p := Stmts(e, b[..i], env, args);
    var q := Statement(e, b[i], p.env, args);
    StmtsConcat(e, b[..i + 1], b[i + 1..], env, args);
    assert b[..i + 1] + b[i + 1..] == b;
    assert b[..i + 1][..i] == b[..i];
    var r := Stmts(e, b[i + 1..], q.env, args);
    WithinMiddle(p.items, q.items, r.items);
  }
}
