/**
 What hashing a target writes and which other targets it loads.

 A hash is modelled by the transcript of values written to the hasher, so equal hashes are equal
 transcripts. Walking statements never looks at the hash of another target, so a walk is a script: values to
 write and targets to load, in order. Variable handling is a parameter: an `Earthfile` brings the functions
 that expand, declare and test variables, and everything below holds for all of them.
 */
module HashWalk {
  import opened Options
  import opened Sets

  type Env = map<string, string>

  type Args = map<string, string>

  /** A value written to the hasher; `Sub` is the hash of another target. */
  datatype Token = Str(s: string) | Num(n: nat) | Sub(h: Hash)

  type Hash = seq<Token>

  type Block = seq<Stmt>

  /** `text` stands for the raw command, condition or header as it is hashed. */
  datatype Stmt =
    | Command(text: string)
    | Declare(text: string)
    | Refer(text: string)
    | With(text: string, body: Block)
    | If(text: string, cond: string, thenBody: Block, elseIfs: seq<ElseIf>, elseBody: OptBlock)
    | For(text: string, body: Block)
    | Wait(text: string, body: Block)
    | Try(tryBody: Block, catchBody: OptBlock, finallyBody: OptBlock)

  datatype OptBlock = Absent | Present(block: Block)

  datatype ElseIf = ElseIf(cond: string, text: string, body: Block)

  datatype Verdict = Yes | No | Complex | Broken

  /** `Fail` ends the walk with an error. */
  datatype Item = Tok(t: Token) | Req(name: string, args: Args) | Fail

  /** What is written and loaded, and the variables afterwards. */
  datatype Script = Script(items: seq<Item>, env: Env)

  datatype Earthfile = Earthfile(
    targets: map<string, Block>,
    initial: Args -> Env,
    header: Args -> Hash,
    declared: (Env, string) -> Option<(Hash, Env)>,
    referred: (Env, Args, string) -> seq<Item>,
    tested: (Env, string) -> Verdict,
    values: (Env, string) -> Option<(string, seq<string>)>)

  // ----- Statement sizes -----

  function Size(b: Block): nat {
    if b == [] then 0 else Size(b[..|b| - 1]) + 1 + StmtSize(b[|b| - 1])
  }

  function OptSize(b: OptBlock): nat {
    if b.Present? then Size(b.block) else 0
  }

  function ElseIfsSize(es: seq<ElseIf>): nat {
    if es == [] then 0 else ElseIfsSize(es[..|es| - 1]) + Size(es[|es| - 1].body)
  }

  function StmtSize(s: Stmt): nat {
    match s
    case Command(_) => 0
    case Declare(_) => 0
    case Refer(_) => 0
    case With(_, body) => 1 + Size(body)
    case If(_, _, t, es, e) => 1 + Size(t) + ElseIfsSize(es) + OptSize(e)
    case For(_, body) => 1 + Size(body)
    case Wait(_, body) => 1 + Size(body)
    case Try(t, c, f) => 1 + Size(t) + OptSize(c) + OptSize(f)
  }

  lemma {:induction false} BranchSize(es: seq<ElseIf>, i: nat)
    requires i < |es|
    ensures Size(es[i].body) <= ElseIfsSize(es)
  {
    if i < |es| - 1 {
      BranchSize(es[..|es| - 1], i);
    }
  }

  lemma {:induction false} SizeOfElement(b: Block, i: nat)
    requires i < |b|
    ensures StmtSize(b[i]) + 1 <= Size(b)
  {
    if i < |b| - 1 {
      SizeOfElement(b[..|b| - 1], i);
    }
  }

  // ----- The handlers -----

  function Toks(ts: Hash): (items: seq<Item>)
    ensures |items| == |ts| && forall i :: 0 <= i < |items| ==> items[i] == Tok(ts[i])
  {
    seq(|ts|, i requires 0 <= i < |ts| => Tok(ts[i]))
  }

  /** One script and then another; the second starts from the variables the first leaves. */
  function Joined(p: Script, q: Script): Script {
    Script(p.items + q.items, q.env)
  }

  function Wrote(t: Token, env: Env): Script {
    Script([Tok(t)], env)
  }

  /** The number of statements and then each of them. */
  function LoadBlock(e: Earthfile, b: Block, env: Env, args: Args): Script
    decreases Size(b), 3, 0
  {
    Joined(Wrote(Num(|b|), env), Stmts(e, b, env, args))
  }

  function Stmts(e: Earthfile, b: Block, env: Env, args: Args): Script
    decreases Size(b), 2, 0
  {
    if b == [] then Script([], env)
    else
      var p := Stmts(e, b[..|b| - 1], env, args);
      Joined(p, Statement(e, b[|b| - 1], p.env, args))
  }

  function MaybeBlock(e: Earthfile, b: OptBlock, env: Env, args: Args): Script
    decreases OptSize(b), 4, 0
  {
    if b.Absent? then Script([], env) else LoadBlock(e, b.block, env, args)
  }

  function Statement(e: Earthfile, s: Stmt, env: Env, args: Args): Script
    decreases StmtSize(s) + 1, 1, 0
  {
    match s
    case Command(text) => Wrote(Str(text), env)
    case Declare(text) =>
      Joined(Wrote(Str(text), env),
             match e.declared(env, text)
             case None => Script([Fail], env)
             case Some(d) => Script(Toks(d.0), d.1))
    case Refer(text) => Joined(Wrote(Str(text), env), Script(e.referred(env, args, text), env))
    case With(text, body) => Joined(Script(e.referred(env, args, text), env), LoadBlock(e, body, env, args))
    case If(text, _, _, _, _) => Joined(Wrote(Str(text), env), Conditional(e, s, 0, env, args))
    case For(text, body) =>
      Joined(Wrote(Str(text), env),
             match e.values(env, text)
             case None => Script([Fail], env)
             case Some(v) => Joined(Wrote(Num(|v.1|), env), Rounds(e, v.0, v.1, body, env, args)))
    case Wait(text, body) => Joined(Wrote(Str(text), env), LoadBlock(e, body, env, args))
    case Try(t, c, f) =>
      var p := Joined(Wrote(Str("TRY"), env), LoadBlock(e, t, env, args));
      var q := Joined(p, MaybeBlock(e, c, p.env, args));
      Joined(q, MaybeBlock(e, f, q.env, args))
  }

  /** Branch 0 is that of IF, the others those of ELSE IF. */
  function CondOf(s: Stmt, i: nat): string
    requires s.If? && i <= |s.elseIfs|
  {
    if i == 0 then s.cond else s.elseIfs[i - 1].cond
  }

  function BodyOf(s: Stmt, i: nat): (b: Block)
    requires s.If? && i <= |s.elseIfs|
    ensures Size(b) < StmtSize(s)
  {
    if i == 0 then s.thenBody else BranchSize(s.elseIfs, i - 1); s.elseIfs[i - 1].body
  }

  /** From branch `i` on: the first condition that holds decides; if one is too complex, every branch is hashed. */
  function Conditional(e: Earthfile, s: Stmt, i: nat, env: Env, args: Args): Script
    requires s.If? && i <= |s.elseIfs| + 1
    decreases StmtSize(s), 5, |s.elseIfs| + 1 - i
  {
    if i > |s.elseIfs| then MaybeBlock(e, s.elseBody, env, args)
    else
      match e.tested(env, CondOf(s, i))
      case Yes => LoadBlock(e, BodyOf(s, i), env, args)
      case No => Conditional(e, s, i + 1, env, args)
      case Complex => Everything(e, s, env, args)
      case Broken => Script([Fail], env)
  }

  function Everything(e: Earthfile, s: Stmt, env: Env, args: Args): Script
    requires s.If?
    decreases StmtSize(s), 4, 0
  {
    var p := LoadBlock(e, s.thenBody, env, args);
    var q := Joined(p, Branches(e, s.elseIfs, p.env, args));
    Joined(q, MaybeBlock(e, s.elseBody, q.env, args))
  }

  function Branches(e: Earthfile, es: seq<ElseIf>, env: Env, args: Args): Script
    decreases ElseIfsSize(es), 4, |es|
  {
    if es == [] then Script([], env)
    else
      var p := Branches(e, es[..|es| - 1], env, args);
      Joined(p, Branch(e, es[|es| - 1], p.env, args))
  }

  function Branch(e: Earthfile, x: ElseIf, env: Env, args: Args): Script
    decreases Size(x.body), 4, 0
  {
    Joined(Wrote(Str(x.text), env), LoadBlock(e, x.body, env, args))
  }

  function Rounds(e: Earthfile, x: string, vals: seq<string>, body: Block, env: Env, args: Args): Script
    decreases Size(body), 5, |vals|
  {
    if vals == [] then Script([], env)
    else
      var p := Rounds(e, x, vals[..|vals| - 1], body, env, args);
      Joined(p, Round(e, x, vals[|vals| - 1], body, p.env, args))
  }

  /** A value is hashed, bound, used and unbound. */
  function Round(e: Earthfile, x: string, v: string, body: Block, env: Env, args: Args): Script
    decreases Size(body), 4, 0
  {
    var p := Joined(Wrote(Str("FOR " + x + "=" + v), env), LoadBlock(e, body, env[x := v], args));
    Joined(p, Script([], p.env - {x}))
  }

  // ----- Hashes, given how other targets are loaded -----

  /** How the hash of another target is obtained; None is an error. */
  type Loading = (string, Args) -> Option<Hash>

  function Resolve(items: seq<Item>, load: Loading): Option<Hash> {
    if items == [] then Some([])
    else
      match Resolve(items[..|items| - 1], load)
      case None => None
      case Some(h) =>
        match items[|items| - 1]
        case Tok(t) => Some(h + [t])
        case Req(n, a) => (match load(n, a) case None => None case Some(sub) => Some(h + [Sub(sub)]))
        case Fail => None
  }

  const BASE := "base"

  function Names(e: Earthfile): set<string> {
    e.targets.Keys + {BASE}
  }

  /** What a target writes and loads. The base recipe is processed before, so `+base` adds nothing. */
  function Items(e: Earthfile, n: string, a: Args): seq<Item>
    requires n in Names(e)
  {
    if n == BASE then [] else LoadBlock(e, e.targets[n], e.initial(a), a).items
  }

  function WalkTarget(e: Earthfile, n: string, a: Args, load: Loading): Option<Hash> {
    if n !in Names(e) then None
    else
      match Resolve(Items(e, n, a), load)
      case None => None
      case Some(h) => Some(e.header(a) + h)
  }

  // ----- Ways of loading -----

  /** The code without its cache: a name that is already being walked is an error. */
  function VisitedLoad(e: Earthfile, visited: set<string>): Loading
    decreases |Names(e) - visited|
  {
    (n: string, a: Args) =>
      if n in visited || n !in Names(e) then None
      else
        FewerLeft(Names(e), visited, n);
        WalkTarget(e, n, a, VisitedLoad(e, visited + {n}))
  }

  /** The plain recursive definition, cut off at a depth. */
  function AtDepth(e: Earthfile, depth: nat, n: string, a: Args): Option<Hash>
    decreases depth, 0
  {
    if depth == 0 then None else WalkTarget(e, n, a, DepthLoad(e, depth - 1))
  }

  function DepthLoad(e: Earthfile, depth: nat): Loading
    decreases depth, 1
  {
    (n: string, a: Args) => AtDepth(e, depth, n, a)
  }

  /** The hash of a target and its arguments: what the plain definition gives at some depth. */
  ghost function PureHash(e: Earthfile, n: string, a: Args): Option<Hash> {
    if exists d: nat :: AtDepth(e, d, n, a).Some?
    then var d: nat :| AtDepth(e, d, n, a).Some?; AtDepth(e, d, n, a)
    else None
  }
}
