/** Starting the BUILDs of a block ahead of their turn. */
module LookAhead {
  import opened Options

  type Env = map<string, string>

  /** The variables and imports, and whether commands run on the host (LOCALLY). */
  datatype World = World(env: Env, local: bool)

  /** `Plain` is any other command; `text` keeps statements of one kind apart. */
  datatype Stmt =
    | Arg(text: string) | Let(text: string) | Set(text: string)
    | From(text: string) | FromDockerfile(text: string) | Locally(text: string)
    | EnvVar(text: string) | Import(text: string) | Do(text: string)
    | Build(text: string, shellsOut: bool, autoSkip: bool)
    | Plain(text: string) | With(text: string)
    | If(text: string) | For(text: string) | Wait(text: string) | Try(text: string)

  type Block = seq<Stmt>

  /** What comes of expanding the target and the platforms of a BUILD without shelling out. */
  datatype Expansion = Fine | ShellsOut | Bad

  /**
   How statements act on the world (None is an error), how the target and platforms of a BUILD expand, and
   whether its arguments and its reference, imports included, then resolve.
   */
  datatype Semantics = Semantics(
    step: (Stmt, World) -> Option<World>,
    expands: (Stmt, Env) -> Expansion,
    resolves: (Stmt, Env) -> bool)

  predicate ArgLike(s: Stmt) {
    s.Arg? || s.Let? || s.Set?
  }

  /** Statements that look-ahead does not pass. */
  predicate Barrier(s: Stmt) {
    ArgLike(s) || s.Locally? || s.From? || s.FromDockerfile? || s.If? || s.For? || s.Wait? || s.Try?
  }

  predicate Changing(s: Stmt) {
    s.EnvVar? || s.Import? || s.Do?
  }

  /** Only barriers and `Changing` statements change variables or imports; a BUILD needs its target in its turn. */
  ghost predicate Sensible(sem: Semantics) {
    && (forall s, w :: sem.step(s, w).Some? && !Barrier(s) && !Changing(s) ==> sem.step(s, w).value.env == w.env)
    && (forall s: Stmt, w: World :: s.Build? && sem.step(s, w).Some? ==>
          !sem.expands(s, w.env).Bad? && sem.resolves(s, w.env))
  }

  /** Neither shell-outs in its arguments nor --auto-skip. */
  predicate Safe(s: Stmt) {
    s.Build? && !s.shellsOut && !s.autoSkip
  }

  datatype Attempt = Started | Skipped | Failed

  /** Trying to start a BUILD ahead of its turn; one that cannot be started that way is skipped before it is resolved. */
  function Attempted(sem: Semantics, s: Stmt, env: Env): Attempt {
    if sem.expands(s, env).Bad? then Failed
    else if sem.expands(s, env).ShellsOut? || !Safe(s) then Skipped
    else if !sem.resolves(s, env) then Failed
    else Started
  }

  /** The world before statement `n`, or None if an earlier statement fails. */
  function At(sem: Semantics, b: Block, w: World, n: nat): Option<World>
    requires n <= |b|
  {
    if n == 0 then Some(w)
    else
      match At(sem, b, w, n - 1)
      case None => None
      case Some(v) => sem.step(b[n - 1], v)
  }

  // ----- Which BUILDs are looked at, and from where -----

  /** Look-ahead that starts at `s` gets to `j`. */
  predicate Reaches(b: Block, s: nat, j: nat) {
    && s <= j < |b|
    && (s == 0 || ArgLike(b[s - 1]))
    && forall k :: s <= k < j ==> !Barrier(b[k])
  }

  function NearestBarrier(b: Block, j: nat): (k: Option<nat>)
    requires j <= |b|
    ensures k.Some? ==> k.value < j && Barrier(b[k.value])
    ensures forall i :: (if k.Some? then k.value + 1 else 0) <= i < j ==> !Barrier(b[i])
  {
    if j == 0 then None else if Barrier(b[j - 1]) then Some(j - 1) else NearestBarrier(b, j - 1)
  }

  /** Where look-ahead that gets to `j` starts: after the nearest barrier, if that is an ARG, LET or SET. */
  function Start(b: Block, j: nat): Option<nat>
    requires j <= |b|
  {
    match NearestBarrier(b, j)
    case None => Some(0)
    case Some(k) => if ArgLike(b[k]) then Some(k + 1) else None
  }

  /** A statement is reached from that one place and from no other. */
  lemma ReachedFrom(b: Block, s: nat, j: nat)
    requires j < |b|
    ensures Reaches(b, s, j) <==> Start(b, j) == Some(s)
  {
    if Reaches(b, s, j) && s > 0 {
      assert Barrier(b[s - 1]);
    }
  }

  // ----- What happens to the BUILDs of a block -----

  /** `Ahead`: considered ahead of its turn, and started if it can be; `InTurn`: interpreted. */
  datatype Event = Ahead(index: nat, env: Env, started: bool) | InTurn(index: nat, env: Env)

  /** Look-ahead from `s`, in the world `w`, considers the BUILD at `j`. */
  predicate Looks(b: Block, s: nat, w: Option<World>, j: nat) {
    w.Some? && !w.value.local && Reaches(b, s, j) && b[j].Build?
  }

  /** The events of the first `n` statements and of look-ahead that starts before statement `n`. */
  predicate Due(sem: Semantics, b: Block, w: World, parallel: bool, n: nat, e: Event)
    requires n <= |b|
  {
    match e
    case Ahead(j, env, started) =>
      && parallel && j < |b| && Start(b, j).Some? && Start(b, j).value < n
      && var v := At(sem, b, w, Start(b, j).value);
         Looks(b, Start(b, j).value, v, j) && env == v.value.env && started == Attempted(sem, b[j], env).Started?
    case InTurn(j, env) => j < n && b[j].Build? && At(sem, b, w, j).Some? && At(sem, b, w, j).value.env == env
  }

  predicate Distinct(log: seq<Event>) {
    forall p, q :: 0 <= p < q < |log| ==> log[p] != log[q]
  }

  /** No BUILD considered ahead of its turn fails where look-ahead starts. */
  ghost predicate AheadPasses(sem: Semantics, b: Block, w: World, n: nat)
    requires n <= |b|
  {
    forall s: nat, j: nat :: s < n && Looks(b, s, At(sem, b, w, s), j) ==>
      !Attempted(sem, b[j], At(sem, b, w, s).value.env).Failed?
  }

  lemma {:induction false} AtFails(sem: Semantics, b: Block, w: World, n: nat, m: nat)
    requires n <= m <= |b| && At(sem, b, w, n).None?
    ensures At(sem, b, w, m).None?
    decreases m
  {
    if n < m {
      AtFails(sem, b, w, n, m - 1);
    }
  }

  predicate AheadFrom(sem: Semantics, b: Block, s: nat, w: World, e: Event) {
    e.Ahead? && Looks(b, s, Some(w), e.index) && e.env == w.env && e.started == Attempted(sem, b[e.index], w.env).Started?
  }

  lemma DueNext(sem: Semantics, b: Block, w: World, parallel: bool, n: nat, v: World, e: Event)
    requires n < |b| && At(sem, b, w, n) == Some(v)
    ensures Due(sem, b, w, parallel, n + 1, e) <==>
      || Due(sem, b, w, parallel, n, e)
      || (parallel && AheadFrom(sem, b, n, v, e))
      || (b[n].Build? && e == InTurn(n, v.env))
    ensures parallel && AheadFrom(sem, b, n, v, e) ==> !Due(sem, b, w, parallel, n, e)
  {
    if e.Ahead? && e.index < |b| {
      ReachedFrom(b, n, e.index);
    }
  }

  ghost predicate Logged(sem: Semantics, b: Block, w: World, parallel: bool, n: nat, log: seq<Event>)
    requires n <= |b|
  {
    Distinct(log) && forall e :: e in log <==> Due(sem, b, w, parallel, n, e)
  }

  /** What one look-ahead adds to the log, all of it or, if it failed, a part. */
  ghost predicate AddedAhead(sem: Semantics, b: Block, n: nat, v: World, ahead: seq<Event>) {
    Distinct(ahead) && forall e :: e in ahead ==> AheadFrom(sem, b, n, v, e)
  }

  lemma LogAhead(sem: Semantics, b: Block, w: World, n: nat, v: World, log: seq<Event>, ahead: seq<Event>)
    requires n < |b| && At(sem, b, w, n) == Some(v) && Logged(sem, b, w, true, n, log) && AddedAhead(sem, b, n, v, ahead)
    ensures Distinct(log + ahead)
    ensures forall e :: e in log + ahead ==> Due(sem, b, w, true, n + 1, e) && !(e.InTurn? && e.index == n)
  {
    forall e ensures e in log + ahead ==> Due(sem, b, w, true, n + 1, e) && !(e.InTurn? && e.index == n) {
      DueNext(sem, b, w, true, n, v, e);
    }
    forall p, q | 0 <= p < |log| && 0 <= q < |ahead| ensures log[p] != ahead[q] {
      DueNext(sem, b, w, true, n, v, ahead[q]);
    }
  }

  function Turn(b: Block, n: nat, v: World): seq<Event>
    requires n < |b|
  {
    if b[n].Build? then [InTurn(n, v.env)] else []
  }

  lemma LogNext(
      sem: Semantics, b: Block, w: World, parallel: bool, n: nat, v: World, log: seq<Event>, ahead: seq<Event>)
    requires n < |b| && At(sem, b, w, n) == Some(v) && Logged(sem, b, w, parallel, n, log)
    requires AddedAhead(sem, b, n, v, ahead) && (!parallel ==> ahead == [])
    requires parallel ==> forall j: nat :: Looks(b, n, Some(v), j) ==> Ahead(j, v.env, Attempted(sem, b[j], v.env).Started?) in ahead
    ensures Logged(sem, b, w, parallel, n + 1, log + ahead + Turn(b, n, v))
  {
    var more := log + ahead + Turn(b, n, v);
    if parallel {
      LogAhead(sem, b, w, n, v, log, ahead);
    }
    forall e ensures e in more <==> Due(sem, b, w, parallel, n + 1, e) {
      DueNext(sem, b, w, parallel, n, v, e);
      if parallel && AheadFrom(sem, b, n, v, e) {
        assert e == Ahead(e.index, v.env, Attempted(sem, b[e.index], v.env).Started?);
      }
    }
    assert Distinct(log + ahead);
    assert InTurn(n, v.env) !in log + ahead;
  }

  lemma {:induction false} DueGrows(sem: Semantics, b: Block, w: World, parallel: bool, n: nat, m: nat, e: Event)
    requires n <= m <= |b| && Due(sem, b, w, parallel, n, e)
    ensures Due(sem, b, w, parallel, m, e)
  {
  }

  /** A BUILD considered ahead is started exactly if its arguments and --auto-skip allow it, it expands and resolves. */
  predicate StartedRightly(sem: Semantics, b: Block, e: Event) {
    && e.Ahead? && e.index < |b| && b[e.index].Build?
    && (e.started <==>
          && !b[e.index].shellsOut && !b[e.index].autoSkip
          && sem.expands(b[e.index], e.env).Fine? && sem.resolves(b[e.index], e.env))
  }

  /** Whatever is considered ahead is considered before its turn. */
  predicate AheadFirst(log: seq<Event>) {
    forall p, q :: 0 <= p < q < |log| && log[p].InTurn? && log[q].Ahead? ==> log[p].index != log[q].index
  }

  /** Statements before `n` have had their turn, and no other. */
  predicate TurnsBefore(log: seq<Event>, n: nat) {
    forall p :: 0 <= p < |log| && log[p].InTurn? ==> log[p].index < n
  }

  lemma AheadFirstNext(sem: Semantics, b: Block, n: nat, v: World, log: seq<Event>, ahead: seq<Event>)
    requires n < |b| && AheadFirst(log) && TurnsBefore(log, n) && AddedAhead(sem, b, n, v, ahead)
    ensures AheadFirst(log + ahead) && TurnsBefore(log + ahead, n)
    ensures AheadFirst(log + ahead + Turn(b, n, v)) && TurnsBefore(log + ahead + Turn(b, n, v), n + 1)
  {
    var more := log + ahead;
    forall q | |log| <= q < |more| ensures more[q].Ahead? && more[q].index >= n {
      assert more[q] in ahead;
    }
  }

  // ----- The interpreter -----

  class Interpreter {
    const sem: Semantics
    const parallel: bool
    var world: World

    constructor (sem: Semantics, parallel: bool, world: World)
      ensures this.sem == sem && this.parallel == parallel && this.world == world
    {
      this.sem, this.parallel, this.world := sem, parallel, world;
    }

    method HandleBlockParallel(b: Block, start: nat) returns (ok: bool, log: seq<Event>)
      requires start < |b| && (start == 0 || ArgLike(b[start - 1]))
      ensures AddedAhead(sem, b, start, world, log)
      ensures forall e :: e in log ==> StartedRightly(sem, b, e)
      ensures ok ==> forall j: nat :: Looks(b, start, Some(world), j) ==>
                Ahead(j, world.env, Attempted(sem, b[j], world.env).Started?) in log && !Attempted(sem, b[j], world.env).Failed?
      ensures !ok ==>
                exists j: nat ::
                  && Looks(b, start, Some(world), j) && Attempted(sem, b[j], world.env).Failed?
                  && (sem.expands(b[j], world.env).Bad? || !sem.resolves(b[j], world.env))
    {
      log := [];
      if world.local {
        return true, log;
      }
      for index := start to |b|
        invariant forall k :: start <= k < index ==> !Barrier(b[k])
        invariant AddedAhead(sem, b, start, world, log) && forall e :: e in log ==> e.index < index
        invariant forall j :: start <= j < index && b[j].Build? ==>
                    Ahead(j, world.env, Attempted(sem, b[j], world.env).Started?) in log && !Attempted(sem, b[j], world.env).Failed?
      {
        var stmt := b[index];
        if Barrier(stmt) {
          return true, log;
        }
        if stmt.Build? {
          assert Looks(b, start, Some(world), index);
          var attempt := Attempted(sem, stmt, world.env);
          if attempt.Failed? {
            return false, log;
          }
          log := log + [Ahead(index, world.env, attempt.Started?)];
        }
      }
      ok := true;
    }

    method HandleBlock(b: Block) returns (ok: bool, log: seq<Event>)
      modifies this
      ensures Distinct(log) && forall e :: e in log ==> Due(sem, b, old(world), parallel, |b|, e)
      ensures forall e :: e in log && e.Ahead? ==> StartedRightly(sem, b, e)
      ensures AheadFirst(log)
      ensures ok ==> forall e :: Due(sem, b, old(world), parallel, |b|, e) ==> e in log
      ensures ok <==> At(sem, b, old(world), |b|).Some? && (parallel ==> AheadPasses(sem, b, old(world), |b|))
      ensures ok ==> At(sem, b, old(world), |b|) == Some(world)
    {
      log := [];
      ghost var w := world;
      var prevWasArgLike := true;
      for n := 0 to |b|
        invariant prevWasArgLike == (n == 0 || ArgLike(b[n - 1]))
        invariant At(sem, b, w, n) == Some(world)
        invariant Logged(sem, b, w, parallel, n, log)
        invariant parallel ==> AheadPasses(sem, b, w, n)
        invariant AheadFirst(log) && TurnsBefore(log, n)
        invariant forall e :: e in log && e.Ahead? ==> StartedRightly(sem, b, e)
      {
        var ahead := [];
        if parallel && prevWasArgLike {
          ok, ahead := HandleBlockParallel(b, n);
          if !ok {
            AheadFirstNext(sem, b, n, world, log, ahead);
            LogAhead(sem, b, w, n, world, log, ahead);
            AllDue(sem, b, w, parallel, n + 1, log + ahead);
            return false, log + ahead;
          }
        }
        AheadFirstNext(sem, b, n, world, log, ahead);
        LogNext(sem, b, w, parallel, n, world, log, ahead);
        log := log + ahead + Turn(b, n, world);
        var next := sem.step(b[n], world);
        if next.None? {
          AtFails(sem, b, w, n + 1, |b|);
          AllDue(sem, b, w, parallel, n + 1, log);
          return false, log;
        }
        world := next.value;
        prevWasArgLike := ArgLike(b[n]);
      }
      ok := true;
    }
  }

  lemma AllDue(sem: Semantics, b: Block, w: World, parallel: bool, n: nat, log: seq<Event>)
    requires n <= |b| && forall e :: e in log ==> Due(sem, b, w, parallel, n, e)
    ensures forall e :: e in log ==> Due(sem, b, w, parallel, |b|, e)
  {
    forall e | e in log ensures Due(sem, b, w, parallel, |b|, e) {
      DueGrows(sem, b, w, parallel, n, |b|, e);
    }
  }

  // ----- What look-ahead means for the build -----

  /** No ENV, IMPORT or DO stands between a BUILD and the place from which look-ahead gets to it. */
  predicate Unchanging(b: Block, s: nat, j: nat)
    requires s <= j <= |b|
  {
    forall k :: s <= k < j ==> !Changing(b[k])
  }

  lemma {:induction false} SameEnv(sem: Semantics, b: Block, w: World, s: nat, j: nat)
    requires Sensible(sem) && s <= j <= |b| && Unchanging(b, s, j) && forall k :: s <= k < j ==> !Barrier(b[k])
    requires At(sem, b, w, j).Some?
    ensures At(sem, b, w, s).Some? && At(sem, b, w, j).value.env == At(sem, b, w, s).value.env
    decreases j
  {
    if s < j {
      SameEnv(sem, b, w, s, j - 1);
    }
  }

  /** The same BUILD, considered ahead and interpreted in its turn, sees the same variables and imports. */
  lemma AheadSeesTheSame(sem: Semantics, b: Block, w: World, n: nat, j: nat, early: Env, started: bool, late: Env)
    requires Sensible(sem) && n <= |b|
    requires Due(sem, b, w, true, n, Ahead(j, early, started)) && Due(sem, b, w, true, n, InTurn(j, late))
    requires Unchanging(b, Start(b, j).value, j)
    ensures early == late
  {
    var s := Start(b, j).value;
    ReachedFrom(b, s, j);
    SameEnv(sem, b, w, s, j);
  }

  /**
   A BUILD is considered ahead exactly if look-ahead starts somewhere before it, outside LOCALLY: at the start of the
   block or after an ARG, LET or SET, and with no statement on the way that has to be executed first.
   */
  lemma ConsideredFrom(sem: Semantics, b: Block, w: World, j: nat)
    requires j < |b| && b[j].Build?
    ensures (exists env, started :: Due(sem, b, w, true, |b|, Ahead(j, env, started))) <==>
      exists s: nat ::
        && s <= j && (s == 0 || b[s - 1].Arg? || b[s - 1].Let? || b[s - 1].Set?)
        && (forall k :: s <= k < j ==>
              && !b[k].Arg? && !b[k].Let? && !b[k].Set? && !b[k].From? && !b[k].FromDockerfile? && !b[k].Locally?
              && !b[k].If? && !b[k].For? && !b[k].Wait? && !b[k].Try?)
        && At(sem, b, w, s).Some? && !At(sem, b, w, s).value.local
  {
    if s: nat :| Reaches(b, s, j) && At(sem, b, w, s).Some? && !At(sem, b, w, s).value.local {
      ReachedFrom(b, s, j);
      var env := At(sem, b, w, s).value.env;
      assert Due(sem, b, w, true, |b|, Ahead(j, env, Attempted(sem, b[j], env).Started?));
    }
    if env, started :| Due(sem, b, w, true, |b|, Ahead(j, env, started)) {
      var s := Start(b, j).value;
      ReachedFrom(b, s, j);
      assert Reaches(b, s, j);
    }
  }

  /** Outside LOCALLY, that is: if its nearest barrier is missing or is an ARG, LET or SET. */
  lemma ConsideredExactly(sem: Semantics, b: Block, w: World, j: nat)
    requires j < |b| && b[j].Build? && At(sem, b, w, j).Some?
    requires forall i :: 0 <= i <= j && At(sem, b, w, i).Some? ==> !At(sem, b, w, i).value.local
    ensures var k := NearestBarrier(b, j);
            (exists env, started :: Due(sem, b, w, true, |b|, Ahead(j, env, started))) <==>
            k.None? || ArgLike(b[k.value])
  {
    if Start(b, j).Some? {
      var s := Start(b, j).value;
      ReachedFrom(b, s, j);
      if At(sem, b, w, s).None? {
        AtFails(sem, b, w, s, j);
      }
      assert Due(sem, b, w, true, |b|, Ahead(j, At(sem, b, w, s).value.env, Attempted(sem, b[j], At(sem, b, w, s).value.env).Started?));
    }
  }

  /**
   A block that succeeds in turn also succeeds with look-ahead exactly if every BUILD that stands behind an ENV,
   IMPORT or DO passes where look-ahead starts; for one that is not started that only means that it expands.
   */
  lemma LookAheadHarmless(sem: Semantics, b: Block, w: World)
    requires Sensible(sem) && At(sem, b, w, |b|).Some?
    ensures AheadPasses(sem, b, w, |b|) <==>
      forall s: nat, j: nat :: s < |b| && Looks(b, s, At(sem, b, w, s), j) && !Unchanging(b, s, j) ==>
        var env := At(sem, b, w, s).value.env;
        !sem.expands(b[j], env).Bad? && (Safe(b[j]) && sem.expands(b[j], env).Fine? ==> sem.resolves(b[j], env))
  {
    forall s: nat, j: nat | s < |b| && Looks(b, s, At(sem, b, w, s), j) && Unchanging(b, s, j)
      ensures !Attempted(sem, b[j], At(sem, b, w, s).value.env).Failed?
    {
      if At(sem, b, w, j).None? || At(sem, b, w, j + 1).None? {
        AtFails(sem, b, w, if At(sem, b, w, j).None? then j else j + 1, |b|);
      }
      SameEnv(sem, b, w, s, j);
    }
  }

  /** An IMPORT binds its name, and a BUILD needs the name of its target bound. */
  function Importing(): Semantics {
    Semantics(
      (s: Stmt, w: World) =>
        if s.Import? then Some(w.(env := w.env[s.text := ""]))
        else if s.Build? && s.text !in w.env then None
        else Some(w),
      (s: Stmt, env: Env) => Fine,
      (s: Stmt, env: Env) => s.text in env)
  }

  /**
   IMPORT x, then BUILD x+...: fine in turn. Look-ahead passes the IMPORT, and the block fails exactly if the
   BUILD is one that look-ahead starts.
   */
  lemma LookAheadPassesImport(x: string, shellsOut: bool, autoSkip: bool)
    ensures var b, w := [Import(x), Build(x, shellsOut, autoSkip)], World(map[], false);
            && Sensible(Importing()) && At(Importing(), b, w, 2).Some?
            && (AheadPasses(Importing(), b, w, 2) <==> shellsOut || autoSkip)
  {
    var sem, b, w := Importing(), [Import(x), Build(x, shellsOut, autoSkip)], World(map[], false);
    assert At(sem, b, w, 0) == Some(w);
    assert At(sem, b, w, 1) == Some(w.(env := map[x := ""]));
    assert Looks(b, 0, At(sem, b, w, 0), 1);
    assert forall s: nat, j: nat :: s < 2 && Looks(b, s, At(sem, b, w, s), j) ==> j == 1 && s == 0;
  }
}
