/** Go's path.Clean and path.Join, given by the list of components that a path walks through. */
module Paths {
  import opened Delimited

  predicate Rooted(p: string) {
    p != "" && p[0] == '/'
  }

  /** One component met while the components in `done` are already walked. */
  function Push(rooted: bool, done: seq<string>, c: string): seq<string> {
    if c == "" || c == "." then done
    else if c != ".." then done + [c]
    else if done != [] && done[|done| - 1] != ".." then done[..|done| - 1]
    else if rooted then done
    else done + [".."]
  }

  function Walk(rooted: bool, done: seq<string>, cs: seq<string>): seq<string> {
    if cs == [] then done else Push(rooted, Walk(rooted, done, cs[..|cs| - 1]), cs[|cs| - 1])
  }

  /** The components of a path after "", "." and ".." are resolved. */
  function Components(p: string): seq<string> {
    Walk(Rooted(p), [], Split(p, '/'))
  }

  function Render(rooted: bool, cs: seq<string>): string {
    if rooted then "/" + Join(cs, '/')
    else if cs == [] then "."
    else Join(cs, '/')
  }

  function Clean(p: string): string {
    if p == "" then "." else Render(Rooted(p), Components(p))
  }

  function JoinPath(a: string, b: string): string {
    if a != "" then Clean(a + "/" + b) else if b != "" then Clean(b) else ""
  }

  // ----- Normal forms -----

  predicate Proper(c: string) {
    c != "" && c != "." && '/' !in c
  }

  /** Only proper components, and ".." only at the front of an unrooted path. */
  predicate Normal(rooted: bool, cs: seq<string>) {
    && (forall i :: 0 <= i < |cs| ==> Proper(cs[i]))
    && (forall i :: 0 <= i < |cs| && cs[i] == ".." ==> !rooted && (i == 0 || cs[i - 1] == ".."))
  }

  lemma PushNormal(rooted: bool, done: seq<string>, c: string)
    requires Normal(rooted, done) && '/' !in c
    ensures Normal(rooted, Push(rooted, done, c))
  {
  }

  lemma {:induction false} WalkNormal(rooted: bool, done: seq<string>, cs: seq<string>)
    requires Normal(rooted, done) && forall i :: 0 <= i < |cs| ==> '/' !in cs[i]
    ensures Normal(rooted, Walk(rooted, done, cs))
  {
    if cs != [] {
      WalkNormal(rooted, done, cs[..|cs| - 1]);
      PushNormal(rooted, Walk(rooted, done, cs[..|cs| - 1]), cs[|cs| - 1]);
    }
  }

  lemma ComponentsNormal(p: string)
    ensures Normal(Rooted(p), Components(p))
  {
    WalkNormal(Rooted(p), [], Split(p, '/'));
  }

  lemma {:induction false} WalkAppend(rooted: bool, done: seq<string>, a: seq<string>, b: seq<string>)
    ensures Walk(rooted, done, a + b) == Walk(rooted, Walk(rooted, done, a), b)
  {
    if b == [] {
      assert a + b == a;
    } else {
      assert (a + b)[..|a + b| - 1] == a + b[..|b| - 1];
      WalkAppend(rooted, done, a, b[..|b| - 1]);
    }
  }

  lemma {:induction false} WalkFixed(rooted: bool, cs: seq<string>)
    requires Normal(rooted, cs)
    ensures Walk(rooted, [], cs) == cs
  {
    if cs != [] {
      var init := cs[..|cs| - 1];
      assert Normal(rooted, init);
      WalkFixed(rooted, init);
      assert cs == init + [cs[|cs| - 1]];
    }
  }

  lemma {:induction false} WalkKeepsNames(cs: seq<string>)
    ensures forall i :: 0 <= i < |Walk(false, [], cs)| ==> Walk(false, [], cs)[i] != "" && Walk(false, [], cs)[i] != "."
  {
    if cs != [] {
      WalkKeepsNames(cs[..|cs| - 1]);
    }
  }

  /** Walking a relative path is walking its resolved components, wherever the walk starts. */
  lemma {:induction false} WalkResolved(rooted: bool, done: seq<string>, cs: seq<string>)
    ensures Walk(rooted, done, Walk(false, [], cs)) == Walk(rooted, done, cs)
  {
    if cs != [] {
      var init, c := cs[..|cs| - 1], cs[|cs| - 1];
      var n := Walk(false, [], init);
      WalkResolved(rooted, done, init);
      var m := Push(false, n, c);
      if m == n + [c] {
        assert (n + [c])[..|n|] == n;
      } else if c == ".." {
        WalkKeepsNames(init);
        assert Push(rooted, Push(rooted, Walk(rooted, done, m), n[|n| - 1]), "..") == Walk(rooted, done, m);
      }
    }
  }

  lemma RenderShape(rooted: bool, cs: seq<string>)
    requires Normal(rooted, cs)
    ensures Render(rooted, cs) != "" && Rooted(Render(rooted, cs)) == rooted
  {
    if !rooted && cs != [] {
      assert Proper(cs[0]);
      assert Join(cs, '/')[0] == cs[0][0];
    }
  }

  /** A normal form is recovered from its printed path. */
  lemma ComponentsOfRender(rooted: bool, cs: seq<string>)
    requires Normal(rooted, cs)
    ensures Components(Render(rooted, cs)) == cs
  {
    RenderShape(rooted, cs);
    WalkFixed(rooted, cs);
    if cs == [] {
      assert Split("", '/') == [""];
      SplitPlain(".", '/');
      assert Walk(rooted, [], []) == [];
      assert Walk(false, [], ["."]) == Push(false, Walk(false, [], ["."][..0]), ".");
      assert rooted ==> Split("/", '/') == [""] + [""] by {
        assert "/"[1..] == "";
      }
      WalkAppend(rooted, [], [""], [""]);
      assert Walk(rooted, [], [""]) == Push(rooted, Walk(rooted, [], [""][..0]), "");
    } else {
      SplitJoin(cs, '/');
      if rooted {
        assert ("/" + Join(cs, '/'))[1..] == Join(cs, '/');
        WalkAppend(rooted, [], [""], cs);
        assert Walk(rooted, [], [""]) == Push(rooted, Walk(rooted, [], [""][..0]), "");
      }
    }
  }

  lemma CleanIsRender(p: string)
    requires p != ""
    ensures Clean(p) != "" && Rooted(Clean(p)) == Rooted(p) && Components(Clean(p)) == Components(p)
  {
    ComponentsNormal(p);
    RenderShape(Rooted(p), Components(p));
    ComponentsOfRender(Rooted(p), Components(p));
  }

  /** Cleaning a path twice is cleaning it once. */
  lemma CleanIdempotent(p: string)
    ensures Clean(Clean(p)) == Clean(p)
  {
    if p == "" {
      ComponentsOfRender(false, []);
    } else {
      CleanIsRender(p);
    }
  }

  /** The path reached by walking a relative path from another path. */
  lemma JoinWalks(a: string, b: string)
    requires a != "" && !Rooted(b)
    ensures JoinPath(a, b) == Render(Rooted(a), Walk(Rooted(a), Components(a), Components(b)))
  {
    var p := a + "/" + b;
    assert a + "/" + b == a + ['/'] + b;
    SplitAppend(a, b, '/');
    WalkAppend(Rooted(a), [], Split(a, '/'), Split(b, '/'));
    WalkResolved(Rooted(a), Components(a), Split(b, '/'));
    assert Rooted(p) == Rooted(a) && p != "";
  }
}
