/**
 What cleaning a path means, said on the text of the path and on paths written as a number of steps up followed by
 names, without the walk that computes it.
 */
module PathLaws {
  import opened Delimited
  import opened Paths

  // ----- The rewriting rules of path.Clean -----

  /** A name that is neither empty nor a dot nor two dots, and has no slash. */
  predicate Name(c: string) {
    Proper(c) && c != ".."
  }

  lemma SameWalk(p: string, q: string)
    requires p != "" && q != "" && Rooted(p) == Rooted(q) && Components(p) == Components(q)
    ensures Clean(p) == Clean(q)
  {
  }

  lemma PartsOf(a: string, b: string, rooted: bool)
    ensures Walk(rooted, [], Split(a + "/" + b, '/')) == Walk(rooted, Walk(rooted, [], Split(a, '/')), Split(b, '/'))
  {
    assert a + "/" + b == a + ['/'] + b;
    SplitAppend(a, b, '/');
    WalkAppend(rooted, [], Split(a, '/'), Split(b, '/'));
  }

  lemma WalkOne(rooted: bool, done: seq<string>, c: string)
    ensures Walk(rooted, done, [c]) == Push(rooted, done, c)
  {
    assert [c][..0] == [];
  }

  /** Skipping a middle part: `mid` leads from wherever `a` leads back to the same place. */
  lemma SkipMiddle(a: string, mid: string, b: string)
    requires forall done :: Walk(Rooted(a + "/"), done, Split(mid, '/')) == done
    ensures Clean(a + "/" + mid + "/" + b) == Clean(a + "/" + b)
  {
    var p, q := a + "/" + mid + "/" + b, a + "/" + b;
    var rooted := Rooted(a + "/");
    assert p[0] == q[0] == (a + "/")[0];
    PartsOf(a + "/" + mid, b, rooted);
    PartsOf(a, mid, rooted);
    PartsOf(a, b, rooted);
    SameWalk(p, q);
  }

  lemma SkipLast(a: string, mid: string)
    requires a != "" && forall done :: Walk(Rooted(a), done, Split(mid, '/')) == done
    ensures Clean(a + "/" + mid) == Clean(a)
  {
    PartsOf(a, mid, Rooted(a));
    SameWalk(a + "/" + mid, a);
  }

  lemma SlashAgain(rooted: bool, done: seq<string>)
    ensures Walk(rooted, done, Split("", '/')) == done
  {
    assert Split("", '/') == [""];
    WalkOne(rooted, done, "");
  }

  lemma DotStays(rooted: bool, done: seq<string>)
    ensures Walk(rooted, done, Split(".", '/')) == done
  {
    SplitPlain(".", '/');
    WalkOne(rooted, done, ".");
  }

  lemma DownAndUp(rooted: bool, done: seq<string>, c: string)
    requires Name(c)
    ensures Walk(rooted, done, Split(c + "/..", '/')) == done
  {
    assert c + "/.." == c + ['/'] + "..";
    SplitAppend(c, "..", '/');
    SplitPlain(c, '/');
    SplitPlain("..", '/');
    WalkAppend(rooted, done, [c], [".."]);
    WalkOne(rooted, done, c);
    WalkOne(rooted, done + [c], "..");
    assert (done + [c])[..|done|] == done;
  }

  /** Several slashes count as one. */
  lemma CleanSlashes(a: string, b: string)
    ensures Clean(a + "//" + b) == Clean(a + "/" + b)
    ensures a != "" ==> Clean(a + "/") == Clean(a)
  {
    forall done ensures Walk(Rooted(a + "/"), done, Split("", '/')) == done {
      SlashAgain(Rooted(a + "/"), done);
    }
    SkipMiddle(a, "", b);
    assert a + "/" + "" + "/" + b == a + "//" + b;
    if a != "" {
      SkipLast(a, "");
      assert a + "/" + "" == a + "/";
    }
  }

  /** A dot stands for where it is. */
  lemma CleanDots(a: string, b: string)
    ensures Clean(a + "/./" + b) == Clean(a + "/" + b)
    ensures a != "" ==> Clean(a + "/.") == Clean(a)
    ensures !Rooted(b) ==> Clean("./" + b) == Clean(b)
  {
    forall done ensures Walk(Rooted(a + "/"), done, Split(".", '/')) == done {
      DotStays(Rooted(a + "/"), done);
    }
    SkipMiddle(a, ".", b);
    assert a + "/" + "." + "/" + b == a + "/./" + b;
    if a != "" {
      SkipLast(a, ".");
      assert a + "/" + "." == a + "/.";
    }
    if !Rooted(b) {
      LeadingDot(b);
    }
  }

  lemma LeadingDot(b: string)
    requires !Rooted(b)
    ensures Clean("./" + b) == Clean(b)
  {
    assert "./" + b == "." + "/" + b;
    PartsOf(".", b, false);
    DotStays(false, []);
    if b == "" {
      SlashAgain(false, []);
    } else {
      SameWalk("./" + b, b);
    }
  }

  /** Two dots take back the name before them. */
  lemma CleanUp(a: string, c: string, b: string)
    requires Name(c)
    ensures Clean(a + "/" + c + "/../" + b) == Clean(a + "/" + b)
    ensures a != "" ==> Clean(a + "/" + c + "/..") == Clean(a)
    ensures !Rooted(b) ==> Clean(c + "/../" + b) == Clean(b)
  {
    forall rooted: bool, done ensures Walk(rooted, done, Split(c + "/..", '/')) == done {
      DownAndUp(rooted, done, c);
    }
    SkipMiddle(a, c + "/..", b);
    assert a + "/" + (c + "/..") + "/" + b == a + "/" + c + "/../" + b;
    if a != "" {
      SkipLast(a, c + "/..");
      assert a + "/" + (c + "/..") == a + "/" + c + "/..";
    }
    if !Rooted(b) {
      LeadingName(c, b);
    }
  }

  lemma LeadingName(c: string, b: string)
    requires Name(c) && !Rooted(b)
    ensures Clean(c + "/../" + b) == Clean(b)
  {
    var p := c + "/../" + b;
    assert p == (c + "/..") + "/" + b && p[0] == c[0];
    PartsOf(c + "/..", b, false);
    DownAndUp(false, [], c);
    if b == "" {
      SlashAgain(false, []);
      assert Components(p) == [];
    } else {
      SameWalk(p, b);
    }
  }

  /** Nothing is above the root. */
  lemma CleanAboveRoot(b: string)
    ensures Clean("/../" + b) == Clean("/" + b)
  {
    var p, q := "/../" + b, "/" + b;
    assert p == "/.." + "/" + b && q == "" + "/" + b;
    PartsOf("/..", b, true);
    PartsOf("", b, true);
    assert "/.." == "" + "/" + "..";
    PartsOf("", "..", true);
    SlashAgain(true, []);
    SplitPlain("..", '/');
    WalkOne(true, [], "..");
    SameWalk(p, q);
  }

  /** A path of names, after two-dot steps if it is relative, is clean; with the rules above this fixes every Clean. */
  lemma CleanNormal(rooted: bool, cs: seq<string>)
    requires Normal(rooted, cs)
    ensures Clean(Render(rooted, cs)) == Render(rooted, cs)
  {
    RenderShape(rooted, cs);
    ComponentsOfRender(rooted, cs);
  }

  // ----- Walking in closed form -----

  function Ups(n: nat): (us: seq<string>)
    ensures |us| == n && forall i :: 0 <= i < n ==> us[i] == ".."
  {
    seq(n, i requires 0 <= i < n => "..")
  }

  predicate Names(cs: seq<string>) {
    forall i :: 0 <= i < |cs| ==> Name(cs[i])
  }

  lemma LastOfForm(u: nat, ns: seq<string>)
    requires Names(ns) && Ups(u) + ns != []
    ensures var cs := Ups(u) + ns; cs[|cs| - 1] == ".." <==> ns == []
  {
    var cs := Ups(u) + ns;
    if ns == [] {
      assert cs == Ups(u);
    } else {
      assert cs[|cs| - 1] == ns[|ns| - 1];
    }
  }

  /** Every resolved path is some steps up, none from the root, and then names. */
  lemma {:induction false} NormalForm(rooted: bool, cs: seq<string>) returns (u: nat, ns: seq<string>)
    requires Normal(rooted, cs)
    ensures cs == Ups(u) + ns && Names(ns) && (rooted ==> u == 0)
  {
    if cs == [] {
      u, ns := 0, [];
    } else {
      var init, c := cs[..|cs| - 1], cs[|cs| - 1];
      assert Normal(rooted, init);
      u, ns := NormalForm(rooted, init);
      if c == ".." {
        if init != [] {
          LastOfForm(u, ns);
        }
        u := u + 1;
        assert cs == Ups(u) + ns;
      } else {
        ns := ns + [c];
        assert cs == Ups(u) + ns;
      }
    }
  }

  /** `k` steps up and then the names `ms`, from `u` steps up and the names `ns`. */
  function From(rooted: bool, u: nat, ns: seq<string>, k: nat, ms: seq<string>): seq<string> {
    if k <= |ns| then Ups(u) + ns[..|ns| - k] + ms
    else if rooted then ms
    else Ups(u + k - |ns|) + ms
  }

  lemma {:induction false} WalkUps(rooted: bool, u: nat, ns: seq<string>, k: nat)
    requires Names(ns) && (rooted ==> u == 0)
    ensures Walk(rooted, Ups(u) + ns, Ups(k)) == From(rooted, u, ns, k, [])
  {
    if k == 0 {
      assert Ups(u) + ns[..|ns|] + [] == Ups(u) + ns;
    } else {
      WalkUps(rooted, u, ns, k - 1);
      assert Ups(k)[..k - 1] == Ups(k - 1) && Ups(k)[k - 1] == "..";
      OneUp(rooted, u, ns, k - 1);
    }
  }

  lemma OneUp(rooted: bool, u: nat, ns: seq<string>, k: nat)
    requires Names(ns) && (rooted ==> u == 0)
    ensures Push(rooted, From(rooted, u, ns, k, []), "..") == From(rooted, u, ns, k + 1, [])
  {
    var done := From(rooted, u, ns, k, []);
    if k < |ns| {
      var kept := ns[..|ns| - k];
      assert done == Ups(u) + kept && kept[|kept| - 1] == ns[|ns| - k - 1];
      assert done[..|done| - 1] == Ups(u) + ns[..|ns| - (k + 1)] + [];
    } else if rooted {
      assert done == [];
    } else {
      assert done == Ups(u + k - |ns|);
      assert done + [".."] == Ups(u + (k + 1) - |ns|) + [];
    }
  }

  lemma {:induction false} WalkNames(rooted: bool, done: seq<string>, ms: seq<string>)
    requires Names(ms)
    ensures Walk(rooted, done, ms) == done + ms
  {
    if ms == [] {
      assert done + ms == done;
    } else {
      var init, c := ms[..|ms| - 1], ms[|ms| - 1];
      WalkNames(rooted, done, init);
      assert done + init + [c] == done + ms;
    }
  }

  /** Walking a relative path: its steps up take back names, and what they cannot take back stays in front. */
  lemma WalkClosed(rooted: bool, u: nat, ns: seq<string>, k: nat, ms: seq<string>)
    requires Names(ns) && Names(ms) && (rooted ==> u == 0)
    ensures Walk(rooted, Ups(u) + ns, Ups(k) + ms) == From(rooted, u, ns, k, ms)
  {
    WalkAppend(rooted, Ups(u) + ns, Ups(k), ms);
    WalkUps(rooted, u, ns, k);
    WalkNames(rooted, From(rooted, u, ns, k, []), ms);
    if k <= |ns| {
      assert Ups(u) + ns[..|ns| - k] + [] + ms == Ups(u) + ns[..|ns| - k] + ms;
    } else if rooted {
      assert [] + ms == ms;
    } else {
      assert Ups(u + k - |ns|) + [] + ms == Ups(u + k - |ns|) + ms;
    }
  }
}
