/** Target and command references: classification, printing, parsing and joining. */
module References {
  import opened PlusEscape
  import opened Paths
  import opened PathLaws

  datatype Kind = TargetRef | CommandRef

  datatype Reference = Reference(
    kind: Kind,
    gitURL: string,
    tag: string,
    localPath: string,
    importRef: string,
    name: string)
  {
    predicate IsLocalInternal() { localPath == "." }

    predicate IsLocalExternal() { localPath != "." && localPath != "" }

    predicate IsRemote() { gitURL != "" && !IsLocalInternal() && !IsLocalExternal() }

    predicate IsImportReference() { importRef != "" }

    predicate IsUnresolvedImportReference() {
      IsImportReference() && !IsRemote() && !IsLocalExternal() && !IsLocalInternal()
    }
  }

  function AsRelative(p: string): string {
    if p != "" && (p[0] == '.' || p[0] == '/') then p else "./" + p
  }

  /** Interprets `r2` relative to `r1`. */
  function JoinReferences(r1: Reference, r2: Reference): Result<Reference> {
    if r1.IsUnresolvedImportReference() || r2.IsUnresolvedImportReference() then Err(UnresolvedImport)
    else if r1.IsRemote() then
      if r2.IsRemote() then Ok(r2)
      else if r2.IsLocalExternal() then
        if Rooted(r2.localPath) then Err(AbsoluteInRemote)
        else Ok(r2.(gitURL := JoinPath(r1.gitURL, r2.localPath), tag := r1.tag, localPath := ""))
      else if r2.IsLocalInternal() then Ok(r2.(gitURL := r1.gitURL, tag := r1.tag, localPath := ""))
      else Ok(r2.(tag := r1.tag))
    else if r2.IsLocalExternal() then
      if Rooted(r2.localPath) then Ok(r2.(localPath := Clean(r2.localPath)))
      else Ok(r2.(localPath := AsRelative(JoinPath(r1.localPath, r2.localPath))))
    else if r2.IsLocalInternal() then Ok(r2.(localPath := r1.localPath))
    else Ok(r2)
  }

  // ----- Resolved references and the places they denote -----

  /** A remote reference with a clean git URL, or a local one with a normalised path. */
  predicate Resolved(r: Reference) {
    || (r.localPath == "" && r.gitURL != "" && Clean(r.gitURL) == r.gitURL)
    || (r.localPath != "" && r.gitURL == "" && r.tag == "" && AsRelative(Clean(r.localPath)) == r.localPath)
  }

  /** Where a resolved reference points, with its path resolved into components. */
  datatype Place =
    | Remote(rooted: bool, cs: seq<string>, tag: string)
    | Local(rooted: bool, cs: seq<string>)

  predicate WellFormed(p: Place) {
    Normal(p.rooted, p.cs)
  }

  function PlaceOf(r: Reference): Place
    requires Resolved(r)
  {
    if r.localPath == "" then Remote(Rooted(r.gitURL), Components(r.gitURL), r.tag)
    else Local(Rooted(r.localPath), Components(r.localPath))
  }

  /** The reference of the given kind, import and name that points at a place. */
  function At(p: Place, kind: Kind, importRef: string, name: string): Reference {
    match p
    case Remote(rooted, cs, tag) => Reference(kind, Render(rooted, cs), tag, "", importRef, name)
    case Local(rooted, cs) => Reference(kind, "", "", AsRelative(Render(rooted, cs)), importRef, name)
  }

  /** Joining, on places. */
  function JoinPlaces(p1: Place, p2: Place): Result<Place> {
    if p2.Remote? then Ok(p2)
    else if p2.rooted then if p1.Remote? then Err(AbsoluteInRemote) else Ok(p2)
    else Ok(p1.(cs := Walk(p1.rooted, p1.cs, p2.cs)))
  }

  lemma AsRelativeShape(rooted: bool, cs: seq<string>)
    requires Normal(rooted, cs)
    ensures var p := AsRelative(Render(rooted, cs));
            p != "" && Rooted(p) == rooted && Components(p) == cs && AsRelative(Clean(p)) == p
  {
    var q := Render(rooted, cs);
    RenderShape(rooted, cs);
    ComponentsOfRender(rooted, cs);
    if AsRelative(q) != q {
      DotSlash(q);
    }
  }

  lemma DotSlash(q: string)
    requires q != "" && !Rooted(q)
    ensures !Rooted("./" + q) && Components("./" + q) == Components(q)
  {
    assert "./" + q == "." + ['/'] + q;
    Delimited.SplitAppend(".", q, '/');
    Delimited.SplitPlain(".", '/');
    WalkAppend(false, [], ["."], Delimited.Split(q, '/'));
    assert Walk(false, [], ["."]) == Push(false, Walk(false, [], ["."][..0]), ".");
  }

  lemma PlaceWellFormed(r: Reference)
    requires Resolved(r)
    ensures WellFormed(PlaceOf(r))
  {
    ComponentsNormal(if r.localPath == "" then r.gitURL else r.localPath);
  }

  /** A resolved reference is determined by its place, kind, import and name. */
  lemma PlaceDetermines(r: Reference)
    requires Resolved(r)
    ensures At(PlaceOf(r), r.kind, r.importRef, r.name) == r
  {
  }

  lemma AtResolved(p: Place, kind: Kind, importRef: string, name: string)
    requires WellFormed(p)
    ensures Resolved(At(p, kind, importRef, name)) && PlaceOf(At(p, kind, importRef, name)) == p
  {
    RenderShape(p.rooted, p.cs);
    ComponentsOfRender(p.rooted, p.cs);
    AsRelativeShape(p.rooted, p.cs);
    CleanIsRender(Render(p.rooted, p.cs));
  }

  lemma JoinPlacesWellFormed(p1: Place, p2: Place)
    requires WellFormed(p1) && WellFormed(p2)
    ensures JoinPlaces(p1, p2).Ok? ==> WellFormed(JoinPlaces(p1, p2).value)
  {
    if p2.Local? && !p2.rooted {
      WalkNormal(p1.rooted, p1.cs, p2.cs);
    }
  }

  function Placed(p: Result<Place>, r: Reference): Result<Reference> {
    match p
    case Ok(place) => Ok(At(place, r.kind, r.importRef, r.name))
    case Err(e) => Err(e)
  }

  lemma InternalPlace(r: Reference)
    requires Resolved(r) && r.localPath == "."
    ensures PlaceOf(r) == Local(false, [])
  {
    ComponentsOfRender(false, []);
  }

  /** On resolved references, joining strings is joining the places they denote. */
  lemma JoinRefines(r1: Reference, r2: Reference)
    requires Resolved(r1) && Resolved(r2)
    ensures JoinReferences(r1, r2) == Placed(JoinPlaces(PlaceOf(r1), PlaceOf(r2)), r2)
  {
    PlaceDetermines(r1);
    PlaceDetermines(r2);
    if r2.localPath == "." {
      InternalPlace(r2);
      assert Walk(PlaceOf(r1).rooted, PlaceOf(r1).cs, []) == PlaceOf(r1).cs;
    } else if r2.localPath != "" {
      if Rooted(r2.localPath) {
        RootedIsClean(r2);
      } else if r1.IsRemote() {
        JoinWalks(r1.gitURL, r2.localPath);
      } else {
        JoinWalks(r1.localPath, r2.localPath);
      }
    }
  }

  lemma RootedIsClean(r: Reference)
    requires Resolved(r) && Rooted(r.localPath)
    ensures Clean(r.localPath) == r.localPath
  {
    CleanIsRender(r.localPath);
  }

  /** Resolved references stay resolved. */
  lemma JoinResolved(r1: Reference, r2: Reference)
    requires Resolved(r1) && Resolved(r2)
    ensures var j := JoinReferences(r1, r2);
            j.Ok? ==> Resolved(j.value) && PlaceOf(j.value) == JoinPlaces(PlaceOf(r1), PlaceOf(r2)).value
                      && j.value.name == r2.name && j.value.kind == r2.kind && j.value.importRef == r2.importRef
  {
    JoinRefines(r1, r2);
    PlaceWellFormed(r1);
    PlaceWellFormed(r2);
    JoinPlacesWellFormed(PlaceOf(r1), PlaceOf(r2));
    if JoinPlaces(PlaceOf(r1), PlaceOf(r2)).Ok? {
      AtResolved(JoinPlaces(PlaceOf(r1), PlaceOf(r2)).value, r2.kind, r2.importRef, r2.name);
    }
  }

  function JoinLeft(r1: Reference, r2: Reference, r3: Reference): Result<Reference> {
    match JoinReferences(r1, r2)
    case Ok(r) => JoinReferences(r, r3)
    case Err(e) => Err(e)
  }

  function JoinRight(r1: Reference, r2: Reference, r3: Reference): Result<Reference> {
    match JoinReferences(r2, r3)
    case Ok(r) => JoinReferences(r1, r)
    case Err(e) => Err(e)
  }

  /** Two relative paths in a row are one relative path. */
  lemma WalkTwice(rooted: bool, cs1: seq<string>, cs2: seq<string>, cs3: seq<string>)
    requires Normal(false, cs2)
    ensures Walk(rooted, Walk(rooted, cs1, cs2), cs3) == Walk(rooted, cs1, Walk(false, cs2, cs3))
  {
    WalkFixed(false, cs2);
    WalkAppend(false, [], cs2, cs3);
    WalkResolved(rooted, cs1, cs2 + cs3);
    WalkAppend(rooted, cs1, cs2, cs3);
  }

  /** A remote context rejects an absolute path that a later remote reference would have replaced. */
  predicate DiscardedAbsolute(r1: Reference, r2: Reference, r3: Reference) {
    r1.IsRemote() && Rooted(r2.localPath) && r3.IsRemote()
  }

  /**
   Joining is associative, failures included, on all resolved references except one shape:
   remote, then absolute local, then remote.
   */
  lemma JoinAssociative(r1: Reference, r2: Reference, r3: Reference)
    requires Resolved(r1) && Resolved(r2) && Resolved(r3)
    ensures JoinLeft(r1, r2, r3) == JoinRight(r1, r2, r3) <==> !DiscardedAbsolute(r1, r2, r3)
  {
    var p1, p2, p3 := PlaceOf(r1), PlaceOf(r2), PlaceOf(r3);
    PlaceWellFormed(r2);
    JoinRefines(r1, r2);
    JoinRefines(r2, r3);
    JoinResolved(r1, r2);
    JoinResolved(r2, r3);
    if JoinReferences(r1, r2).Ok? {
      JoinRefines(JoinReferences(r1, r2).value, r3);
    }
    if JoinReferences(r2, r3).Ok? {
      JoinRefines(r1, JoinReferences(r2, r3).value);
    }
    if p2.Local? && !p2.rooted && p3.Local? && !p3.rooted {
      WalkTwice(p1.rooted, p1.cs, p2.cs, p3.cs);
    }
  }

  /** The excepted shape: one grouping fails, the other gives the last reference. */
  lemma DiscardedAbsoluteDiffers()
    ensures
      var r1 := Reference(TargetRef, "a", "", "", "", "x");
      var r2 := Reference(TargetRef, "", "", "/b", "", "y");
      var r3 := Reference(TargetRef, "c", "", "", "", "z");
      JoinLeft(r1, r2, r3) == Err(AbsoluteInRemote) && JoinRight(r1, r2, r3) == Ok(r3)
  {
  }

  // ----- Joining, case by case -----

  /** A remote reference stands for itself, and so does an absolute path, except in a remote context. */
  lemma JoinAbsolute(r1: Reference, r2: Reference)
    requires Resolved(r1) && Resolved(r2)
    ensures r2.localPath == "" ==> JoinReferences(r1, r2) == Ok(r2)
    ensures Rooted(r2.localPath) ==> JoinReferences(r1, r2) == if r1.localPath == "" then Err(AbsoluteInRemote) else Ok(r2)
  {
    if Rooted(r2.localPath) {
      RootedIsClean(r2);
    }
  }

  /** A name without a path is one of the same place. */
  lemma JoinInternal(r1: Reference, r2: Reference)
    requires Resolved(r1) && Resolved(r2) && r2.localPath == "."
    ensures JoinReferences(r1, r2) == Ok(Reference(r2.kind, r1.gitURL, r1.tag, r1.localPath, r2.importRef, r2.name))
  {
  }

  /**
   A relative path: `k` steps up and then the names `ms`. Its steps up take back the last names of the place it is
   read in; steps that are left over stay in front, or are lost at a root. Repository tag and kind of place stay.
   */
  lemma JoinRelative(r1: Reference, r2: Reference, u: nat, ns: seq<string>, k: nat, ms: seq<string>)
    requires Resolved(r1) && Resolved(r2) && Names(ns) && Names(ms)
    requires PlaceOf(r1).cs == Ups(u) + ns && (PlaceOf(r1).rooted ==> u == 0)
    requires PlaceOf(r2) == Local(false, Ups(k) + ms)
    ensures
      var cs := From(PlaceOf(r1).rooted, u, ns, k, ms);
      var j := JoinReferences(r1, r2);
      && j.Ok? && Resolved(j.value) && j.value.kind == r2.kind && j.value.name == r2.name
      && PlaceOf(j.value) == if r1.localPath == "" then Remote(Rooted(r1.gitURL), cs, r1.tag) else Local(Rooted(r1.localPath), cs)
  {
    JoinRefines(r1, r2);
    JoinResolved(r1, r2);
    WalkClosed(PlaceOf(r1).rooted, u, ns, k, ms);
  }

  /** Every resolved reference has a place of that form. */
  lemma PlaceForm(r: Reference) returns (u: nat, ns: seq<string>)
    requires Resolved(r)
    ensures PlaceOf(r).cs == Ups(u) + ns && Names(ns) && (PlaceOf(r).rooted ==> u == 0)
  {
    PlaceWellFormed(r);
    u, ns := NormalForm(PlaceOf(r).rooted, PlaceOf(r).cs);
  }

  /** One step up from a place that ends in a name leads to the place without that name. */
  lemma JoinParent(r1: Reference, r2: Reference)
    requires Resolved(r1) && Resolved(r2) && r2.localPath == ".."
    requires PlaceOf(r1).cs != [] && PlaceOf(r1).cs[|PlaceOf(r1).cs| - 1] != ".."
    ensures
      var p, j := PlaceOf(r1), JoinReferences(r1, r2);
      j.Ok? && Resolved(j.value) && PlaceOf(j.value) == p.(cs := p.cs[..|p.cs| - 1])
  {
    var u, ns := PlaceForm(r1);
    Delimited.SplitPlain("..", '/');
    WalkOne(false, [], "..");
    assert PlaceOf(r2) == Local(false, Ups(1) + []) by {
      assert [] + [".."] == Ups(1) + [];
    }
    JoinRelative(r1, r2, u, ns, 1, []);
    LastOfForm(u, ns);
    TakeBack(u, ns);
  }

  lemma TakeBack(u: nat, ns: seq<string>)
    requires ns != []
    ensures forall rooted: bool :: From(rooted, u, ns, 1, []) == (Ups(u) + ns)[..u + |ns| - 1]
  {
    assert Ups(u) + ns[..|ns| - 1] + [] == (Ups(u) + ns)[..u + |ns| - 1];
  }

  /** From ./c, the reference ../b+y is ./b+y. */
  lemma JoinSibling(kind: Kind, c: string, b: string)
    requires Name(c) && Name(b) && b[0] != '.'
    ensures
      var r1, r2 := Reference(kind, "", "", "./" + c, "", "x"), Reference(kind, "", "", "../" + b, "", "y");
      JoinReferences(r1, r2) == Ok(Reference(kind, "", "", "./" + b, "", "y"))
  {
    SiblingPath(c, b);
    assert Rooted("../" + b) == Rooted("./" + c) == false;
    assert |"../" + b| > 1 && |"./" + c| > 1;
  }

  lemma SiblingPath(c: string, b: string)
    requires Name(c) && Name(b)
    ensures JoinPath("./" + c, "../" + b) == b
  {
    CleanUp(".", c, b);
    assert ("./" + c) + "/" + ("../" + b) == "." + "/" + c + "/../" + b;
    assert "." + "/" + b == "./" + b;
    LeadingDot(b);
    CleanNormal(false, [b]);
    assert Delimited.Join([b], '/') == b;
  }
}
