/** Printing references and parsing them back. `home` stands for the HOME environment variable. */
module ReferenceText {
  import opened PlusEscape
  import opened Paths
  import opened References

  predicate Lower(c: char) { 'a' <= c <= 'z' }
  predicate Upper(c: char) { 'A' <= c <= 'Z' }
  predicate Digit(c: char) { '0' <= c <= '9' }

  predicate TargetNameChar(c: char) { Lower(c) || Upper(c) || Digit(c) || c == '.' || c == '-' }
  predicate CommandNameChar(c: char) { Upper(c) || Digit(c) || c == '.' || c == '_' }

  /** The name patterns ^[a-z][a-zA-Z0-9.\-]*$ of targets and ^[A-Z][A-Z0-9._]*$ of commands. */
  predicate ValidName(kind: Kind, name: string) {
    && name != ""
    && match kind
       case TargetRef => Lower(name[0]) && forall i :: 0 <= i < |name| ==> TargetNameChar(name[i])
       case CommandRef => Upper(name[0]) && forall i :: 0 <= i < |name| ==> CommandNameChar(name[i])
  }

  // ----- Printing -----

  function String(r: Reference): string {
    if r.IsImportReference() then EscapePlus(r.importRef) + "+" + r.name
    else if r.IsLocalExternal() then EscapePlus(r.localPath) + "+" + r.name
    else if r.IsRemote() then
      EscapePlus(r.gitURL) + (if r.tag != "" then ":" + EscapePlus(r.tag) else "") + "+" + r.name
    else "+" + r.name
  }

  function ProjectCanonical(r: Reference): string {
    if r.gitURL != "" then EscapePlus(r.gitURL) + (if r.tag != "" then ":" + EscapePlus(r.tag) else "")
    else if r.localPath == "." then ""
    else if r.localPath == "" && r.importRef != "" then EscapePlus(r.importRef)
    else EscapePlus(r.localPath)
  }

  // ----- Parsing -----

  predicate Tilde(w: string) {
    |w| >= 2 && w[..2] == "~/"
  }

  predicate Dotted(w: string) {
    w != "" && w[0] == '.'
  }

  predicate LooksLocal(w: string) {
    Dotted(w) || Tilde(w) || Rooted(w)
  }

  /** Position of the first ':' in `w`, or its length. */
  function Colon(w: string): (i: nat)
    ensures i <= |w| && ':' !in w[..i] && (i < |w| ==> w[i] == ':')
  {
    if w == "" || w[0] == ':' then 0
    else
      var j := Colon(w[1..]);
      assert w[..j + 1] == [w[0]] + w[1..][..j];
      j + 1
  }

  function LocalPathOf(w: string, home: string): string
    requires LooksLocal(w)
  {
    if Tilde(w) then home + "/" + w[2..]
    else if Rooted(w) then Clean(w)
    else AsRelative(Clean(w))
  }

  /** What the text before the '+' says. */
  function Classify(w: string, home: string, kind: Kind, name: string): Reference {
    if w == "" then Reference(kind, "", "", ".", "", name)
    else if LooksLocal(w) then Reference(kind, "", "", LocalPathOf(w, home), "", name)
    else if '/' in w || ':' in w then
      Reference(kind, w[..Colon(w)], if Colon(w) < |w| then w[Colon(w) + 1..] else "", "", "", name)
    else Reference(kind, "", "", "", w, name)
  }

  function Parse(kind: Kind, s: string, home: string): Result<Reference> {
    var words := Words(s);
    if words.Err? then Err(words.error)
    else if |words.value| != 2 then Err(InvalidReference)
    else if !ValidName(kind, words.value[1]) then Err(InvalidName)
    else Ok(Classify(words.value[0], home, kind, words.value[1]))
  }

  // ----- The exact round trip -----

  /** The unescaped text that `String` puts before the '+'. */
  function Prefix(r: Reference): string {
    if r.IsImportReference() then r.importRef
    else if r.IsLocalExternal() then r.localPath
    else if r.IsRemote() then r.gitURL + (if r.tag != "" then ":" + r.tag else "")
    else ""
  }

  lemma StringForm(r: Reference)
    ensures String(r) == EscapePlus(Prefix(r)) + "+" + r.name
  {
    if r.IsImportReference() || r.IsLocalExternal() {
    } else if !r.IsRemote() {
      assert "" + "+" + r.name == "+" + r.name;
    } else if r.tag == "" {
      assert r.gitURL + "" == r.gitURL;
      assert EscapePlus(r.gitURL) + "" == EscapePlus(r.gitURL);
    } else {
      EscapeAppend(r.gitURL, ":" + r.tag);
      EscapeAppend(":", r.tag);
      EscapePlain(":");
    }
  }

  lemma ValidNameIsPlain(kind: Kind, name: string)
    requires ValidName(kind, name)
    ensures Plain(name) && name != ""
  {
    forall i | 0 <= i < |name| ensures name[i] != '+' && name[i] != '\\' {
      if kind == TargetRef {
        assert TargetNameChar(name[i]);
      } else {
        assert CommandNameChar(name[i]);
      }
    }
  }

  /** A word that escaping cannot protect never reads back as the text before a plain name. */
  lemma UnescapableNeverSplitsInTwo(w: string, name: string)
    requires Plain(name) && name != "" && !Escapable(w)
    ensures var words := Words(EscapePlus(w) + "+" + name);
            words.Ok? ==> |words.value| != 2 || '+' in words.value[1]
  {
    var e := EscapePlus(w);
    var st := FeedAll(BEGIN, e);
    ScanThenPlain(e, name);
    if PlusSafe(w) {
      ScanEscaped(w);
    }
    if st.escape {
      assert FeedAll(BEGIN, e + "+" + name).word == st.word + "" + ['+'] + name;
    } else {
      assert !PlusSafe(w);
      var i := FirstBadPlus(w);
      assert w == w[..i] + "+" + w[i + 1..];
      EscapeAround(w[..i], w[i + 1..]);
      OddRunCuts(w[..i], EscapePlus(w[i + 1..]));
    }
  }

  lemma ParseOfPrinted(r: Reference, home: string)
    requires ValidName(r.kind, r.name)
    ensures Escapable(Prefix(r)) ==> Parse(r.kind, String(r), home) == Ok(Classify(Prefix(r), home, r.kind, r.name))
    ensures !Escapable(Prefix(r)) ==> Parse(r.kind, String(r), home).Err?
  {
    StringForm(r);
    ValidNameIsPlain(r.kind, r.name);
    if Escapable(Prefix(r)) {
      EscapeRoundTrip(Prefix(r), r.name);
    } else {
      UnescapableNeverSplitsInTwo(Prefix(r), r.name);
      var words := Words(String(r));
      if words.Ok? && |words.value| == 2 && ValidName(r.kind, words.value[1]) {
        ValidNameIsPlain(r.kind, words.value[1]);
      }
    }
  }

  predicate PrintableImport(r: Reference) {
    r.gitURL == "" && r.tag == "" && r.localPath == ""
    && '/' !in r.importRef && ':' !in r.importRef && !Dotted(r.importRef)
  }

  /** A path that the parser leaves as it is. */
  predicate ReadsBack(p: string, home: string) {
    if Tilde(p) then home + "/" + p[2..] == p
    else if Rooted(p) then Clean(p) == p
    else Dotted(p) && AsRelative(Clean(p)) == p
  }

  predicate PrintableLocal(r: Reference, home: string) {
    r.gitURL == "" && r.tag == "" && ReadsBack(r.localPath, home)
  }

  predicate PrintableRemote(r: Reference) {
    ':' !in r.gitURL && !LooksLocal(r.gitURL) && (r.tag != "" || '/' in r.gitURL)
  }

  /** The references that survive being printed and parsed. */
  predicate Printable(r: Reference, home: string) {
    && ValidName(r.kind, r.name)
    && Escapable(Prefix(r))
    && (if r.IsImportReference() then PrintableImport(r)
        else if r.IsLocalExternal() then PrintableLocal(r, home)
        else if r.IsRemote() then PrintableRemote(r)
        else r.gitURL == "" && r.tag == "" && r.localPath == ".")
  }

  lemma ColonOfRemote(git: string, tag: string)
    requires ':' !in git
    ensures Colon(git) == |git| && Colon(git + ":" + tag) == |git|
  {
    var w := git + ":" + tag;
    assert w[|git|] == ':';
    assert forall i :: 0 <= i < |git| ==> w[i] == git[i];
  }

  lemma ClassifiedImport(r: Reference, home: string)
    requires r.IsImportReference()
    ensures Classify(Prefix(r), home, r.kind, r.name) == r <==> PrintableImport(r)
  {
    var w := r.importRef;
    assert Tilde(w) ==> w[..2][1] == '/' && w[1] == '/';
  }

  lemma ClassifiedLocal(r: Reference, home: string)
    requires r.IsLocalExternal() && !r.IsImportReference()
    ensures Classify(Prefix(r), home, r.kind, r.name) == r <==> PrintableLocal(r, home)
  {
    assert Tilde(r.localPath) ==> r.localPath[..2][0] == '~';
  }

  lemma ClassifiedRemote(r: Reference, home: string)
    requires r.IsRemote() && !r.IsImportReference()
    ensures Classify(Prefix(r), home, r.kind, r.name) == r <==> PrintableRemote(r)
  {
    var w := Prefix(r);
    if r.tag == "" {
      assert w == r.gitURL;
    } else {
      assert w == r.gitURL + ":" + r.tag;
      assert w[|r.gitURL|] == ':';
      assert w[0] == r.gitURL[0];
      assert Tilde(w) <==> Tilde(r.gitURL) by {
        if |r.gitURL| >= 2 { assert w[..2] == r.gitURL[..2]; } else { assert w[1] == ':'; }
      }
    }
    if ':' !in r.gitURL {
      ColonOfRemote(r.gitURL, r.tag);
      assert r.tag != "" ==> w[..|r.gitURL|] == r.gitURL && w[|r.gitURL| + 1..] == r.tag;
      assert r.tag == "" ==> w[..|w|] == w;
    } else {
      assert ':' !in w[..Colon(w)];
    }
  }

  /**
   Printing a reference and parsing the text gives the same reference back exactly when the
   reference is printable; no reference is excluded.
   */
  lemma PrintParseRoundTrip(r: Reference, home: string)
    ensures Parse(r.kind, String(r), home) == Ok(r) <==> Printable(r, home)
  {
    if ValidName(r.kind, r.name) {
      ParseOfPrinted(r, home);
      if r.IsImportReference() {
        ClassifiedImport(r, home);
      } else if r.IsLocalExternal() {
        ClassifiedLocal(r, home);
      } else if r.IsRemote() {
        ClassifiedRemote(r, home);
      }
    }
  }

  // ----- The round trip on what the parser itself returns -----

  predicate EmptyRemote(r: Reference) {
    r.gitURL == "" && r.localPath == "" && r.importRef == ""
  }

  lemma ParsedPathIsFixed(w: string)
    requires Dotted(w) || Rooted(w)
    ensures var p := if Rooted(w) then Clean(w) else AsRelative(Clean(w));
            && p != "" && Rooted(p) == Rooted(w) && (Dotted(p) || Rooted(p))
            && (if Rooted(p) then Clean(p) == p else AsRelative(Clean(p)) == p)
  {
    CleanIsRender(w);
    CleanIdempotent(w);
    ComponentsNormal(w);
    AsRelativeShape(Rooted(w), Components(w));
  }

  lemma ParsedLocalIsPrintable(w: string, home: string, kind: Kind, name: string)
    requires LooksLocal(w) && !Tilde(w)
    ensures var r := Classify(w, home, kind, name);
            r.localPath != "" && r.gitURL == "" && r.tag == "" && r.importRef == ""
            && (r.localPath != "." ==> PrintableLocal(r, home))
  {
    ParsedPathIsFixed(w);
    var p := LocalPathOf(w, home);
    assert p[0] != '~';
    assert |p| >= 2 ==> p[..2][0] == p[0];
  }

  lemma ParsedRemoteIsPrintable(w: string, home: string, kind: Kind, name: string)
    requires w != "" && !LooksLocal(w) && ('/' in w || ':' in w)
    ensures var r := Classify(w, home, kind, name);
            r.localPath == "" && r.importRef == ""
            && (r.gitURL != "" ==> (PrintableRemote(r) <==> r.tag != "" || '/' in r.gitURL))
  {
    var r := Classify(w, home, kind, name);
    if r.gitURL != "" {
      assert r.gitURL[0] == w[0];
      assert |r.gitURL| >= 2 ==> r.gitURL[..2] == w[..2];
    }
  }

  /**
   Of the references the parser returns, the ones that do not survive printing are those with an empty git URL,
   the remote ones with neither '/' nor tag, those whose text cannot be escaped, and, of the home-directory
   paths, those that are not clean once the home directory has been put in front.
   */
  lemma ParsedRoundTrip(kind: Kind, s: string, home: string)
    requires Parse(kind, s, home).Ok?
    ensures
      var r := Parse(kind, s, home).value;
      Parse(kind, String(r), home) == Ok(r) <==>
        && !EmptyRemote(r) && (r.IsRemote() ==> r.tag != "" || '/' in r.gitURL) && Escapable(Prefix(r))
        && (Tilde(Words(s).value[0]) ==> ReadsBack(r.localPath, home))
  {
    var w, name := Words(s).value[0], Words(s).value[1];
    var r := Classify(w, home, kind, name);
    PrintParseRoundTrip(r, home);
    if w == "" {
    } else if Tilde(w) {
      assert r.localPath[|home|] == '/';
    } else if LooksLocal(w) {
      ParsedLocalIsPrintable(w, home, kind, name);
    } else if '/' in w || ':' in w {
      ParsedRemoteIsPrintable(w, home, kind, name);
    } else {
      assert PrintableImport(r);
    }
  }
}
