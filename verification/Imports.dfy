/** IMPORT aliases: what an accepted IMPORT stores and what dereferencing an alias gives. */
module Imports {
  import opened PlusEscape
  import opened References
  import opened ReferenceText
  import opened Paths
  import Delimited

  datatype ImportVal = ImportVal(fullPath: string, allowPrivileged: bool)

  datatype Entry = Entry(alias: string, val: ImportVal)

  /** `pinned` says whether the import decided the privilege. */
  datatype Dereferenced = Dereferenced(ref: Reference, allowPrivileged: bool, pinned: bool)

  type Scope = map<string, ImportVal>

  function LastComponent(p: string): string {
    var parts := Delimited.Split(p, '/');
    parts[|parts| - 1]
  }

  /** The alias and value an IMPORT command asks for, before it is checked against its scope. */
  function EntryFor(importStr: string, asName: string, privileged: bool, allowFlag: bool, home: string): Result<Entry> {
    if importStr == "" then Err(EmptyImport)
    else
      var parsed := Parse(TargetRef, importStr + "+none", home);
      if parsed.Err? then Err(parsed.error)
      else if parsed.value.IsImportReference() then Err(UnsupportedImport)
      else if !parsed.value.IsRemote() && !parsed.value.IsLocalExternal() then Err(UnsupportedImport)
      else
        var path := if parsed.value.IsRemote() then parsed.value.gitURL else parsed.value.localPath;
        var allow := if parsed.value.IsRemote() then privileged && allowFlag else privileged;
        var defaultAs := LastComponent(path);
        var alias := if asName != "" then asName else defaultAs;
        if defaultAs == "" then Err(UnsupportedImport)
        else if (defaultAs == "." || defaultAs == "..") && asName == "" then Err(ImportNeedsAlias)
        else if '/' in alias || ':' in alias then Err(InvalidAlias)
        else Ok(Entry(alias, ImportVal(ProjectCanonical(parsed.value), allow)))
  }

  /** Resolving a reference against the two scopes, the local one first. */
  function DerefIn(local: Scope, global: Scope, ref: Reference, home: string): Result<Dereferenced> {
    if !ref.IsImportReference() then Ok(Dereferenced(ref, false, false))
    else if ref.importRef !in local && ref.importRef !in global then Err(UnresolvedImport)
    else
      var val := if ref.importRef in local then local[ref.importRef] else global[ref.importRef];
      var parsed := Parse(ref.kind, val.fullPath + "+" + ref.name, home);
      if parsed.Err? then Err(parsed.error)
      else Ok(Dereferenced(parsed.value.(importRef := ref.importRef), val.allowPrivileged, true))
  }

  /** `p` is `last`, or ends in a slash and `last`; and `last` has no slash. */
  ghost predicate EndsIn(p: string, last: string) {
    '/' !in last && (p == last || exists before :: p == before + "/" + last)
  }

  /** The alias that an IMPORT command has to give: the one it names, else the last component of the imported path. */
  ghost predicate Alias(importStr: string, asName: string, home: string, alias: string) {
    if asName != "" then alias == asName
    else
      var parsed := Parse(TargetRef, importStr + "+none", home);
      && parsed.Ok? && alias != "" && alias != "." && alias != ".."
      && EndsIn(if parsed.value.gitURL != "" then parsed.value.gitURL else parsed.value.localPath, alias)
  }

  /** One alias more, which was free. */
  predicate Added(before: set<string>, after: set<string>, alias: string) {
    alias !in before && after == before + {alias}
  }

  lemma LastComponentEnds(p: string)
    ensures EndsIn(p, LastComponent(p))
  {
    var parts := Delimited.Split(p, '/');
    Delimited.JoinSplit(p, '/');
    var before := Delimited.LastPart(parts, '/');
    if |parts| > 1 {
      assert p == before + "/" + LastComponent(p);
    }
  }

  lemma AliasChosen(importStr: string, asName: string, privileged: bool, allowFlag: bool, home: string)
    requires EntryFor(importStr, asName, privileged, allowFlag, home).Ok?
    ensures Alias(importStr, asName, home, EntryFor(importStr, asName, privileged, allowFlag, home).value.alias)
  {
    var ref := Parse(TargetRef, importStr + "+none", home).value;
    ParsedShape(TargetRef, importStr + "+none", home);
    LastComponentEnds(if ref.IsRemote() then ref.gitURL else ref.localPath);
  }

  /** Which imports can be accepted at all: other places with a nameable last component and a plain alias. */
  lemma ReadableExactly(importStr: string, asName: string, privileged: bool, allowFlag: bool, home: string)
    ensures EntryFor(importStr, asName, privileged, allowFlag, home).Ok? <==>
      && importStr != "" && Parse(TargetRef, importStr + "+none", home).Ok?
      && var ref := Parse(TargetRef, importStr + "+none", home).value;
         var last := LastComponent(if ref.gitURL != "" then ref.gitURL else ref.localPath);
         && ref.importRef == "" && ref.localPath != "." && (ref.gitURL != "" || ref.localPath != "") && last != ""
         && (if asName != "" then '/' !in asName && ':' !in asName
             else last != "." && last != ".." && ':' !in last)
  {
    if Parse(TargetRef, importStr + "+none", home).Ok? {
      var ref := Parse(TargetRef, importStr + "+none", home).value;
      ParsedShape(TargetRef, importStr + "+none", home);
      LastComponentEnds(if ref.gitURL != "" then ref.gitURL else ref.localPath);
    }
  }

  lemma EndsInUnique(p: string, last: string)
    requires EndsIn(p, last)
    ensures last == LastComponent(p)
  {
    Delimited.SplitPlain(last, '/');
    if p != last {
      var before :| p == before + "/" + last;
      assert p == before + ['/'] + last;
      Delimited.SplitAppend(before, last, '/');
    }
  }

  /** The part of an IMPORT that does not look at the scopes. */
  method ReadImport(importStr: string, asName: string, privileged: bool, allowFlag: bool, home: string)
    returns (r: Result<Entry>)
    ensures r == EntryFor(importStr, asName, privileged, allowFlag, home)
  {
    if importStr == "" {
      return Err(EmptyImport);
    }
    var parsed := Parse(TargetRef, importStr + "+none", home);
    if parsed.Err? {
      return Err(parsed.error);
    }
    var ref := parsed.value;
    var path := "";
    var allow := privileged;
    if ref.IsImportReference() {
      return Err(UnsupportedImport);
    } else if ref.IsRemote() {
      path := ref.gitURL;
      allow := allow && allowFlag;
    } else if ref.IsLocalExternal() {
      path := ref.localPath;
    } else {
      return Err(UnsupportedImport);
    }
    var defaultAs := LastComponent(path);
    if defaultAs == "" {
      return Err(UnsupportedImport);
    }
    if (defaultAs == "." || defaultAs == "..") && asName == "" {
      return Err(ImportNeedsAlias);
    }
    var alias := asName;
    if alias == "" {
      alias := defaultAs;
    }
    if '/' in alias || ':' in alias {
      return Err(InvalidAlias);
    }
    return Ok(Entry(alias, ImportVal(ProjectCanonical(ref), allow)));
  }

  class ImportTracker {
    var local: Scope
    var global: Scope
    const home: string

    constructor (global: Scope, home: string)
      ensures this.local == map[] && this.global == global && this.home == home
    {
      this.local, this.global, this.home := map[], global, home;
    }

    method SetGlobal(gi: Scope)
      modifies this`global
      ensures global == gi
    {
      global := gi;
    }

    /** An accepted import adds one alias to one scope and overwrites nothing; a refused one changes nothing. */
    method Add(importStr: string, asName: string, isGlobal: bool, privileged: bool, allowFlag: bool)
      returns (r: Result<()>)
      modifies this
      ensures var e := EntryFor(importStr, asName, privileged, allowFlag, home);
              var scope := old(if isGlobal then global else local);
              && (r.Ok? <==> e.Ok? && e.value.alias !in scope)
              && (r.Err? ==> local == old(local) && global == old(global))
              && (r.Ok? ==> (if isGlobal then global else local) == scope[e.value.alias := e.value.val]
                            && (if isGlobal then local == old(local) else global == old(global)))
              && (r.Err? && e.Err? ==> r.error == e.error)
              && (r.Err? && e.Ok? ==> r.error == AliasExists)
      ensures r.Ok? ==>
                exists alias :: Alias(importStr, asName, home, alias)
                  && Added(old(if isGlobal then global.Keys else local.Keys), if isGlobal then global.Keys else local.Keys, alias)
      ensures r.Ok? && asName != "" ==>
                Added(old(if isGlobal then global.Keys else local.Keys), if isGlobal then global.Keys else local.Keys, asName)
    {
      var e := ReadImport(importStr, asName, privileged, allowFlag, home);
      if e.Err? {
        return Err(e.error);
      }
      var alias := e.value.alias;
      AliasChosen(importStr, asName, privileged, allowFlag, home);
      if isGlobal {
        if alias in global {
          return Err(AliasExists);
        }
        global := global[alias := e.value.val];
      } else {
        if alias in local {
          return Err(AliasExists);
        }
        local := local[alias := e.value.val];
      }
      return Ok(());
    }

    method Deref(ref: Reference) returns (r: Result<Dereferenced>)
      ensures r == DerefIn(local, global, ref, home)
    {
      if !ref.IsImportReference() {
        return Ok(Dereferenced(ref, false, false));
      }
      var val;
      if ref.importRef in local {
        val := local[ref.importRef];
      } else if ref.importRef in global {
        val := global[ref.importRef];
      } else {
        return Err(UnresolvedImport);
      }
      var parsed := Parse(ref.kind, val.fullPath + "+" + ref.name, home);
      if parsed.Err? {
        return Err(parsed.error);
      }
      return Ok(Dereferenced(parsed.value.(importRef := ref.importRef), val.allowPrivileged, true));
    }
  }

  // ----- Dereferencing an alias is parsing the full path -----

  lemma TwoWords(x: string, name: string)
    requires Plain(name) && name != ""
    ensures var st := FeedAll(BEGIN, x);
            var words := Words(x + "+" + name);
            && (!st.escape ==> words == Ok(st.ret + [st.word] + [name]))
            && (st.escape && words.Ok? && |words.value| == 2 ==> '+' in words.value[1])
  {
    var st := FeedAll(BEGIN, x);
    ScanThenPlain(x, name);
    if st.escape {
      assert FeedAll(BEGIN, x + "+" + name).word == st.word + "" + ['+'] + name;
    } else {
      assert "" + name == name;
    }
  }

  /** A name is read the same way whatever it is: only the text before it matters. */
  lemma ParseDependsOnPrefix(x: string, home: string, kind: Kind, name: string)
    requires Parse(TargetRef, x + "+none", home).Ok? && ValidName(kind, name)
    ensures Parse(kind, x + "+" + name, home)
            == Ok(Parse(TargetRef, x + "+none", home).value.(kind := kind, name := name))
  {
    assert x + "+none" == x + "+" + "none";
    var words := Words(x + "+none").value;
    TwoWords(x, "none");
    ValidNameIsPlain(TargetRef, words[1]);
    ValidNameIsPlain(kind, name);
    TwoWords(x, name);
    var st := FeedAll(BEGIN, x);
    assert st.ret == [];
    assert words[0] == st.word;
    assert Words(x + "+" + name).value == [st.word] + [name];
  }

  lemma CanonicalIsPrinted(r: Reference)
    requires !r.IsImportReference() && (r.IsRemote() || (r.IsLocalExternal() && r.gitURL == ""))
    ensures ProjectCanonical(r) + "+" + r.name == String(r)
  {
  }

  lemma ParsedShape(kind: Kind, s: string, home: string)
    requires Parse(kind, s, home).Ok?
    ensures Parse(kind, s, home).value.localPath != "" ==> Parse(kind, s, home).value.gitURL == ""
  {
  }

  /**
   Once an accepted import is in scope under its alias, dereferencing the alias gives the place
   that the full import path names, exactly when that place survives printing.
   */
  lemma DerefIsFullPath(
      importStr: string, asName: string, privileged: bool, allowFlag: bool, home: string,
      local: Scope, global: Scope, kind: Kind, name: string)
    requires EntryFor(importStr, asName, privileged, allowFlag, home).Ok? && ValidName(kind, name)
    requires var e := EntryFor(importStr, asName, privileged, allowFlag, home).value;
             (e.alias in local && local[e.alias] == e.val)
             || (e.alias !in local && e.alias in global && global[e.alias] == e.val)
    ensures
      var alias := EntryFor(importStr, asName, privileged, allowFlag, home).value.alias;
      var full := Parse(kind, importStr + "+" + name, home);
      var d := DerefIn(local, global, Reference(kind, "", "", "", alias, name), home);
      && full.Ok?
      && (d.Ok? && d.value.ref == full.value.(importRef := alias) <==> Printable(full.value, home))
      && (d.Ok? ==> d.value.pinned
                    && d.value.allowPrivileged == (privileged && (full.value.IsRemote() ==> allowFlag)))
  {
    var parsed := Parse(TargetRef, importStr + "+none", home).value;
    ParseDependsOnPrefix(importStr, home, kind, name);
    ParsedShape(TargetRef, importStr + "+none", home);
    var full := parsed.(kind := kind, name := name);
    assert ProjectCanonical(full) == ProjectCanonical(parsed);
    CanonicalIsPrinted(full);
    PrintParseRoundTrip(full, home);
    AliasNonEmpty(importStr, asName, privileged, allowFlag, home);
    ParsedHasNoImport(kind, String(full), home, full);
  }

  lemma AliasNonEmpty(importStr: string, asName: string, privileged: bool, allowFlag: bool, home: string)
    requires EntryFor(importStr, asName, privileged, allowFlag, home).Ok?
    ensures EntryFor(importStr, asName, privileged, allowFlag, home).value.alias != ""
  {
  }

  /** Text printed from a reference without an import never reads back as an import reference of the same place. */
  lemma ParsedHasNoImport(kind: Kind, s: string, home: string, r: Reference)
    requires r.importRef == "" && (r.gitURL != "" || r.localPath != "")
    ensures Parse(kind, s, home).Ok? && Parse(kind, s, home).value.importRef != "" ==>
              Parse(kind, s, home).value.gitURL == "" && Parse(kind, s, home).value.localPath == ""
  {
  }

  /** The text `alias+name` reads as a reference to an accepted alias unless that starts like a local path. */
  lemma AliasReadsBack(
      importStr: string, asName: string, privileged: bool, allowFlag: bool, home: string, kind: Kind, name: string)
    requires EntryFor(importStr, asName, privileged, allowFlag, home).Ok? && ValidName(kind, name)
    ensures
      var alias := EntryFor(importStr, asName, privileged, allowFlag, home).value.alias;
      Parse(kind, EscapePlus(alias) + "+" + name, home) == Ok(Reference(kind, "", "", "", alias, name)) <==>
        !Dotted(alias) && Escapable(alias)
  {
    AliasNonEmpty(importStr, asName, privileged, allowFlag, home);
    var alias := EntryFor(importStr, asName, privileged, allowFlag, home).value.alias;
    PrintParseRoundTrip(Reference(kind, "", "", "", alias, name), home);
  }

  // ----- The tracker from its user's side -----

  /**
   An IMPORT and then a reference to its alias. Unless a local alias hides it, the accepted import is what the
   reference leads to; and whatever the import, references to other aliases lead where they led before.
   */
  method ImportThenRefer(
      t: ImportTracker, importStr: string, asName: string, isGlobal: bool, privileged: bool, allowFlag: bool,
      kind: Kind, name: string, other: Reference)
    returns (
      added: Result<()>, alias: string, d: Result<Dereferenced>, before: Result<Dereferenced>, after: Result<Dereferenced>)
    requires ValidName(kind, name)
    modifies t
    ensures var e := EntryFor(importStr, asName, privileged, allowFlag, t.home);
            var full := Parse(kind, importStr + "+" + name, t.home);
            && (added.Err? ==> after == before)
            && (added.Ok? ==>
                  && e.Ok? && full.Ok? && Alias(importStr, asName, t.home, alias) && alias == e.value.alias
                  && d == DerefIn(t.local, t.global, Reference(kind, "", "", "", alias, name), t.home)
                  && (other.importRef != alias ==> after == before)
                  && (isGlobal && other.importRef in old(t.local) ==> after == before)
                  && (!isGlobal || alias !in old(t.local) ==>
                        && (d.Ok? && d.value.ref == full.value.(importRef := alias) <==> Printable(full.value, t.home))
                        && (d.Ok? ==> d.value.allowPrivileged == (privileged && (full.value.IsRemote() ==> allowFlag)))))
  {
    before := t.Deref(other);
    added := t.Add(importStr, asName, isGlobal, privileged, allowFlag);
    after := t.Deref(other);
    alias, d := "", Err(UnresolvedImport);
    if added.Ok? {
      ParseDependsOnPrefix(importStr, t.home, kind, name);
      AliasChosen(importStr, asName, privileged, allowFlag, t.home);
      var e := ReadImport(importStr, asName, privileged, allowFlag, t.home);
      alias := e.value.alias;
      d := t.Deref(Reference(kind, "", "", "", alias, name));
      if !isGlobal || alias !in old(t.local) {
        DerefIsFullPath(importStr, asName, privileged, allowFlag, t.home, t.local, t.global, kind, name);
      }
    }
  }
}
