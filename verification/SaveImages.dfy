/** Checking and planning the images that one WAIT block saves. */
module SaveImages {
  import opened Options

  datatype Error =
    | NotAllPlatforms(tag: string)
    | AlreadyDeclared(tag: string)
    | NoManifestListRepeated(tag: string)
    | SamePlatform(tag: string)
    | SameDefaultPlatform(tag: string)
    | BadName(tag: string)

  datatype Result<+T> = Ok(value: T) | Err(error: Error)

  /** An active SAVE IMAGE: it is pushed or exported locally. `registry` is the local registry option. */
  datatype Image = Image(
    tag: string, platform: string, hasPlatform: bool, noManifestList: bool, checkDuplicate: bool,
    push: bool, local: bool, registry: bool)

  /** The platform-specific name of a tag, or None if the tag is not a valid image name. */
  type Naming = (string, string) -> Option<string>

  /** Part of a manifest list. */
  predicate Listed(im: Image) {
    im.hasPlatform && !im.noManifestList
  }

  /** A tag of which every image is part of a manifest list. */
  predicate Multi(images: seq<Image>, tag: string) {
    forall i :: 0 <= i < |images| && images[i].tag == tag ==> Listed(images[i])
  }

  // ----- First pass: which tags are multi-platform -----

  /** Of two images with one tag the first is part of a manifest list and the second has a platform. */
  predicate PairOk(a: Image, b: Image) {
    a.tag == b.tag ==> Listed(a) && b.hasPlatform
  }

  predicate PairsOk(images: seq<Image>) {
    forall i, j :: 0 <= i < j < |images| ==> PairOk(images[i], images[j])
  }

  predicate Occurs(images: seq<Image>, t: string) {
    exists i :: 0 <= i < |images| && images[i].tag == t
  }

  /** What the first pass knows after the images seen so far. */
  ghost predicate Seen(images: seq<Image>, isMulti: map<string, bool>, noManifestList: set<string>) {
    && (forall t :: t in isMulti <==> Occurs(images, t))
    && (forall t :: t in isMulti ==> (isMulti[t] <==> Multi(images, t)))
    && (forall t :: t in noManifestList ==> t in isMulti && !isMulti[t])
  }

  lemma TagNext(images: seq<Image>, im: Image, t: string)
    ensures Occurs(images + [im], t) <==> Occurs(images, t) || t == im.tag
    ensures Multi(images + [im], t) <==> Multi(images, t) && (t == im.tag ==> Listed(im))
  {
    var more := images + [im];
    assert more[|images|] == im;
    forall i | 0 <= i < |images| && images[i].tag == t
      ensures Occurs(more, t) && (Multi(more, t) ==> Listed(images[i]))
    {
      assert more[i] == images[i];
    }
  }

  lemma SeenNext(images: seq<Image>, isMulti: map<string, bool>, noManifestList: set<string>, im: Image)
    requires Seen(images, isMulti, noManifestList)
    requires im.tag in isMulti ==> isMulti[im.tag]
    ensures var noMore := if Listed(im) || !im.hasPlatform then noManifestList else noManifestList + {im.tag};
            Seen(images + [im], isMulti[im.tag := Listed(im)], noMore)
  {
    forall t {
      TagNext(images, im, t);
    }
    if im.tag !in isMulti {
      assert Multi(images, im.tag);
    }
  }

  /** Images `i` and `j` of one tag that do not go together, and what is said of them. */
  predicate Refused(images: seq<Image>, i: nat, j: nat, e: Error) {
    && i < j < |images| && images[i].tag == images[j].tag && !PairOk(images[i], images[j])
    && (if images[j].hasPlatform || Listed(images[i]) then e == NotAllPlatforms(images[j].tag)
        else e == AlreadyDeclared(images[j].tag))
  }

  /** The next image repeats a tag that some earlier image makes single-platform, or has no platform itself. */
  lemma RepeatFails(images: seq<Image>, n: nat, isMulti: map<string, bool>, noManifestList: set<string>)
    returns (i: nat)
    requires n < |images| && Seen(images[..n], isMulti, noManifestList) && images[n].tag in isMulti
    requires !isMulti[images[n].tag] || !images[n].hasPlatform
    ensures i < n && images[i].tag == images[n].tag && !PairOk(images[i], images[n])
    ensures Listed(images[i]) == isMulti[images[n].tag] && !PairsOk(images)
  {
    var t := images[n].tag;
    if !isMulti[t] {
      var j :| 0 <= j < n && images[..n][j].tag == t && !Listed(images[..n][j]);
      i := j;
    } else {
      var j :| 0 <= j < n && images[..n][j].tag == t;
      i := j;
    }
    assert images[..n][i] == images[i];
    assert !PairOk(images[i], images[n]);
  }

  lemma RepeatPasses(images: seq<Image>, n: nat, isMulti: map<string, bool>, noManifestList: set<string>)
    requires n < |images| && Seen(images[..n], isMulti, noManifestList) && PairsOk(images[..n])
    requires images[n].tag in isMulti ==> isMulti[images[n].tag] && images[n].hasPlatform
    ensures PairsOk(images[..n + 1])
  {
    var more := images[..n + 1];
    forall i, j | 0 <= i < j < |more| ensures PairOk(more[i], more[j]) {
      assert images[..n][i] == more[i];
      assert Occurs(images[..n], more[i].tag);
      if j < n {
        assert images[..n][j] == more[j];
      }
    }
  }

  method FirstPass(images: seq<Image>) returns (r: Result<map<string, bool>>)
    ensures r.Ok? <==> PairsOk(images)
    ensures r.Ok? ==> forall i :: 0 <= i < |images| ==>
              images[i].tag in r.value && (r.value[images[i].tag] <==> Multi(images, images[i].tag))
    ensures r.Err? ==> exists i: nat, j: nat :: Refused(images, i, j, r.error)
    ensures r.Err? ==> !r.error.NoManifestListRepeated?
  {
    var isMulti: map<string, bool> := map[];
    var noManifestList: set<string> := {};
    for n := 0 to |images|
      invariant Seen(images[..n], isMulti, noManifestList) && PairsOk(images[..n])
    {
      var im := images[n];
      if im.tag in isMulti {
        if im.hasPlatform != isMulti[im.tag] {
          ghost var i := RepeatFails(images, n, isMulti, noManifestList);
          assert Refused(images, i, n, NotAllPlatforms(im.tag));
          return Err(NotAllPlatforms(im.tag));
        }
        if !isMulti[im.tag] {
          ghost var i := RepeatFails(images, n, isMulti, noManifestList);
          assert Refused(images, i, n, AlreadyDeclared(im.tag));
          return Err(AlreadyDeclared(im.tag));
        }
        if im.tag in noManifestList {
          return Err(NoManifestListRepeated(im.tag));
        }
      }
      SeenNext(images[..n], isMulti, noManifestList, im);
      RepeatPasses(images, n, isMulti, noManifestList);
      assert images[..n + 1] == images[..n] + [im];
      if im.hasPlatform {
        if im.noManifestList {
          noManifestList := noManifestList + {im.tag};
          isMulti := isMulti[im.tag := false];
        } else {
          isMulti := isMulti[im.tag := true];
        }
      } else {
        isMulti := isMulti[im.tag := false];
      }
    }
    assert images[..|images|] == images;
    assert forall i :: 0 <= i < |images| ==> Occurs(images, images[i].tag);
    return Ok(isMulti);
  }

  // ----- Second pass: unique names and export entries -----

  /** What an image claims for itself when duplicates are checked. */
  datatype Claim = Nothing | PlatformName(name: string) | Single(tag: string)

  predicate Named(images: seq<Image>, naming: Naming, i: nat)
    requires i < |images|
  {
    Multi(images, images[i].tag) ==> naming(images[i].tag, images[i].platform).Some?
  }

  function Claimed(images: seq<Image>, naming: Naming, i: nat): Claim
    requires i < |images| && Named(images, naming, i)
  {
    var im := images[i];
    if !im.checkDuplicate || im.tag == "" then Nothing
    else if Multi(images, im.tag) then PlatformName(naming(im.tag, im.platform).value)
    else Single(im.tag)
  }

  predicate AllNamed(images: seq<Image>, naming: Naming, n: nat)
    requires n <= |images|
  {
    forall i :: 0 <= i < n ==> Named(images, naming, i)
  }

  /** The first `n` images claim different things. */
  predicate NoClash(images: seq<Image>, naming: Naming, n: nat)
    requires n <= |images| && AllNamed(images, naming, n)
  {
    forall i, j :: 0 <= i < j < n && Claimed(images, naming, i) != Nothing ==>
      Claimed(images, naming, i) != Claimed(images, naming, j)
  }

  /** An image that is loaded as a tar file and joined to others by a manifest. */
  predicate Tar(images: seq<Image>, i: nat)
    requires i < |images|
  {
    images[i].local && Multi(images, images[i].tag) && !images[i].registry
  }

  datatype Entry = Entry(refID: nat, name: string, push: bool)

  datatype Exports = Exports(entries: seq<Entry>, tars: seq<nat>)

  /** Every image under its tag, and a multi-platform one that is exported also under its platform's name. */
  function NamesOf(images: seq<Image>, naming: Naming, n: nat): seq<(string, bool)>
    requires n <= |images| && AllNamed(images, naming, n)
  {
    if n == 0 then []
    else
      var im := images[n - 1];
      assert Named(images, naming, n - 1);
      NamesOf(images, naming, n - 1) + [(im.tag, im.push)]
      + if im.local && Multi(images, im.tag) then [(naming(im.tag, im.platform).value, false)] else []
  }

  ghost predicate Planned(images: seq<Image>, naming: Naming, n: nat, x: Exports)
    requires n <= |images| && AllNamed(images, naming, n)
  {
    && NamesOf(images, naming, n) == seq(|x.entries|, k requires 0 <= k < |x.entries| => (x.entries[k].name, x.entries[k].push))
    && (forall k :: 0 <= k < |x.entries| ==> x.entries[k].refID == k)
    && (forall k :: 0 <= k < |x.tars| ==> x.tars[k] < n && Tar(images, x.tars[k]))
    && (forall i :: 0 <= i < n && Tar(images, i) ==> i in x.tars)
    && (forall k, l :: 0 <= k < l < |x.tars| ==> x.tars[k] < x.tars[l])
  }

  /**
   Which names are exported: every image under its tag, with its own push flag; and never pushed, under the name of
   its platform, every local image whose tag has only images with a platform and a manifest list.
   */
  lemma {:induction false} NamesExactly(images: seq<Image>, naming: Naming, n: nat, name: string, push: bool)
    requires n <= |images| && AllNamed(images, naming, n)
    ensures (name, push) in NamesOf(images, naming, n) <==>
      exists i :: 0 <= i < n &&
        (|| (name == images[i].tag && push == images[i].push)
         || (&& images[i].local && !push && naming(images[i].tag, images[i].platform) == Some(name)
             && forall j :: 0 <= j < |images| && images[j].tag == images[i].tag ==>
                  images[j].hasPlatform && !images[j].noManifestList))
  {
    if n > 0 {
      NamesExactly(images, naming, n - 1, name, push);
      assert Named(images, naming, n - 1);
      assert Multi(images, images[n - 1].tag) <==>
        forall j :: 0 <= j < |images| && images[j].tag == images[n - 1].tag ==>
          images[j].hasPlatform && !images[j].noManifestList;
    }
  }

  /** What a plan exports, and which tar images its manifests wait for. */
  lemma PlanExactly(images: seq<Image>, naming: Naming, x: Exports, i: nat)
    requires AllNamed(images, naming, |images|) && Planned(images, naming, |images|, x) && i < |images|
    ensures exists k :: 0 <= k < |x.entries| && x.entries[k] == Entry(k, images[i].tag, images[i].push)
    ensures i in x.tars <==>
      && images[i].local && !images[i].registry
      && forall j :: 0 <= j < |images| && images[j].tag == images[i].tag ==>
           images[j].hasPlatform && !images[j].noManifestList
  {
    NamesExactly(images, naming, |images|, images[i].tag, images[i].push);
    var names := NamesOf(images, naming, |images|);
    assert (images[i].tag, images[i].push) in names;
    var k :| 0 <= k < |names| && names[k] == (images[i].tag, images[i].push);
    assert x.entries[k].name == images[i].tag && x.entries[k].push == images[i].push && x.entries[k].refID == k;
  }

  /** The two sets hold the claims of the first `n` images. */
  ghost predicate Holds(images: seq<Image>, naming: Naming, n: nat, platformNames: set<string>, singleNames: set<string>)
    requires n <= |images| && AllNamed(images, naming, n)
  {
    && (forall p :: p in platformNames <==> exists i :: 0 <= i < n && Claimed(images, naming, i) == PlatformName(p))
    && (forall t :: t in singleNames <==> exists i :: 0 <= i < n && Claimed(images, naming, i) == Single(t))
  }

  lemma HoldsNext(images: seq<Image>, naming: Naming, n: nat, platformNames: set<string>, singleNames: set<string>)
    requires n < |images| && AllNamed(images, naming, n + 1) && Holds(images, naming, n, platformNames, singleNames)
    ensures var c := Claimed(images, naming, n);
            && (c.Nothing? ==> Holds(images, naming, n + 1, platformNames, singleNames))
            && (c.PlatformName? ==> Holds(images, naming, n + 1, platformNames + {c.name}, singleNames))
            && (c.Single? ==> Holds(images, naming, n + 1, platformNames, singleNames + {c.tag}))
  {
  }

  /** The next claim clashes exactly if it is held already. */
  lemma ClashNext(images: seq<Image>, naming: Naming, n: nat, platformNames: set<string>, singleNames: set<string>)
    requires n < |images| && AllNamed(images, naming, n + 1) && Holds(images, naming, n, platformNames, singleNames)
    requires NoClash(images, naming, n)
    ensures var c := Claimed(images, naming, n);
            NoClash(images, naming, n + 1) <==>
              (c.PlatformName? ==> c.name !in platformNames) && (c.Single? ==> c.tag !in singleNames)
  {
  }

  method SecondPass(images: seq<Image>, isMulti: map<string, bool>, naming: Naming) returns (r: Result<Exports>)
    requires forall i :: 0 <= i < |images| ==>
               images[i].tag in isMulti && (isMulti[images[i].tag] <==> Multi(images, images[i].tag))
    ensures r.Ok? <==> AllNamed(images, naming, |images|) && NoClash(images, naming, |images|)
    ensures r.Err? ==> !r.error.NoManifestListRepeated?
    ensures r.Ok? ==> Planned(images, naming, |images|, r.value)
  {
    var platformNames: set<string>, singleNames: set<string> := {}, {};
    var x := Exports([], []);
    for n := 0 to |images|
      invariant AllNamed(images, naming, n) && NoClash(images, naming, n)
      invariant Holds(images, naming, n, platformNames, singleNames)
      invariant Planned(images, naming, n, x)
    {
      var im := images[n];
      var platformName := "";
      if isMulti[im.tag] {
        var name := naming(im.tag, im.platform);
        if name.None? {
          assert !Named(images, naming, n);
          return Err(BadName(im.tag));
        }
        platformName := name.value;
      }
      HoldsNext(images, naming, n, platformNames, singleNames);
      ClashNext(images, naming, n, platformNames, singleNames);
      if im.checkDuplicate && im.tag != "" {
        if isMulti[im.tag] {
          if platformName in platformNames {
            return Err(SamePlatform(im.tag));
          }
          platformNames := platformNames + {platformName};
        } else {
          if im.tag in singleNames {
            return Err(SameDefaultPlatform(im.tag));
          }
          singleNames := singleNames + {im.tag};
        }
      }
      PlannedNext(images, naming, n, x, platformName);
      x := Extended(x, n, im, isMulti[im.tag], platformName);
    }
    return Ok(x);
  }

  /** The entries and tar images that one more image adds. */
  function Extended(x: Exports, n: nat, im: Image, multi: bool, platformName: string): Exports {
    var refID := |x.entries|;
    var entries := x.entries + [Entry(refID, im.tag, im.push)];
    if im.local && multi
    then Exports(entries + [Entry(refID + 1, platformName, false)], if im.registry then x.tars else x.tars + [n])
    else Exports(entries, x.tars)
  }

  lemma PlannedNext(images: seq<Image>, naming: Naming, n: nat, x: Exports, platformName: string)
    requires n < |images| && AllNamed(images, naming, n + 1) && Planned(images, naming, n, x)
    requires Multi(images, images[n].tag) ==> naming(images[n].tag, images[n].platform) == Some(platformName)
    ensures Planned(images, naming, n + 1, Extended(x, n, images[n], Multi(images, images[n].tag), platformName))
  {
  }

  // ----- Both passes -----

  predicate Accepted(images: seq<Image>, naming: Naming) {
    PairsOk(images) && AllNamed(images, naming, |images|) && NoClash(images, naming, |images|)
  }

  method Save(images: seq<Image>, naming: Naming) returns (r: Result<Exports>)
    ensures r.Ok? <==> Accepted(images, naming)
    ensures r.Ok? ==> Planned(images, naming, |images|, r.value)
    ensures r.Err? ==> !r.error.NoManifestListRepeated?
  {
    var first := FirstPass(images);
    if first.Err? {
      return Err(first.error);
    }
    if images == [] {
      return Ok(Exports([], []));
    }
    r := SecondPass(images, first.value, naming);
  }

  /** Images that share a tag all have a platform and none of them has --no-manifest-list. */
  predicate RepeatsListed(images: seq<Image>) {
    forall i, j :: 0 <= i < j < |images| && images[i].tag == images[j].tag ==> Listed(images[i]) && Listed(images[j])
  }

  /** No two images of multi-platform tags get the same platform-specific name. */
  predicate NamesDistinct(images: seq<Image>, naming: Naming)
    requires AllNamed(images, naming, |images|)
  {
    forall i, j :: 0 <= i < j < |images| && Multi(images, images[i].tag) && Multi(images, images[j].tag) ==>
      naming(images[i].tag, images[i].platform) != naming(images[j].tag, images[j].platform)
  }

  predicate Checked(images: seq<Image>) {
    forall i :: 0 <= i < |images| ==> images[i].checkDuplicate && images[i].tag != ""
  }

  /** With the duplicate check on, the two passes accept exactly these images. */
  lemma CheckedExactly(images: seq<Image>, naming: Naming)
    requires Checked(images)
    ensures Accepted(images, naming) <==>
      RepeatsListed(images) && AllNamed(images, naming, |images|) && NamesDistinct(images, naming)
  {
    if PairsOk(images) && AllNamed(images, naming, |images|) && NoClash(images, naming, |images|) {
      SinglesAlone(images, naming);
      ClaimsDistinct(images, naming);
    }
    if RepeatsListed(images) && AllNamed(images, naming, |images|) && NamesDistinct(images, naming) {
      SinglesUnrepeated(images);
      ClaimsDistinct(images, naming);
    }
  }

  lemma ClaimsDistinct(images: seq<Image>, naming: Naming)
    requires Checked(images) && AllNamed(images, naming, |images|)
    ensures NoClash(images, naming, |images|) ==> NamesDistinct(images, naming)
    ensures NamesDistinct(images, naming) && RepeatsListed(images) ==> NoClash(images, naming, |images|)
  {
    forall i | 0 <= i < |images|
      ensures Claimed(images, naming, i) != Nothing
      ensures Named(images, naming, i)
    {
    }
    if NoClash(images, naming, |images|) {
      forall i, j | 0 <= i < j < |images| && Multi(images, images[i].tag) && Multi(images, images[j].tag)
        ensures naming(images[i].tag, images[i].platform) != naming(images[j].tag, images[j].platform)
      {
        assert Claimed(images, naming, i) != Claimed(images, naming, j);
      }
    }
    if RepeatsListed(images) {
      SinglesUnrepeated(images);
    }
  }

  lemma SinglesAlone(images: seq<Image>, naming: Naming)
    requires Checked(images) && AllNamed(images, naming, |images|) && PairsOk(images) && NoClash(images, naming, |images|)
    ensures RepeatsListed(images)
  {
    forall i, j | 0 <= i < j < |images| && images[i].tag == images[j].tag
      ensures Listed(images[i]) && Listed(images[j])
    {
      assert Claimed(images, naming, i) != Claimed(images, naming, j);
    }
  }

  lemma SinglesUnrepeated(images: seq<Image>)
    requires RepeatsListed(images)
    ensures forall i, j :: 0 <= i < j < |images| && images[i].tag == images[j].tag ==> Multi(images, images[i].tag)
  {
    forall i, j | 0 <= i < j < |images| && images[i].tag == images[j].tag ensures Multi(images, images[i].tag) {
      forall k | 0 <= k < |images| && images[k].tag == images[i].tag ensures Listed(images[k]) {
        assert k < i || i < k || k == i;
      }
    }
  }

  /** Without the check, a last image with --no-manifest-list slips through although its tag is repeated. */
  lemma UncheckedRepeatAccepted(tag: string, p: string, q: string, naming: Naming)
    ensures var a := Image(tag, p, true, false, false, false, true, false);
            var b := Image(tag, q, true, true, false, false, true, false);
            Accepted([a, b], naming) && !RepeatsListed([a, b])
  {
    var a := Image(tag, p, true, false, false, false, true, false);
    var b := Image(tag, q, true, true, false, false, true, false);
    var images := [a, b];
    assert images[0].tag == images[1].tag == tag && !Listed(images[1]);
    assert !Multi(images, tag);
    assert forall i :: 0 <= i < 2 ==> images[i].tag == tag;
    assert AllNamed(images, naming, 2);
    assert forall i :: 0 <= i < 2 ==> Claimed(images, naming, i) == Nothing;
  }

  /** Of accepted images, repeated tags are listed throughout exactly if no later repeat has --no-manifest-list. */
  lemma AcceptedRepeats(images: seq<Image>, naming: Naming)
    requires Accepted(images, naming)
    ensures RepeatsListed(images) <==>
      forall i, j :: 0 <= i < j < |images| && images[i].tag == images[j].tag ==> !images[j].noManifestList
  {
    assert forall i, j :: 0 <= i < j < |images| ==> PairOk(images[i], images[j]);
  }

  /** With two images of one tag in a list, that the later has --no-manifest-list is noticed exactly if both are checked. */
  lemma RepeatNoticed(a: Image, b: Image, naming: Naming)
    requires a.tag == b.tag != "" && Listed(a) && b.hasPlatform && b.noManifestList
    ensures Accepted([a, b], naming) <==> !a.checkDuplicate || !b.checkDuplicate
  {
    var images := [a, b];
    assert images[1] == b && !Multi(images, a.tag);
    assert AllNamed(images, naming, 2);
    assert Claimed(images, naming, 0) == if a.checkDuplicate then Single(a.tag) else Nothing;
    assert Claimed(images, naming, 1) == if b.checkDuplicate then Single(a.tag) else Nothing;
  }
}
