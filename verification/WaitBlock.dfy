/** WAIT blocks: what they collect and when waiting for them does anything. */
module WaitBlock {
  import opened SaveImages

  /** A SAVE IMAGE command that a WAIT block may have to carry out. */
  class SaveImageItem {
    const si: Image
    const allowPush: bool
    var doPush: bool
    var localExport: bool

    constructor (si: Image, allowPush: bool, localExport: bool)
      ensures this.si == si && this.allowPush == allowPush && this.localExport == localExport && !doPush
    {
      this.si, this.allowPush, this.localExport, doPush := si, allowPush, localExport, false;
    }

    /** An image without a tag is neither pushed nor exported. */
    ghost predicate Valid()
      reads this
    {
      si.tag == "" ==> !doPush && !localExport
    }

    method SetDoSave()
      modifies this
      ensures doPush == old(doPush) && localExport == (old(localExport) || si.tag != "")
      ensures old(Valid()) ==> Valid()
    {
      if si.tag != "" {
        localExport := true;
      }
    }

    method SetDoPush()
      modifies this
      ensures localExport == old(localExport) && doPush == if si.tag == "" then old(doPush) else allowPush
      ensures old(Valid()) ==> Valid()
    {
      if si.tag != "" {
        doPush := allowPush;
      }
    }

    predicate Active()
      reads this
    {
      doPush || localExport
    }

    function Now(): Image
      reads this
    {
      si.(push := doPush, local := localExport)
    }
  }

  /** How the SAVE IMAGE command makes its item. */
  method NewSaveImage(si: Image, pushFlag: bool, doSaves: bool) returns (item: SaveImageItem)
    ensures fresh(item) && item.si == si && item.Valid()
    ensures !item.doPush && item.localExport == (doSaves && si.tag != "") && item.allowPush == (pushFlag && si.tag != "")
  {
    item := new SaveImageItem(si, pushFlag && si.tag != "", si.tag != "" && doSaves);
  }

  /** Items are compared by identity; `Other` stands for artifacts and states. */
  datatype Item = SaveImage(image: SaveImageItem) | Other(id: nat)

  function Images(items: seq<Item>): set<SaveImageItem> {
    set i | 0 <= i < |items| && items[i].SaveImage? :: items[i].image
  }

  /** The images to push or export, in the order of the items. */
  function ActiveImages(items: seq<Item>): seq<Image>
    reads Images(items)
  {
    if items == [] then []
    else
      var init, last := items[..|items| - 1], items[|items| - 1];
      assert Images(init) <= Images(items);
      ActiveImages(init) + if last.SaveImage? && last.image.Active() then [last.image.Now()] else []
  }

  /** `im` is an image that is to be pushed or exported, with just these two flags of its item. */
  predicate Saved(items: seq<Item>, im: Image)
    reads Images(items)
  {
    exists i :: 0 <= i < |items| && items[i].SaveImage? && items[i].image in Images(items)
      && (items[i].image.doPush || items[i].image.localExport)
      && im == items[i].image.si.(push := items[i].image.doPush, local := items[i].image.localExport)
  }

  lemma {:induction false} ActiveExactly(items: seq<Item>, im: Image)
    ensures im in ActiveImages(items) <==> Saved(items, im)
  {
    if items != [] {
      var init, last := items[..|items| - 1], items[|items| - 1];
      ActiveExactly(init, im);
      assert Images(init) <= Images(items);
      assert last.SaveImage? ==> last.image in Images(items);
      if Saved(init, im) {
        var i :| 0 <= i < |init| && init[i].SaveImage? && init[i].image in Images(init)
          && (init[i].image.doPush || init[i].image.localExport)
          && im == init[i].image.si.(push := init[i].image.doPush, local := init[i].image.localExport);
        assert items[i] == init[i];
      }
      if Saved(items, im) {
        var i :| 0 <= i < |items| && items[i].SaveImage? && items[i].image in Images(items)
          && (items[i].image.doPush || items[i].image.localExport)
          && im == items[i].image.si.(push := items[i].image.doPush, local := items[i].image.localExport);
        assert i < |init| ==> init[i] == items[i] && init[i].image in Images(init);
      }
    }
  }

  lemma {:induction false} ActiveConcat(a: seq<Item>, b: seq<Item>)
    ensures ActiveImages(a + b) == ActiveImages(a) + ActiveImages(b)
    decreases |b|
  {
    if b == [] {
      assert a + b == a;
    } else {
      assert (a + b)[..|a + b| - 1] == a + b[..|b| - 1];
      ActiveConcat(a, b[..|b| - 1]);
    }
  }

  class Block {
    var items: seq<Item>
    var seenItems: set<Item>
    var called: bool
    var pushCalled: bool
    var localExportCalled: bool

    ghost predicate Valid()
      reads this
    {
      && (forall i :: 0 <= i < |items| ==> items[i] in seenItems)
      && (forall x :: x in seenItems ==> x in items)
      && (forall i, j :: 0 <= i < j < |items| ==> items[i] != items[j])
    }

    constructor ()
      ensures Valid() && items == [] && !called && !pushCalled && !localExportCalled
    {
      items, seenItems := [], {};
      called, pushCalled, localExportCalled := false, false, false;
    }

    method AddItem(item: Item)
      requires Valid()
      modifies this`items, this`seenItems
      ensures Valid()
      ensures items == if item in old(items) then old(items) else old(items) + [item]
    {
      if item in seenItems {
        return;
      }
      seenItems := seenItems + {item};
      items := items + [item];
    }

    /** `work`: images are saved and states built; `exports`: artifacts are written to the host as well. */
    method Wait(push: bool, localExport: bool) returns (work: bool, exports: bool)
      modifies this`called, this`pushCalled, this`localExportCalled
      ensures called && pushCalled == (old(pushCalled) || push)
      ensures localExportCalled == (old(localExportCalled) || localExport)
      ensures work <==> !old(called) || (push && !old(pushCalled)) || (localExport && !old(localExportCalled))
      ensures exports <==> work && localExport
    {
      var shortCircuit := called;
      called := true;
      if push && !pushCalled {
        shortCircuit := false;
        pushCalled := true;
      }
      if localExport && !localExportCalled {
        shortCircuit := false;
        localExportCalled := true;
      }
      work := !shortCircuit;
      exports := work && localExport;
    }

    method SetDoSaves()
      requires Valid()
      modifies Images(items)
      ensures forall x :: x in Images(items) ==>
                x.doPush == old(x.doPush) && x.localExport == (old(x.localExport) || x.si.tag != "")
    {
      for n := 0 to |items|
        invariant Valid()
        invariant forall i :: 0 <= i < |items| && items[i].SaveImage? ==>
                    var x := items[i].image;
                    && x.doPush == old(x.doPush)
                    && x.localExport == (old(x.localExport) || (i < n && x.si.tag != ""))
      {
        assert forall i :: 0 <= i < |items| && i != n ==> items[i] != items[n];
        if items[n].SaveImage? {
          items[n].image.SetDoSave();
        }
      }
    }

    method SaveAll(naming: Naming) returns (r: Result<Exports>)
      ensures var images := old(ActiveImages(items));
              && (r.Ok? <==> Accepted(images, naming)) && (r.Ok? ==> Planned(images, naming, |images|, r.value))
              && forall im :: im in images <==> old(Saved(items, im))
    {
      forall im ensures im in ActiveImages(items) <==> Saved(items, im) {
        ActiveExactly(items, im);
      }
      var images := [];
      for n := 0 to |items|
        invariant images == ActiveImages(items[..n])
      {
        assert items[..n + 1][..n] == items[..n];
        if items[n].SaveImage? && items[n].image.Active() {
          images := images + [items[n].image.Now()];
        }
      }
      assert items[..|items|] == items;
      assert images == old(ActiveImages(items));
      r := Save(images, naming);
    }
  }

  /** Only tagged images are saved, whatever was switched on. */
  lemma {:induction false} ActiveImagesTagged(items: seq<Item>)
    requires forall x :: x in Images(items) ==> x.Valid()
    ensures forall i :: 0 <= i < |ActiveImages(items)| ==> ActiveImages(items)[i].tag != ""
    ensures forall i :: 0 <= i < |ActiveImages(items)| ==> ActiveImages(items)[i].push || ActiveImages(items)[i].local
  {
    if items != [] {
      var init := items[..|items| - 1];
      assert Images(init) <= Images(items);
      ActiveImagesTagged(init);
      assert items[|items| - 1].SaveImage? ==> items[|items| - 1].image in Images(items);
    }
  }

  /** With the duplicate check on, what a block saves is accepted exactly if these three hold. */
  lemma SavedExactly(items: seq<Item>, naming: Naming)
    requires forall x :: x in Images(items) ==> x.Valid()
    requires forall i :: 0 <= i < |ActiveImages(items)| ==> ActiveImages(items)[i].checkDuplicate
    ensures var images := ActiveImages(items);
            Accepted(images, naming) <==>
            RepeatsListed(images) && AllNamed(images, naming, |images|) && NamesDistinct(images, naming)
  {
    ActiveImagesTagged(items);
    CheckedExactly(ActiveImages(items), naming);
  }

  // ----- Any sequence of calls -----

  datatype Call = Add(item: Item) | Wait(push: bool, local: bool)

  predicate Waited(calls: seq<Call>) {
    exists i :: 0 <= i < |calls| && calls[i].Wait?
  }

  predicate Pushed(calls: seq<Call>) {
    exists i :: 0 <= i < |calls| && calls[i].Wait? && calls[i].push
  }

  predicate Exported(calls: seq<Call>) {
    exists i :: 0 <= i < |calls| && calls[i].Wait? && calls[i].local
  }

  /** Call `i` is the first to wait, the first to wait for pushes, or the first to wait for local exports. */
  predicate Works(calls: seq<Call>, i: nat)
    requires i < |calls|
  {
    && calls[i].Wait?
    && (!Waited(calls[..i]) || (calls[i].push && !Pushed(calls[..i])) || (calls[i].local && !Exported(calls[..i])))
  }

  /** The added items in the order of their first insertion. */
  function Inserted(calls: seq<Call>): seq<Item> {
    if calls == [] then []
    else
      var init, last := Inserted(calls[..|calls| - 1]), calls[|calls| - 1];
      if last.Add? && last.item !in init then init + [last.item] else init
  }

  function Working(calls: seq<Call>, n: nat): nat
    requires n <= |calls|
  {
    if n == 0 then 0 else Working(calls, n - 1) + if Works(calls, n - 1) then 1 else 0
  }

  function Exporting(calls: seq<Call>, n: nat): nat
    requires n <= |calls|
  {
    if n == 0 then 0 else Exporting(calls, n - 1) + if Works(calls, n - 1) && calls[n - 1].local then 1 else 0
  }

  function One(b: bool): nat {
    if b then 1 else 0
  }

  lemma HistoryNext(calls: seq<Call>, n: nat)
    requires n < |calls|
    ensures Waited(calls[..n + 1]) <==> Waited(calls[..n]) || calls[n].Wait?
    ensures Pushed(calls[..n + 1]) <==> Pushed(calls[..n]) || (calls[n].Wait? && calls[n].push)
    ensures Exported(calls[..n + 1]) <==> Exported(calls[..n]) || (calls[n].Wait? && calls[n].local)
  {
    var more := calls[..n + 1];
    assert more[n] == calls[n];
    assert forall i :: 0 <= i < n ==> more[i] == calls[..n][i];
  }

  /** At most three waits do anything and at most two export; the first of each kind always does. */
  lemma {:induction false} WaitsBounded(calls: seq<Call>, n: nat)
    requires n <= |calls|
    ensures Working(calls, n) <= One(Waited(calls[..n])) + One(Pushed(calls[..n])) + One(Exported(calls[..n])) <= 3
    ensures Exporting(calls, n) <= One(Pushed(calls[..n])) + One(Exported(calls[..n])) <= 2
    ensures Waited(calls[..n]) ==> Working(calls, n) >= 1
    ensures Exported(calls[..n]) ==> Exporting(calls, n) >= 1
  {
    if n > 0 {
      WaitsBounded(calls, n - 1);
      HistoryNext(calls, n - 1);
      assert Pushed(calls[..n - 1]) || Exported(calls[..n - 1]) ==> Waited(calls[..n - 1]);
    }
  }

  /** What a block does on any sequence of calls. */
  method Drive(calls: seq<Call>) returns (b: Block, worked: nat, exported: nat)
    ensures b.Valid() && b.items == Inserted(calls)
    ensures worked == Working(calls, |calls|) <= 3
    ensures exported == Exporting(calls, |calls|) <= 2
  {
    b := new Block();
    worked, exported := 0, 0;
    for n := 0 to |calls|
      invariant b.Valid() && b.items == Inserted(calls[..n])
      invariant b.called == Waited(calls[..n]) && b.pushCalled == Pushed(calls[..n])
      invariant b.localExportCalled == Exported(calls[..n])
      invariant worked == Working(calls, n) && exported == Exporting(calls, n)
    {
      HistoryNext(calls, n);
      assert calls[..n + 1][..n] == calls[..n];
      match calls[n]
      case Add(item) => b.AddItem(item);
      case Wait(push, local) =>
        var w, x := b.Wait(push, local);
        worked := worked + if w then 1 else 0;
        exported := exported + if x then 1 else 0;
    }
    assert calls[..|calls|] == calls;
    WaitsBounded(calls, |calls|);
  }

  /** Both bounds are reached. */
  lemma BoundsReached()
    ensures Working([Wait(false, false), Wait(true, false), Wait(false, true)], 3) == 3
    ensures Exporting([Wait(false, true), Wait(true, true)], 2) == 2
  {
    var a := [Wait(false, false), Wait(true, false), Wait(false, true)];
    HistoryNext(a, 0);
    HistoryNext(a, 1);
    assert Works(a, 0) && Works(a, 1) && Works(a, 2);
    assert Working(a, 0) == 0 && Working(a, 1) == 1 && Working(a, 2) == 2;
    var c := [Wait(false, true), Wait(true, true)];
    HistoryNext(c, 0);
    assert Works(c, 0) && Works(c, 1);
    assert Exporting(c, 0) == 0 && Exporting(c, 1) == 1;
  }
}
