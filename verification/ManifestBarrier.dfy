/** Loading the manifests of a WAIT block once the last of its tar images has been loaded. */
module ManifestBarrier {
  import opened Delimited

  type Key = string

  datatype Manifest = Manifest(imageName: string, platform: string)

  /** What the export coordinator knows about an image: its manifest and the tag it belongs to. */
  datatype Known = Known(manifest: Manifest, tag: string)

  type Coordinator = map<Key, Known>

  datatype Outcome = NotYet | Load(manifests: map<string, seq<Manifest>>) | Lost(key: Key)

  // ----- Manifests by tag -----

  function Grouped(known: Coordinator, keys: seq<Key>): map<string, seq<Manifest>>
    requires forall i :: 0 <= i < |keys| ==> keys[i] in known
  {
    if keys == [] then map[]
    else
      var rest, k := Grouped(known, keys[..|keys| - 1]), known[keys[|keys| - 1]];
      Appended(rest, k)
  }

  function Appended(m: map<string, seq<Manifest>>, k: Known): map<string, seq<Manifest>> {
    m[k.tag := (if k.tag in m then m[k.tag] else []) + [k.manifest]]
  }

  /** The manifests of the images with this tag, in their order. */
  function OfTag(known: Coordinator, keys: seq<Key>, tag: string): seq<Manifest>
    requires forall i :: 0 <= i < |keys| ==> keys[i] in known
  {
    if keys == [] then []
    else
      var k := known[keys[|keys| - 1]];
      OfTag(known, keys[..|keys| - 1], tag) + if k.tag == tag then [k.manifest] else []
  }

  /** Every tag of the images gets exactly the manifests of its own images. */
  lemma {:induction false} GroupedByTag(known: Coordinator, keys: seq<Key>, tag: string)
    requires forall i :: 0 <= i < |keys| ==> keys[i] in known
    ensures tag in Grouped(known, keys) <==> exists i :: 0 <= i < |keys| && known[keys[i]].tag == tag
    ensures OfTag(known, keys, tag) == if tag in Grouped(known, keys) then Grouped(known, keys)[tag] else []
  {
    if keys != [] {
      var n := |keys| - 1;
      GroupedByTag(known, keys[..n], tag);
      assert tag in Grouped(known, keys) <==> tag in Grouped(known, keys[..n]) || known[keys[n]].tag == tag;
      if i :| 0 <= i < n && known[keys[..n][i]].tag == tag {
        assert known[keys[i]].tag == tag;
      }
      if i :| 0 <= i < |keys| && known[keys[i]].tag == tag && i < n {
        assert known[keys[..n][i]].tag == tag;
      }
    }
  }

  // ----- One completion -----

  predicate Ready(exported: set<Key>, known: Coordinator, keys: seq<Key>) {
    forall i :: 0 <= i < |keys| ==> keys[i] in exported && keys[i] in known
  }

  lemma ReadyNext(exported: set<Key>, known: Coordinator, keys: seq<Key>, i: nat)
    requires i < |keys| && Ready(exported, known, keys[..i]) && keys[i] in exported && keys[i] in known
    ensures Ready(exported, known, keys[..i + 1])
    ensures Grouped(known, keys[..i + 1]) == Appended(Grouped(known, keys[..i]), known[keys[i]])
  {
    var more := keys[..i + 1];
    assert more[..i] == keys[..i];
    assert more[i] == keys[i];
    forall j | 0 <= j < i ensures more[j] in exported && more[j] in known {
      assert keys[..i][j] == more[j];
    }
  }

  class Barrier {
    const known: Coordinator
    var exported: set<Key>

    constructor (known: Coordinator)
      ensures this.known == known && exported == {}
    {
      this.known, exported := known, {};
    }

    /** Called when the tar image `key` has been loaded; `waitFor` lists the images of its block. */
    method OnImageDone(key: Key, waitFor: string) returns (r: Outcome)
      modifies this
      ensures exported == old(exported) + {key}
      ensures var keys := Split(waitFor, ' ');
              && (r.Load? <==> Ready(exported, known, keys))
              && (r.Load? ==> r.manifests == Grouped(known, keys))
              && (r.Lost? ==> r.key in keys && r.key in exported && r.key !in known)
              && (r.NotYet? ==> exists i :: 0 <= i < |keys| && keys[i] !in exported)
    {
      exported := exported + {key};
      var keys := Split(waitFor, ' ');
      var manifests: map<string, seq<Manifest>> := map[];
      for i := 0 to |keys|
        invariant exported == old(exported) + {key}
        invariant Ready(exported, known, keys[..i]) && manifests == Grouped(known, keys[..i])
      {
        if keys[i] !in exported {
          return NotYet;
        }
        if keys[i] !in known {
          return Lost(keys[i]);
        }
        ReadyNext(exported, known, keys, i);
        manifests := Appended(manifests, known[keys[i]]);
      }
      assert keys[..|keys|] == keys;
      return Load(manifests);
    }
  }

  // ----- Runs of completions -----

  /** The image `key` of the block with the images `block` has been loaded. */
  datatype Event = Event(key: Key, block: seq<Key>)

  ghost predicate Finished(events: seq<Event>, k: Key) {
    exists i :: 0 <= i < |events| && events[i].key == k
  }

  /** What a WAIT block hands out: no key with a space, and every key known to the coordinator. */
  predicate Handed(known: Coordinator, block: seq<Key>) {
    block != [] && forall i :: 0 <= i < |block| ==> ' ' !in block[i] && block[i] in known
  }

  /** Every image of the block of event `i` has been loaded when event `i` happens. */
  ghost predicate AllFinished(events: seq<Event>, i: nat)
    requires i < |events|
  {
    forall j :: 0 <= j < |events[i].block| ==> Finished(events[..i + 1], events[i].block[j])
  }

  ghost function Expected(known: Coordinator, events: seq<Event>, i: nat): Outcome
    requires i < |events| && Handed(known, events[i].block)
  {
    if AllFinished(events, i) then Load(Grouped(known, events[i].block)) else NotYet
  }

  /** Any order of completions, of any number of blocks: manifests are loaded when a block is complete. */
  method Complete(known: Coordinator, events: seq<Event>) returns (loads: seq<Outcome>)
    requires forall i :: 0 <= i < |events| ==> Handed(known, events[i].block)
    ensures |loads| == |events|
    ensures forall i :: 0 <= i < |events| ==> loads[i] == Expected(known, events, i)
  {
    var barrier := new Barrier(known);
    loads := [];
    for n := 0 to |events|
      invariant |loads| == n
      invariant Tracks(barrier.exported, events[..n])
      invariant forall i :: 0 <= i < n ==> loads[i] == Expected(known, events, i)
    {
      var e := events[n];
      SplitJoin(e.block, ' ');
      TracksNext(barrier.exported, events, n);
      var r := barrier.OnImageDone(e.key, Join(e.block, ' '));
      assert r == Expected(known, events, n) by {
        AsExpected(known, events, n, barrier.exported, r);
      }
      loads := loads + [r];
    }
  }

  lemma AsExpected(known: Coordinator, events: seq<Event>, n: nat, exported: set<Key>, r: Outcome)
    requires n < |events| && Handed(known, events[n].block)
    requires Tracks(exported, events[..n + 1])
    requires r.Load? <==> Ready(exported, known, events[n].block)
    requires r.Load? ==> r.manifests == Grouped(known, events[n].block)
    requires r.Lost? ==> r.key in events[n].block && r.key !in known
    ensures r == Expected(known, events, n)
  {
  }

  ghost predicate Tracks(exported: set<Key>, events: seq<Event>) {
    forall k :: k in exported <==> Finished(events, k)
  }

  lemma TracksNext(exported: set<Key>, events: seq<Event>, n: nat)
    requires n < |events| && Tracks(exported, events[..n])
    ensures Tracks(exported + {events[n].key}, events[..n + 1])
  {
    assert events[..n + 1][n] == events[n];
    assert forall i :: 0 <= i < n ==> events[..n + 1][i] == events[..n][i];
  }

  /** Every image finishes at most once, is of its event's block, and of no other block. */
  predicate Consistent(events: seq<Event>) {
    && (forall i :: 0 <= i < |events| ==> events[i].key in events[i].block)
    && (forall i, j :: 0 <= i < j < |events| ==> events[i].key != events[j].key)
    && (forall i, j :: 0 <= i < |events| && 0 <= j < |events| && events[j].key in events[i].block ==>
          events[j].block == events[i].block)
  }

  /** The last event of the block of event `b`, up to event `n`. */
  lemma {:induction false} LastEvent(events: seq<Event>, b: nat, n: nat) returns (last: nat)
    requires b <= n < |events|
    ensures last <= n && events[last].block == events[b].block
    ensures forall i :: last < i <= n ==> events[i].block != events[b].block
    decreases n
  {
    if events[n].block == events[b].block {
      last := n;
    } else {
      last := LastEvent(events, b, n - 1);
    }
  }

  ghost predicate BlockFinished(events: seq<Event>, block: seq<Key>) {
    forall m :: 0 <= m < |block| ==> Finished(events, block[m])
  }

  lemma OnlyTheLastLoads(events: seq<Event>, last: nat, i: nat)
    requires Consistent(events) && i <= last < |events| && events[last].block == events[i].block
    requires AllFinished(events, i)
    ensures i == last && BlockFinished(events, events[i].block)
  {
    var block := events[i].block;
    forall m | 0 <= m < |block| ensures Finished(events, block[m]) {
      var j :| 0 <= j < i + 1 && events[..i + 1][j].key == block[m];
      assert events[j].key == block[m];
    }
    var m :| 0 <= m < |block| && block[m] == events[last].key;
    var j :| 0 <= j < i + 1 && events[..i + 1][j].key == block[m];
    assert events[j].key == events[last].key;
  }

  lemma TheLastLoads(events: seq<Event>, last: nat)
    requires Consistent(events) && last < |events| && BlockFinished(events, events[last].block)
    requires forall i :: last < i < |events| ==> events[i].block != events[last].block
    ensures AllFinished(events, last)
  {
    var block := events[last].block;
    forall m | 0 <= m < |block| ensures Finished(events[..last + 1], block[m]) {
      assert Finished(events, block[m]);
      var j :| 0 <= j < |events| && events[j].key == block[m];
      assert events[j].block == block;
      assert events[..last + 1][j].key == block[m];
    }
  }

  /**
   A block's manifests are loaded by the last of its events if all its images finish, and by no other;
   if some image never finishes they are never loaded. Events of other blocks make no difference.
   */
  lemma LoadedOnceAtTheEnd(events: seq<Event>, b: nat) returns (last: nat)
    requires Consistent(events) && b < |events|
    ensures b <= last < |events| && events[last].block == events[b].block
    ensures forall i :: last < i < |events| ==> events[i].block != events[b].block
    ensures forall i :: 0 <= i < |events| && events[i].block == events[b].block ==>
              (AllFinished(events, i) <==> i == last && BlockFinished(events, events[b].block))
  {
    last := LastEvent(events, b, |events| - 1);
    forall i | 0 <= i < |events| && events[i].block == events[b].block
      ensures AllFinished(events, i) <==> i == last && BlockFinished(events, events[b].block)
    {
      if AllFinished(events, i) {
        OnlyTheLastLoads(events, last, i);
      }
      if i == last && BlockFinished(events, events[b].block) {
        TheLastLoads(events, last);
      }
    }
  }
}
