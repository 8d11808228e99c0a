/**
 Exactly how a conversion ends, read off the recipes.

 A conversion is at any time at one place: a list of targets, each with the step it has come to. Whether such a
 place is ever reached, and what happens there, depends only on the recipes; a conversion ends as the first place
 says that stops it.
 */
module ConversionExact {
  import opened Sets
  import opened Options
  import opened UpfrontVisited
  import opened ConversionSpec
  import opened ConversionLaws

  /** A target and the number of its steps that have been taken. */
  datatype Frame = Frame(key: Key, pos: nat)

  type Place = seq<Frame>

  predicate Within(g: Recipes, f: Frame) {
    f.key in g && f.pos <= |g[f.key]|
  }

  /** The next step of the target is a request. */
  predicate Requests(g: Recipes, f: Frame) {
    f.key in g && f.pos < |g[f.key]| && g[f.key][f.pos].Request?
  }

  function Requested(g: Recipes, f: Frame): Key
    requires Requests(g, f)
  {
    g[f.key][f.pos].key
  }

  function Top(p: Place): Frame
    requires p != []
  {
    p[|p| - 1]
  }

  function Keys(p: Place): set<Key> {
    set i | 0 <= i < |p| :: p[i].key
  }

  /** A request that the target has made before leads to `k`. */
  ghost predicate LedTo(g: Recipes, f: Frame, k: Key) {
    exists j: nat :: j < f.pos && Requests(g, Frame(f.key, j)) && Reachable(g, Requested(g, Frame(f.key, j)), k)
  }

  /** Some request made on the way to this place leads to `k`; so `k` has been converted. */
  ghost predicate Before(g: Recipes, p: Place, k: Key) {
    exists i :: 0 <= i < |p| && LedTo(g, p[i], k)
  }

  /** Each target is asked for by the one before it and is neither being converted nor converted by then. */
  ghost predicate Tree(g: Recipes, root: Key, p: Place) {
    && p != [] && p[0].key == root
    && (forall i :: 0 <= i < |p| ==> Within(g, p[i]))
    && (forall i :: 0 < i < |p| ==> Enters(g, p[..i], p[i].key))
  }

  /** The top target asks for `k`, which is new. */
  ghost predicate Enters(g: Recipes, p: Place, k: Key) {
    p != [] && Requests(g, Top(p)) && Requested(g, Top(p)) == k && k in g && k !in Keys(p) && !Before(g, p, k)
  }

  // ----- Input hashes -----

  /** The hash of the inputs of `k` after these steps. */
  function LastHash(k: Key, steps: seq<Step>): Key {
    if steps == [] then k
    else if steps[|steps| - 1].Rehash? then steps[|steps| - 1].hash
    else LastHash(k, steps[..|steps| - 1])
  }

  function HashAt(g: Recipes, f: Frame): Key
    requires Within(g, f)
  {
    LastHash(f.key, g[f.key][..f.pos])
  }

  function FinalHash(g: Recipes, k: Key): Key
    requires k in g
  {
    LastHash(k, g[k])
  }

  // ----- Places that stop a conversion -----

  /** The target asked for is being converted, and the hash it has by now is on the stack. */
  predicate Recognised(g: Recipes, p: Place, k: Key) {
    exists i :: 0 <= i < |p| && p[i].key == k && Within(g, p[i]) && HashAt(g, p[i]) in Keys(p)
  }

  /** How the request at the top of a place ends the conversion, or None if the conversion goes on. */
  ghost function Verdict(g: Recipes, p: Place): Option<Outcome>
    requires p != [] && Requests(g, Top(p))
  {
    var k := Requested(g, Top(p));
    if k !in g then Some(Unknown)
    else if k in Keys(p) then Some(if Recognised(g, p, k) then Cycle else Blocked)
    else if Before(g, p, k) && FinalHash(g, k) in Keys(p) then Some(Cycle)
    else None
  }

  ghost predicate Stops(g: Recipes, root: Key, p: Place) {
    Tree(g, root, p) && Requests(g, Top(p)) && Verdict(g, p).Some?
  }

  /** `q` leaves `p` at an earlier step of the same target. */
  predicate Earlier(q: Place, p: Place, i: nat) {
    i < |q| && i < |p| && q[..i] == p[..i] && q[i].key == p[i].key && q[i].pos < p[i].pos
  }

  /** No stop comes before this place. */
  ghost predicate Clear(g: Recipes, root: Key, p: Place) {
    forall q: Place, i: nat :: Earlier(q, p, i) ==> !Stops(g, root, q)
  }

  ghost predicate FirstStop(g: Recipes, root: Key, p: Place, o: Outcome) {
    Stops(g, root, p) && Verdict(g, p) == Some(o) && Clear(g, root, p)
  }

  ghost predicate EndsWith(g: Recipes, root: Key, o: Outcome) {
    exists p :: FirstStop(g, root, p, o)
  }

  // ----- What the state is at a place -----

  ghost predicate Known(g: Recipes, p: Place, s: State) {
    && s.hash.Keys == Keys(p) + s.done && Keys(p) !! s.done
    && (forall k :: k in s.done <==> Before(g, p, k))
    && (forall k :: k in s.done ==> k in g && s.hash[k] == FinalHash(g, k))
    && (forall i :: 0 <= i < |p| ==> Within(g, p[i]) && s.hash[p[i].key] == HashAt(g, p[i]))
  }

  ghost predicate Reached(g: Recipes, root: Key, p: Place, s: State) {
    Tree(g, root, p) && Clear(g, root, p) && Known(g, p, s)
  }

  /** The place after the next step of the top target. */
  function Advance(p: Place): Place
    requires p != []
  {
    Moved(p, Top(p).pos + 1)
  }

  function Moved(p: Place, pos: nat): (q: Place)
    requires p != []
    ensures |q| == |p| && q[..|p| - 1] == p[..|p| - 1] && Top(q) == Frame(Top(p).key, pos)
    ensures forall i :: 0 <= i < |p| ==> q[i].key == p[i].key
    ensures forall i :: 0 <= i < |p| - 1 ==> q[i] == p[i]
  {
    p[..|p| - 1] + [Frame(Top(p).key, pos)]
  }

  lemma MovedKeys(p: Place, pos: nat)
    requires p != []
    ensures Keys(Moved(p, pos)) == Keys(p)
  {
    var q := Moved(p, pos);
    assert forall i :: 0 <= i < |p| ==> q[i].key == p[i].key;
  }

  lemma TreeMoved(g: Recipes, root: Key, p: Place, pos: nat)
    requires Tree(g, root, p) && pos <= |g[Top(p).key]|
    ensures Tree(g, root, Moved(p, pos))
  {
    var q := Moved(p, pos);
    forall i | 0 < i < |q| ensures Enters(g, q[..i], q[i].key) {
      assert Enters(g, p[..i], p[i].key);
      assert q[..i] == p[..i];
    }
  }

  lemma ReachStep(g: Recipes, k: Key, x: Key)
    requires k in g
    ensures Reachable(g, k, x) <==> x == k || LedTo(g, Frame(k, |g[k]|), x)
  {
    if x == k {
      assert PathTo(g, [k], k, k);
    }
    if LedTo(g, Frame(k, |g[k]|), x) {
      var j: nat :| j < |g[k]| && Requests(g, Frame(k, j)) && Reachable(g, Requested(g, Frame(k, j)), x);
      var y := Requested(g, Frame(k, j));
      var q: seq<Key> :| PathTo(g, q, y, x);
      assert Asks(g, k, y);
      assert PathTo(g, [k] + q, k, x);
    }
    if Reachable(g, k, x) && x != k {
      var q: seq<Key> :| PathTo(g, q, k, x);
      assert Asks(g, q[0], q[1]);
      var j :| 0 <= j < |g[k]| && g[k][j] == Request(q[1]);
      assert PathTo(g, q[1..], q[1], x);
      assert Requests(g, Frame(k, j));
    }
  }

  lemma ReachTrans(g: Recipes, a: Key, b: Key, c: Key)
    requires Reachable(g, a, b) && Reachable(g, b, c)
    ensures Reachable(g, a, c)
  {
    var p: seq<Key> :| PathTo(g, p, a, b);
    var q: seq<Key> :| PathTo(g, q, b, c);
    var r := p + q[1..];
    forall i | 0 <= i < |r| - 1 ensures Asks(g, r[i], r[i + 1]) {
      if i >= |p| - 1 {
        assert r[i] == q[i - |p| + 1] && r[i + 1] == q[i - |p| + 2];
      }
    }
    assert PathTo(g, r, a, c);
  }

  /** One more step: what the request leads to counts as converted from now on. */
  lemma LedToNext(g: Recipes, f: Frame, x: Key)
    requires Within(g, f) && f.pos < |g[f.key]|
    ensures LedTo(g, Frame(f.key, f.pos + 1), x) <==>
      LedTo(g, f, x) || (Requests(g, f) && Reachable(g, Requested(g, f), x))
  {
    var f' := Frame(f.key, f.pos + 1);
    if LedTo(g, f', x) {
      var j: nat :| j < f'.pos && Requests(g, Frame(f.key, j)) && Reachable(g, Requested(g, Frame(f.key, j)), x);
      assert j == f.pos ==> Frame(f.key, j) == f;
    }
    if Requests(g, f) && Reachable(g, Requested(g, f), x) {
      assert Frame(f'.key, f.pos) == f;
    }
    if LedTo(g, f, x) {
      var j: nat :| j < f.pos && Requests(g, Frame(f.key, j)) && Reachable(g, Requested(g, Frame(f.key, j)), x);
      assert Frame(f'.key, j) == Frame(f.key, j);
    }
  }

  lemma BeforeTop(g: Recipes, p: Place, x: Key)
    requires p != []
    ensures Before(g, p, x) <==> Before(g, p[..|p| - 1], x) || LedTo(g, Top(p), x)
  {
    var init := p[..|p| - 1];
    if i :| 0 <= i < |init| && LedTo(g, init[i], x) {
      assert LedTo(g, p[i], x);
    }
    if i :| 0 <= i < |p| && LedTo(g, p[i], x) {
      assert i < |init| ==> init[i] == p[i];
    }
  }

  lemma BeforeAdvance(g: Recipes, p: Place, x: Key)
    requires p != [] && Within(g, Top(p)) && Top(p).pos < |g[Top(p).key]|
    ensures Before(g, Advance(p), x) <==>
      Before(g, p, x) || (Requests(g, Top(p)) && Reachable(g, Requested(g, Top(p)), x))
  {
    BeforeTop(g, p, x);
    BeforeTop(g, Advance(p), x);
    LedToNext(g, Top(p), x);
  }

  lemma HashNext(g: Recipes, f: Frame)
    requires Within(g, f) && f.pos < |g[f.key]|
    ensures var step := g[f.key][f.pos];
            HashAt(g, Frame(f.key, f.pos + 1)) == if step.Rehash? then step.hash else HashAt(g, f)
  {
    assert g[f.key][..f.pos + 1][..f.pos] == g[f.key][..f.pos];
  }

  lemma HashAtEnd(g: Recipes, k: Key)
    requires k in g
    ensures HashAt(g, Frame(k, |g[k]|)) == FinalHash(g, k)
  {
    assert g[k][..|g[k]|] == g[k];
  }

  // ----- One step of the top target -----

  /** `q` is the place `p` or one above it. */
  predicate Above(q: Place, p: Place) {
    |p| <= |q| && q[..|p|] == p
  }

  lemma ClearAdvance(g: Recipes, root: Key, p: Place)
    requires p != [] && Clear(g, root, p) && forall q: Place :: Above(q, p) ==> !Stops(g, root, q)
    ensures Clear(g, root, Advance(p))
  {
    var p' := Advance(p);
    forall q: Place, i: nat | Earlier(q, p', i) ensures !Stops(g, root, q) {
      assert p'[..i] == p[..i] by {
        assert p'[..|p| - 1] == p[..|p| - 1];
        assert p'[..i] == p'[..|p| - 1][..i] && p[..i] == p[..|p| - 1][..i];
      }
      if i == |p| - 1 && q[i].pos == Top(p).pos {
        assert q[i] == Top(p);
        assert q[..|p|] == q[..i] + [q[i]] && p == p[..i] + [Top(p)];
        assert Above(q, p);
      } else {
        assert Earlier(q, p, i);
      }
    }
  }

  /** Whatever is above a place enters what the place asks for. */
  lemma AboveEnters(g: Recipes, root: Key, p: Place, q: Place)
    requires Tree(g, root, q) && Above(q, p) && p != [] && |p| < |q|
    ensures Enters(g, p, q[|p|].key)
  {
    assert Enters(g, q[..|p|], q[|p|].key);
  }

  lemma RehashStep(g: Recipes, root: Key, p: Place, s: State)
    requires Reached(g, root, p, s) && Top(p).pos < |g[Top(p).key]| && g[Top(p).key][Top(p).pos].Rehash?
    ensures Reached(g, root, Advance(p), Rehashed(s, Top(p).key, g[Top(p).key][Top(p).pos].hash))
  {
    forall q: Place | Above(q, p) ensures !Stops(g, root, q) {
      NoneAboveRehash(g, root, p, q);
    }
    ClearAdvance(g, root, p);
    TreeMoved(g, root, p, Top(p).pos + 1);
    KnownRehash(g, root, p, s);
  }

  lemma NoneAboveRehash(g: Recipes, root: Key, p: Place, q: Place)
    requires p != [] && Above(q, p) && !Requests(g, Top(p))
    ensures !Stops(g, root, q)
  {
    if |q| == |p| {
      assert q == p;
    } else {
      assert !Enters(g, q[..|p|], q[|p|].key);
    }
  }

  lemma KnownRehash(g: Recipes, root: Key, p: Place, s: State)
    requires Tree(g, root, p) && Known(g, p, s)
    requires Top(p).pos < |g[Top(p).key]| && g[Top(p).key][Top(p).pos].Rehash?
    ensures Known(g, Advance(p), Rehashed(s, Top(p).key, g[Top(p).key][Top(p).pos].hash))
  {
    var f, p' := Top(p), Advance(p);
    MovedKeys(p, f.pos + 1);
    HashNext(g, f);
    forall k ensures Before(g, p', k) <==> Before(g, p, k) {
      BeforeAdvance(g, p, k);
    }
    KeysDistinct(g, root, p);
    assert f.key in Keys(p);
    var s' := Rehashed(s, f.key, g[f.key][f.pos].hash);
    forall i | 0 <= i < |p'| ensures Within(g, p'[i]) && s'.hash[p'[i].key] == HashAt(g, p'[i]) {
      assert p[i].key in Keys(p);
      assert if i < |p| - 1 then p'[i] == p[i] else p'[i] == Frame(f.key, f.pos + 1);
    }
  }

  lemma KeysDistinct(g: Recipes, root: Key, p: Place)
    requires Tree(g, root, p)
    ensures forall i, j :: 0 <= i < j < |p| ==> p[i].key != p[j].key
  {
    forall i, j | 0 <= i < j < |p| ensures p[i].key != p[j].key {
      assert Enters(g, p[..j], p[j].key);
      assert p[..j][i].key in Keys(p[..j]);
    }
  }

  /** A request that the conversion gets through: afterwards what it leads to is converted. */
  lemma RequestStep(g: Recipes, root: Key, p: Place, s': State)
    requires Tree(g, root, p) && Clear(g, root, p) && Requests(g, Top(p))
    requires forall q: Place :: Above(q, p) ==> !Stops(g, root, q)
    requires KnownAfter(g, p, s')
    ensures Reached(g, root, Advance(p), s')
  {
    ClearAdvance(g, root, p);
    TreeMoved(g, root, p, Top(p).pos + 1);
    KnownAdvance(g, p, s');
  }

  lemma KnownAdvance(g: Recipes, p: Place, s: State)
    requires p != [] && Requests(g, Top(p)) && KnownAfter(g, p, s)
    ensures Known(g, Advance(p), s)
  {
    assert forall i :: 0 <= i < |p| ==> p[i].key in Keys(p);
    var p' := Advance(p);
    MovedKeys(p, Top(p).pos + 1);
    forall k ensures Before(g, p', k) <==> Before(g, p, k) || Reachable(g, Requested(g, Top(p)), k) {
      BeforeAdvance(g, p, k);
    }
    HashesAdvance(g, p, s.hash);
  }

  lemma HashesAdvance(g: Recipes, p: Place, hash: map<Key, Key>)
    requires p != [] && Requests(g, Top(p))
    requires forall i :: 0 <= i < |p| ==> p[i].key in hash && Within(g, p[i]) && hash[p[i].key] == HashAt(g, p[i])
    ensures var p' := Advance(p);
            forall i :: 0 <= i < |p'| ==> p'[i].key in hash && Within(g, p'[i]) && hash[p'[i].key] == HashAt(g, p'[i])
  {
    var p' := Advance(p);
    HashNext(g, Top(p));
    forall i | 0 <= i < |p'| ensures p'[i].key in hash && Within(g, p'[i]) && hash[p'[i].key] == HashAt(g, p'[i]) {
      assert if i < |p| - 1 then p'[i] == p[i] else p'[i] == Frame(Top(p).key, Top(p).pos + 1);
    }
  }

  /** As `Known`, with everything that the request at the top leads to. */
  ghost predicate KnownAfter(g: Recipes, p: Place, s: State)
    requires p != [] && Requests(g, Top(p))
  {
    && s.hash.Keys == Keys(p) + s.done && Keys(p) !! s.done
    && (forall k :: k in s.done <==> Before(g, p, k) || Reachable(g, Requested(g, Top(p)), k))
    && (forall k :: k in s.done ==> k in g && s.hash[k] == FinalHash(g, k))
    && (forall i :: 0 <= i < |p| ==> Within(g, p[i]) && s.hash[p[i].key] == HashAt(g, p[i]))
  }

  /** Asking again for a converted target leads to nothing new. */
  lemma AgainKnown(g: Recipes, p: Place, s: State)
    requires Known(g, p, s) && p != [] && Requests(g, Top(p)) && Requested(g, Top(p)) in s.done
    ensures KnownAfter(g, p, s)
  {
    var k := Requested(g, Top(p));
    forall x | Reachable(g, k, x) ensures Before(g, p, x) {
      var i :| 0 <= i < |p| && LedTo(g, p[i], k);
      var j: nat :| j < p[i].pos && Requests(g, Frame(p[i].key, j)) && Reachable(g, Requested(g, Frame(p[i].key, j)), k);
      ReachTrans(g, Requested(g, Frame(p[i].key, j)), k, x);
      assert LedTo(g, p[i], x);
    }
  }

  /** Entering the target that is asked for. */
  lemma EnterStep(g: Recipes, root: Key, p: Place, s: State)
    requires Reached(g, root, p, s) && Requests(g, Top(p))
    requires Requested(g, Top(p)) !in s.hash && Requested(g, Top(p)) in g
    ensures var k := Requested(g, Top(p));
            Enters(g, p, k) && Reached(g, root, p + [Frame(k, 0)], Entered(s, k))
            && Keys(p + [Frame(k, 0)]) == Keys(p) + {k}
  {
    var k := Requested(g, Top(p));
    assert Enters(g, p, k);
    KeysOfPush(p, Frame(k, 0));
    TreeEnter(g, root, p, k);
    ClearEnter(g, root, p, k);
    KnownEnter(g, p, k, s);
  }

  lemma TreeEnter(g: Recipes, root: Key, p: Place, k: Key)
    requires Tree(g, root, p) && Enters(g, p, k)
    ensures Tree(g, root, p + [Frame(k, 0)])
  {
    var p' := p + [Frame(k, 0)];
    forall i | 0 < i < |p'| ensures Enters(g, p'[..i], p'[i].key) {
      if i < |p| {
        assert Enters(g, p[..i], p[i].key) && p'[..i] == p[..i];
      } else {
        assert p'[..i] == p;
      }
    }
  }

  lemma ClearEnter(g: Recipes, root: Key, p: Place, k: Key)
    requires Clear(g, root, p)
    ensures Clear(g, root, p + [Frame(k, 0)])
  {
    var p' := p + [Frame(k, 0)];
    forall q: Place, i: nat | Earlier(q, p', i) ensures !Stops(g, root, q) {
      assert p'[..i] == p[..i];
      assert Earlier(q, p, i);
    }
  }

  lemma KnownEnter(g: Recipes, p: Place, k: Key, s: State)
    requires Known(g, p, s) && k in g && k !in s.hash
    ensures Known(g, p + [Frame(k, 0)], Entered(s, k))
  {
    var p' := p + [Frame(k, 0)];
    KeysOfPush(p, Frame(k, 0));
    forall x ensures Before(g, p', x) <==> Before(g, p, x) {
      BeforeTop(g, p', x);
      assert p'[..|p'| - 1] == p;
    }
    assert g[k][..0] == [];
    forall i | 0 <= i < |p'| ensures Within(g, p'[i]) && Entered(s, k).hash[p'[i].key] == HashAt(g, p'[i]) {
      if i < |p| {
        assert p'[i] == p[i] && p[i].key in Keys(p);
      }
    }
  }

  /** The target above `p` is through: no stop above `p`, and everything it leads to is converted. */
  lemma LeaveStep(g: Recipes, root: Key, p: Place, k: Key, s: State)
    requires Tree(g, root, p) && Clear(g, root, p) && Enters(g, p, k)
    requires Reached(g, root, p + [Frame(k, |g[k]|)], s)
    ensures Reached(g, root, Advance(p), Finished(s, k))
  {
    forall q: Place | Above(q, p) ensures !Stops(g, root, q) {
      NoneAbove(g, root, p, k, q);
    }
    LeaveKnown(g, p, k, s);
    RequestStep(g, root, p, Finished(s, k));
  }

  lemma NoneAbove(g: Recipes, root: Key, p: Place, k: Key, q: Place)
    requires Enters(g, p, k) && Clear(g, root, p + [Frame(k, |g[k]|)]) && Above(q, p)
    ensures !Stops(g, root, q)
  {
    var p' := p + [Frame(k, |g[k]|)];
    if |q| == |p| {
      assert q == p;
    } else if Tree(g, root, q) && Requests(g, Top(q)) {
      AboveEnters(g, root, p, q);
      RequestsAll(g, root, q, |p|);
      assert p'[..|p|] == p;
      assert Earlier(q, p', |p|);
    }
  }

  /** Every target of a place at a request is about to make a request. */
  lemma RequestsAll(g: Recipes, root: Key, q: Place, i: nat)
    requires Tree(g, root, q) && Requests(g, Top(q)) && i < |q|
    ensures Requests(g, q[i])
  {
    if i < |q| - 1 {
      assert Enters(g, q[..i + 1], q[i + 1].key);
      assert Top(q[..i + 1]) == q[i];
    }
  }

  lemma LeaveKnown(g: Recipes, p: Place, k: Key, s: State)
    requires Enters(g, p, k) && Known(g, p + [Frame(k, |g[k]|)], s)
    ensures KnownAfter(g, p, Finished(s, k))
  {
    var p' := p + [Frame(k, |g[k]|)];
    assert p'[..|p|] == p && Top(p') == Frame(k, |g[k]|);
    KeysOfPush(p, Frame(k, |g[k]|));
    HashAtEnd(g, k);
    assert p'[|p|] == Frame(k, |g[k]|);
    forall x ensures x in Finished(s, k).done <==> Before(g, p, x) || Reachable(g, k, x) {
      BeforeTop(g, p', x);
      ReachStep(g, k, x);
    }
    forall i | 0 <= i < |p| ensures Within(g, p[i]) && s.hash[p[i].key] == HashAt(g, p[i]) {
      assert p'[i] == p[i];
    }
  }

  lemma KeysOfPush(p: Place, f: Frame)
    ensures Keys(p + [f]) == Keys(p) + {f.key}
  {
    var p' := p + [f];
    assert p'[|p|] == f;
    forall x | x in Keys(p) ensures x in Keys(p') {
      var i :| 0 <= i < |p| && p[i].key == x;
      assert p'[i].key == x;
    }
  }

  // ----- The conversion from a place on -----

  /** Either the target is through with its steps, or the conversion ends at the first place that stops it. */
  ghost predicate StepsEnd(g: Recipes, root: Key, p: Place, r: Run)
    requires p != [] && Top(p).key in g
  {
    if r.outcome.Converted? then Reached(g, root, Moved(p, |g[Top(p).key]|), r.s) else EndsWith(g, root, r.outcome)
  }

  lemma {:induction false} StepsExact(g: Recipes, root: Key, p: Place, s: State)
    requires Reached(g, root, p, s)
    ensures StepsEnd(g, root, p, VisitSteps(g, Top(p).key, g[Top(p).key][Top(p).pos..], Keys(p), s))
    decreases |g.Keys - s.hash.Keys|, 1, |g[Top(p).key]| - Top(p).pos
  {
    var f := Top(p);
    var steps := g[f.key];
    if f.pos == |steps| {
      assert Moved(p, |steps|) == p;
    } else {
      assert steps[f.pos..][1..] == steps[f.pos + 1..];
      MovedKeys(p, f.pos + 1);
      assert Moved(Advance(p), |steps|) == Moved(p, |steps|);
      match steps[f.pos] {
        case Rehash(h) =>
          RehashStep(g, root, p, s);
          NotMoreLeft(g.Keys, s.hash.Keys, Rehashed(s, f.key, h).hash.Keys);
          StepsExact(g, root, Advance(p), Rehashed(s, f.key, h));
        case Request(k) =>
          RequestExact(g, root, p, s);
          var r := Visit(g, k, Keys(p), s);
          if r.outcome.Converted? {
            NotMoreLeft(g.Keys, s.hash.Keys, r.s.hash.Keys);
            StepsExact(g, root, Advance(p), r.s);
          }
      }
    }
  }

  lemma {:induction false} RequestExact(g: Recipes, root: Key, p: Place, s: State)
    requires Reached(g, root, p, s) && Requests(g, Top(p))
    ensures var r := Visit(g, Requested(g, Top(p)), Keys(p), s);
            if r.outcome.Converted? then Reached(g, root, Advance(p), r.s) else EndsWith(g, root, r.outcome)
    decreases |g.Keys - s.hash.Keys|, 0, 1
  {
    var k := Requested(g, Top(p));
    if k in s.hash {
      FoundExact(g, root, p, s);
    } else if k !in g {
      assert FirstStop(g, root, p, Unknown);
    } else {
      EnterExact(g, root, p, s);
    }
  }

  lemma {:induction false} EnterExact(g: Recipes, root: Key, p: Place, s: State)
    requires Reached(g, root, p, s) && Requests(g, Top(p))
    requires Requested(g, Top(p)) !in s.hash && Requested(g, Top(p)) in g
    ensures var r := Visit(g, Requested(g, Top(p)), Keys(p), s);
            if r.outcome.Converted? then Reached(g, root, Advance(p), r.s) else EndsWith(g, root, r.outcome)
    decreases |g.Keys - s.hash.Keys|, 0, 0
  {
    var k := Requested(g, Top(p));
    var p' := p + [Frame(k, 0)];
    EnterStep(g, root, p, s);
    FewerLeft(g.Keys, s.hash.Keys, k);
    StepsExact(g, root, p', Entered(s, k));
    assert g[k][0..] == g[k];
    var r := VisitSteps(g, k, g[k], Keys(p) + {k}, Entered(s, k));
    if r.outcome.Converted? {
      assert Moved(p', |g[k]|) == p + [Frame(k, |g[k]|)];
      LeaveStep(g, root, p, k, r.s);
    }
  }

  lemma FoundExact(g: Recipes, root: Key, p: Place, s: State)
    requires Reached(g, root, p, s) && Requests(g, Top(p)) && Requested(g, Top(p)) in s.hash
    ensures var r := Visit(g, Requested(g, Top(p)), Keys(p), s);
            if r.outcome.Converted? then Reached(g, root, Advance(p), r.s) else EndsWith(g, root, r.outcome)
  {
    var k := Requested(g, Top(p));
    var o := Lookup(k, Keys(p), s);
    if k in Keys(p) {
      var i :| 0 <= i < |p| && p[i].key == k;
      KeysDistinct(g, root, p);
      assert Recognised(g, p, k) <==> HashAt(g, p[i]) in Keys(p);
      assert FirstStop(g, root, p, o);
    } else if o.Cycle? {
      assert Verdict(g, p) == Some(Cycle);
      assert FirstStop(g, root, p, o);
    } else {
      AgainKnown(g, p, s);
      forall q: Place | Above(q, p) ensures !Stops(g, root, q) {
        if |q| == |p| {
          assert q == p;
        } else if Tree(g, root, q) {
          AboveEnters(g, root, p, q);
        }
      }
      RequestStep(g, root, p, s);
    }
  }

  // ----- Whole runs -----

  lemma RunExact(g: Recipes, root: Key)
    requires root in g
    ensures var r := RunOf(g, root);
            if r.outcome.Converted? then forall p :: !Stops(g, root, p) else EndsWith(g, root, r.outcome)
  {
    var p, s := [Frame(root, 0)], Entered(State(map[], {}), root);
    StartReached(g, root);
    FewerLeft(g.Keys, {}, root);
    StepsExact(g, root, p, s);
    StartUnfolds(g, root);
    var r := VisitSteps(g, root, g[root], {} + {root}, s);
    if r.outcome.Converted? {
      forall q ensures !Stops(g, root, q) {
        NoneAtAll(g, root, Moved(p, |g[root]|), q);
      }
    }
  }

  lemma StartReached(g: Recipes, root: Key)
    requires root in g
    ensures Reached(g, root, [Frame(root, 0)], Entered(State(map[], {}), root))
    ensures Keys([Frame(root, 0)]) == {} + {root} && g[root][0..] == g[root]
  {
    var none, p := State(map[], {}), [Frame(root, 0)];
    var empty: Place := [];
    assert Known(g, empty, none) && empty + p == p;
    KnownEnter(g, empty, root, none);
    assert p[0].key == root;
  }

  lemma StartUnfolds(g: Recipes, root: Key)
    requires root in g
    ensures var r := VisitSteps(g, root, g[root], {} + {root}, Entered(State(map[], {}), root));
            RunOf(g, root) == if r.outcome.Converted? then Run(Converted, Finished(r.s, root)) else r
  {
  }

  lemma NoneAtAll(g: Recipes, root: Key, end: Place, q: Place)
    requires root in g && end == [Frame(root, |g[root]|)] && Clear(g, root, end)
    ensures !Stops(g, root, q)
  {
    if Tree(g, root, q) && Requests(g, Top(q)) {
      RequestsAll(g, root, q, 0);
      assert Earlier(q, end, 0);
    }
  }

  /** A conversion succeeds exactly if no place stops it. */
  lemma ConvertedExactly(g: Recipes, root: Key)
    requires root in g
    ensures RunOf(g, root).outcome.Converted? <==> forall p :: !Stops(g, root, p)
  {
    RunExact(g, root);
  }

  /** It ends otherwise exactly as the first place says that stops it. */
  lemma OutcomeExactly(g: Recipes, root: Key, o: Outcome)
    requires root in g && !o.Converted?
    ensures RunOf(g, root).outcome == o <==> EndsWith(g, root, o)
  {
    RunExact(g, root);
    if EndsWith(g, root, o) {
      var p :| FirstStop(g, root, p, o);
      var o' := RunOf(g, root).outcome;
      assert !o'.Converted?;
      var q :| FirstStop(g, root, q, o');
      FirstStopUnique(g, root, p, q);
    }
  }

  /** There is one first stop at most. */
  lemma FirstStopUnique(g: Recipes, root: Key, p: Place, q: Place)
    requires Stops(g, root, p) && Clear(g, root, p) && Stops(g, root, q) && Clear(g, root, q)
    ensures p == q
  {
    if |p| <= |q| {
      SamePrefix(g, root, p, q, |p|);
      NothingAbove(g, root, p, q);
    } else {
      SamePrefix(g, root, p, q, |q|);
      NothingAbove(g, root, q, p);
    }
  }

  lemma NothingAbove(g: Recipes, root: Key, p: Place, q: Place)
    requires Stops(g, root, p) && Tree(g, root, q) && |p| <= |q| && q[..|p|] == p
    ensures p == q
  {
    if |p| < |q| {
      AboveEnters(g, root, p, q);
    }
  }

  lemma {:induction false} SamePrefix(g: Recipes, root: Key, p: Place, q: Place, n: nat)
    requires Stops(g, root, p) && Clear(g, root, p) && Stops(g, root, q) && Clear(g, root, q)
    requires n <= |p| && n <= |q|
    ensures p[..n] == q[..n]
  {
    if n > 0 {
      var i := n - 1;
      SamePrefix(g, root, p, q, i);
      SameFrame(g, root, p, q, i);
      assert p[..n] == p[..i] + [p[i]] && q[..n] == q[..i] + [q[i]];
    }
  }

  lemma SameFrame(g: Recipes, root: Key, p: Place, q: Place, i: nat)
    requires Stops(g, root, p) && Clear(g, root, p) && Stops(g, root, q) && Clear(g, root, q)
    requires i < |p| && i < |q| && p[..i] == q[..i]
    ensures p[i] == q[i]
  {
    if i > 0 {
      assert Enters(g, p[..i], p[i].key) && Enters(g, q[..i], q[i].key);
    }
    assert !Earlier(p, q, i) && !Earlier(q, p, i);
  }

  // ----- Cycles and finished targets -----

  function KeySeq(p: Place): (ks: seq<Key>)
    ensures |ks| == |p| && forall i :: 0 <= i < |p| ==> ks[i] == p[i].key
  {
    seq(|p|, i requires 0 <= i < |p| => p[i].key)
  }

  /** A place is a path of requests from the root, and so is the request at its top. */
  lemma TreePath(g: Recipes, root: Key, p: Place)
    requires Tree(g, root, p) && Requests(g, Top(p))
    ensures var k := Requested(g, Top(p));
            PathTo(g, KeySeq(p) + [k], root, k) && Reachable(g, root, k)
  {
    var k := Requested(g, Top(p));
    var ks := KeySeq(p) + [k];
    forall i | 0 <= i < |ks| - 1 ensures Asks(g, ks[i], ks[i + 1]) {
      RequestsAll(g, root, p, i);
      if i < |p| - 1 {
        assert Enters(g, p[..i + 1], p[i + 1].key);
        assert Top(p[..i + 1]) == p[i];
      }
    }
    assert PathTo(g, ks, root, k);
  }

  lemma ReturnLoops(g: Recipes, root: Key, p: Place)
    requires Tree(g, root, p) && Requests(g, Top(p)) && Requested(g, Top(p)) in Keys(p)
    ensures Loops(g, root)
  {
    TreePath(g, root, p);
    var ks := KeySeq(p) + [Requested(g, Top(p))];
    assert ks[..|ks| - 1] == KeySeq(p);
    var i :| 0 <= i < |p| && p[i].key == Requested(g, Top(p));
    assert KeySeq(p)[i] == Requested(g, Top(p));
    assert Returns(ks);
  }

  /** At this place a target is asked for again whose final hash is on the stack. */
  ghost predicate Mistaken(g: Recipes, root: Key, p: Place) {
    && Tree(g, root, p) && Requests(g, Top(p)) && Requested(g, Top(p)) in g && Requested(g, Top(p)) !in Keys(p)
    && Before(g, p, Requested(g, Top(p))) && FinalHash(g, Requested(g, Top(p))) in Keys(p)
  }

  /** Recipes without cycles and unknown targets are converted, unless a finished target is mistaken for a cycle. */
  lemma AcyclicExactly(g: Recipes, root: Key)
    requires !Loops(g, root) && Closed(g, root)
    ensures RunOf(g, root).outcome == if exists p :: Mistaken(g, root, p) then Cycle else Converted
  {
    assert PathTo(g, [root], root, root);
    assert Reachable(g, root, root);
    RunExact(g, root);
    forall p | Tree(g, root, p) && Requests(g, Top(p)) ensures Stops(g, root, p) <==> Mistaken(g, root, p) {
      TreePath(g, root, p);
      if Requested(g, Top(p)) in Keys(p) {
        ReturnLoops(g, root, p);
      }
    }
  }

  /** The wait for a found target blocks exactly if the first stop is a return to a target whose hash has changed. */
  lemma BlockedExactly(g: Recipes, root: Key)
    requires root in g
    ensures RunOf(g, root).outcome.Blocked? <==>
      exists p :: Tree(g, root, p) && Clear(g, root, p) && Hidden(g, p)
  {
    OutcomeExactly(g, root, Blocked);
    if EndsWith(g, root, Blocked) {
      var p :| FirstStop(g, root, p, Blocked);
      assert Hidden(g, p);
    }
    if p :| Tree(g, root, p) && Clear(g, root, p) && Hidden(g, p) {
      assert Verdict(g, p) == Some(Blocked);
      assert FirstStop(g, root, p, Blocked);
    }
  }

  /** The target asked for is being converted, but the hash it has by now is not on the stack. */
  predicate Hidden(g: Recipes, p: Place) {
    && p != [] && Requests(g, Top(p)) && Requested(g, Top(p)) in g
    && Requested(g, Top(p)) in Keys(p) && !Recognised(g, p, Requested(g, Top(p)))
  }

  // ----- Two simple sufficient conditions -----

  predicate Rehashes(g: Recipes, k: Key, h: Key) {
    k in g && Rehash(h) in g[k]
  }

  /** No target's input hash changes during its conversion. */
  ghost predicate Fixed(g: Recipes) {
    forall k, h :: Rehashes(g, k, h) ==> h == k
  }

  /** No target's input hash becomes that of another target. */
  ghost predicate Apart(g: Recipes) {
    forall k, h :: Rehashes(g, k, h) ==> h == k || h !in g
  }

  lemma {:induction false} LastHashFrom(k: Key, steps: seq<Step>)
    ensures LastHash(k, steps) == k || Rehash(LastHash(k, steps)) in steps
  {
    if steps != [] {
      LastHashFrom(k, steps[..|steps| - 1]);
    }
  }

  lemma ApartNeverMistaken(g: Recipes, root: Key, p: Place)
    requires Apart(g)
    ensures !Mistaken(g, root, p)
  {
    if Tree(g, root, p) && Requests(g, Top(p)) && Requested(g, Top(p)) in g {
      var k := Requested(g, Top(p));
      LastHashFrom(k, g[k]);
      assert FinalHash(g, k) == k || Rehashes(g, k, FinalHash(g, k));
    }
  }

  lemma FixedNeverHidden(g: Recipes, root: Key, p: Place)
    requires Fixed(g) && Tree(g, root, p)
    ensures !Hidden(g, p)
  {
    forall i | 0 <= i < |p| ensures HashAt(g, p[i]) in Keys(p) {
      var f := p[i];
      LastHashFrom(f.key, g[f.key][..f.pos]);
      assert HashAt(g, f) == f.key || Rehashes(g, f.key, HashAt(g, f));
    }
  }

  /** If no hash turns into another target's, success means exactly: no reachable cycle, no unknown target. */
  lemma ApartExactly(g: Recipes, root: Key)
    requires Apart(g)
    ensures RunOf(g, root).outcome.Converted? <==> !Loops(g, root) && Closed(g, root)
    ensures RunOf(g, root).outcome.Cycle? ==> Loops(g, root)
  {
    forall p ensures !Mistaken(g, root, p) {
      ApartNeverMistaken(g, root, p);
    }
    if RunOf(g, root).outcome.Converted? {
      var _ := ConvertedInOrder(g, root);
    } else if !Loops(g, root) && Closed(g, root) {
      AcyclicExactly(g, root);
    }
    if RunOf(g, root).outcome.Cycle? {
      RunExact(g, root);
      var p :| FirstStop(g, root, p, Cycle);
      ApartNeverMistaken(g, root, p);
      ReturnLoops(g, root, p);
    }
  }

  /** If hashes stay as they are, the wait for a found target never blocks. */
  lemma FixedNeverBlocks(g: Recipes, root: Key)
    requires Fixed(g)
    ensures !RunOf(g, root).outcome.Blocked?
    ensures Closed(g, root) ==> RunOf(g, root).outcome == if Loops(g, root) then Cycle else Converted
  {
    ApartExactly(g, root);
    if root in g {
      BlockedExactly(g, root);
      forall p | Tree(g, root, p) ensures !Hidden(g, p) {
        FixedNeverHidden(g, root, p);
      }
      if RunOf(g, root).outcome.Unknown? {
        RunExact(g, root);
        var p :| FirstStop(g, root, p, Unknown);
        TreePath(g, root, p);
      }
    } else {
      assert PathTo(g, [root], root, root);
      assert Reachable(g, root, root);
    }
  }
}
