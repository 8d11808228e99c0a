/** The collection of visited targets that is keyed by the hash of a target's inputs. */
module UpfrontVisited {

  /** A hash of target inputs; only its identity matters. */
  type Key = int

  class Target {
    /** The hash of the inputs the target was requested with. */
    const key: Key
    /** The hash of its inputs as known now: declaring an ARG or a LET adds to them. */
    var hash: Key
    var done: bool

    constructor (key: Key)
      ensures this.key == key && hash == key && !done
    {
      this.key, hash, done := key, key, false;
    }
  }

  class Collection {
    var visited: map<Key, Target>
    var visitedList: seq<Target>

    /** Map and list hold the same targets, none of them twice, each under its own key. */
    ghost predicate Valid()
      reads this
    {
      && (forall k :: k in visited ==> visited[k].key == k && visited[k] in visitedList)
      && (forall t :: t in visitedList ==> t.key in visited && visited[t.key] == t)
      && (forall i, j :: 0 <= i < j < |visitedList| ==> visitedList[i] != visitedList[j])
    }

    constructor ()
      ensures Valid() && visited == map[] && visitedList == []
    {
      visited, visitedList := map[], [];
    }

    /** The part of an `Add` call under the lock; `candidate` was made before the lock was taken. */
    method Add(candidate: Target) returns (sts: Target, found: bool)
      requires Valid()
      modifies this
      ensures Valid()
      ensures found == (candidate.key in old(visited))
      ensures sts == if found then old(visited)[candidate.key] else candidate
      ensures visited == if found then old(visited) else old(visited)[candidate.key := candidate]
      ensures visitedList == if found then old(visitedList) else old(visitedList) + [candidate]
    {
      if candidate.key in visited {
        return visited[candidate.key], true;
      }
      visited := visited[candidate.key := candidate];
      visitedList := visitedList + [candidate];
      return candidate, false;
    }

    /** Every visited target once, in the order in which the targets were added. */
    method All() returns (r: seq<Target>)
      requires Valid()
      ensures r == visitedList
      ensures forall k :: k in visited ==> visited[k] in r
      ensures forall i, j :: 0 <= i < j < |r| ==> r[i].key != r[j].key
      ensures forall t :: t in r ==> t.key in visited && visited[t.key] == t
    {
      r := visitedList;
    }
  }

  /** The targets of the callers that were told that theirs is new. */
  function Accepted(candidates: seq<Target>, found: seq<bool>): seq<Target>
    requires |candidates| == |found|
  {
    if found == [] then []
    else
      var n := |found| - 1;
      Accepted(candidates[..n], found[..n]) + if found[n] then [] else [candidates[n]]
  }

  predicate Earlier(candidates: seq<Target>, i: nat, k: Key) {
    exists j :: 0 <= j < i && j < |candidates| && candidates[j].key == k
  }

  /** What the first callers got, and the map after them. */
  ghost predicate Served(candidates: seq<Target>, visited: map<Key, Target>, got: seq<Target>, found: seq<bool>) {
    && |got| == |found| <= |candidates|
    && (forall k :: k in visited ==> Earlier(candidates, |got|, k))
    && (forall i :: 0 <= i < |got| ==> candidates[i].key in visited && visited[candidates[i].key] == got[i])
    && (forall i :: 0 <= i < |got| ==> (found[i] <==> Earlier(candidates, i, candidates[i].key)))
    && (forall i :: 0 <= i < |got| && !found[i] ==> got[i] == candidates[i])
  }

  lemma ServedFound(candidates: seq<Target>, visited: map<Key, Target>, got: seq<Target>, found: seq<bool>)
    requires |got| < |candidates| && Served(candidates, visited, got, found)
    requires candidates[|got|].key in visited
    ensures Served(candidates, visited, got + [visited[candidates[|got|].key]], found + [true])
  {
    EarlierNext(candidates, |got|);
  }

  lemma ServedNew(candidates: seq<Target>, visited: map<Key, Target>, got: seq<Target>, found: seq<bool>)
    requires |got| < |candidates| && Served(candidates, visited, got, found)
    requires candidates[|got|].key !in visited
    ensures var c := candidates[|got|]; Served(candidates, visited[c.key := c], got + [c], found + [false])
  {
    EarlierNext(candidates, |got|);
  }

  lemma EarlierNext(candidates: seq<Target>, n: nat)
    requires n < |candidates|
    ensures forall k :: Earlier(candidates, n, k) ==> Earlier(candidates, n + 1, k)
    ensures Earlier(candidates, n + 1, candidates[n].key)
  {
    forall k | Earlier(candidates, n, k) ensures Earlier(candidates, n + 1, k) {
      var j :| 0 <= j < n && candidates[j].key == k;
    }
  }

  /**
   Any number of callers: `candidates` are the targets they made, in the order in which the
   callers got the lock. Per key the first caller gets its own target and the others share it.
   */
  method Serve(candidates: seq<Target>) returns (vc: Collection, got: seq<Target>, found: seq<bool>)
    ensures vc.Valid()
    ensures |got| == |found| == |candidates|
    ensures forall i :: 0 <= i < |candidates| ==> (found[i] <==> Earlier(candidates, i, candidates[i].key))
    ensures forall i :: 0 <= i < |candidates| && !found[i] ==> got[i] == candidates[i]
    ensures forall i, j :: 0 <= i < |candidates| && 0 <= j < |candidates| ==>
              (got[i] == got[j] <==> candidates[i].key == candidates[j].key)
    ensures vc.visitedList == Accepted(candidates, found)
  {
    vc := new Collection();
    got, found := [], [];
    for n := 0 to |candidates|
      invariant vc.Valid() && |got| == n
      invariant Served(candidates, vc.visited, got, found)
      invariant vc.visitedList == Accepted(candidates[..n], found)
    {
      if candidates[n].key in vc.visited {
        ServedFound(candidates, vc.visited, got, found);
      } else {
        ServedNew(candidates, vc.visited, got, found);
      }
      var sts, f := vc.Add(candidates[n]);
      AcceptedNext(candidates, n, found, f);
      got, found := got + [sts], found + [f];
    }
    assert candidates[..|candidates|] == candidates;
    ServedShare(candidates, vc.visited, got, found);
  }

  lemma AcceptedNext(candidates: seq<Target>, n: nat, found: seq<bool>, f: bool)
    requires |found| == n < |candidates|
    ensures Accepted(candidates[..n + 1], found + [f])
         == Accepted(candidates[..n], found) + if f then [] else [candidates[n]]
  {
    assert candidates[..n + 1][..n] == candidates[..n] && (found + [f])[..n] == found;
  }

  lemma ServedShare(candidates: seq<Target>, visited: map<Key, Target>, got: seq<Target>, found: seq<bool>)
    requires Served(candidates, visited, got, found) && |got| == |candidates|
    requires forall k :: k in visited ==> visited[k].key == k
    ensures forall i, j :: 0 <= i < |got| && 0 <= j < |got| ==>
              (got[i] == got[j] <==> candidates[i].key == candidates[j].key)
  {
  }

  /** Exactly one caller per key is told that the target is new. */
  lemma {:induction false} OneNewPerKey(candidates: seq<Target>, found: seq<bool>, n: nat) returns (first: nat)
    requires |found| == |candidates| && n < |candidates|
    requires forall i :: 0 <= i < |candidates| ==> (found[i] <==> Earlier(candidates, i, candidates[i].key))
    ensures first <= n && candidates[first].key == candidates[n].key && !found[first]
    ensures forall i :: 0 <= i < |candidates| && candidates[i].key == candidates[n].key && !found[i] ==> i == first
  {
    first := n;
    if found[n] {
      var j :| 0 <= j < n && candidates[j].key == candidates[n].key;
      first := OneNewPerKey(candidates, found, j);
    }
    assert forall i :: first < i < |candidates| && candidates[i].key == candidates[n].key ==>
             Earlier(candidates, i, candidates[i].key) by {
      assert 0 <= first && candidates[first].key == candidates[n].key;
    }
    assert forall i :: 0 <= i < first && candidates[i].key == candidates[n].key ==>
             Earlier(candidates, first, candidates[first].key);
  }
}
