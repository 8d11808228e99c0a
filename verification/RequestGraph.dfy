/** The graph of "target a asked for target b" facts behind the visited-target collections. */
module RequestGraph {

  type Id = nat

  type Edges = set<(Id, Id)>

  /** Every step of `p` is a recorded request. */
  ghost predicate Chain(e: Edges, p: seq<Id>) {
    forall i :: 0 <= i < |p| - 1 ==> (p[i], p[i + 1]) in e
  }

  ghost predicate ChainFrom(e: Edges, p: seq<Id>, a: Id, b: Id) {
    |p| >= 2 && p[0] == a && p[|p| - 1] == b && Chain(e, p)
  }

  /** `a` asked for `b`, directly or through other targets. */
  ghost predicate Requests(e: Edges, a: Id, b: Id) {
    exists p: seq<Id> :: ChainFrom(e, p, a, b)
  }

  /** `a` is `b` itself or one of its transitive requesters. */
  ghost predicate Upstream(e: Edges, a: Id, b: Id) {
    a == b || Requests(e, a, b)
  }

  lemma Extend(e: Edges, a: Id, b: Id, c: Id)
    requires Upstream(e, a, b) && (b, c) in e
    ensures Requests(e, a, c)
  {
    if a == b {
      assert ChainFrom(e, [a, c], a, c);
    } else {
      var p :| ChainFrom(e, p, a, b);
      assert ChainFrom(e, p + [c], a, c);
    }
  }

  lemma Monotone(e: Edges, e': Edges)
    requires e <= e'
    ensures forall a, b :: Requests(e, a, b) ==> Requests(e', a, b)
    ensures forall a, b :: Upstream(e, a, b) ==> Upstream(e', a, b)
  {
    forall a, b | Requests(e, a, b) ensures Requests(e', a, b) {
      var p :| ChainFrom(e, p, a, b);
      assert ChainFrom(e', p, a, b);
    }
  }
}
