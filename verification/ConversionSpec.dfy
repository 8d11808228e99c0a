/**
 Converting a target and, on the way, the targets it asks for, one after the other.

 A recipe is a list of requests for other targets, mixed with changes to the hash of the target's own
 inputs. A run is a function of the recipes, so what it reports can be compared with their graph.
 */
module ConversionSpec {
  import opened Sets
  import opened UpfrontVisited

  datatype Step = Request(key: Key) | Rehash(hash: Key)

  type Recipes = map<Key, seq<Step>>

  /** `Blocked`: waiting for a target that only the waiting conversion itself could finish. */
  datatype Outcome = Converted | Cycle | Blocked | Unknown

  /** The known targets with their present input hashes, and those that are done. */
  datatype State = State(hash: map<Key, Key>, done: set<Key>)

  datatype Run = Run(outcome: Outcome, s: State)

  /** What is said of a target that is known already. */
  function Lookup(k: Key, stack: set<Key>, s: State): Outcome
    requires k in s.hash
  {
    if s.hash[k] in stack then Cycle
    else if k in s.done then Converted
    else Blocked
  }

  function Entered(s: State, k: Key): (s': State)
    ensures s'.hash.Keys == s.hash.Keys + {k} && s'.done == s.done
  {
    s.(hash := s.hash[k := k])
  }

  function Rehashed(s: State, k: Key, h: Key): State {
    s.(hash := s.hash[k := h])
  }

  function Finished(s: State, k: Key): State {
    s.(done := s.done + {k})
  }

  function Visit(g: Recipes, k: Key, stack: set<Key>, s: State): (r: Run)
    ensures s.hash.Keys <= r.s.hash.Keys && s.done <= r.s.done
    ensures r.outcome.Converted? ==> k in r.s.done
    decreases |g.Keys - s.hash.Keys|, 0
  {
    if k in s.hash then Run(Lookup(k, stack, s), s)
    else if k !in g then Run(Unknown, Entered(s, k))
    else
      FewerLeft(g.Keys, s.hash.Keys, k);
      var r := VisitSteps(g, k, g[k], stack + {k}, Entered(s, k));
      if r.outcome.Converted? then Run(Converted, Finished(r.s, k)) else r
  }

  function VisitSteps(g: Recipes, me: Key, steps: seq<Step>, stack: set<Key>, s: State): (r: Run)
    ensures s.hash.Keys <= r.s.hash.Keys && s.done <= r.s.done
    decreases |g.Keys - s.hash.Keys|, 1, |steps|
  {
    if steps == [] then Run(Converted, s)
    else
      match steps[0]
      case Rehash(h) =>
        var s1 := Rehashed(s, me, h);
        NotMoreLeft(g.Keys, s.hash.Keys, s1.hash.Keys);
        VisitSteps(g, me, steps[1..], stack, s1)
      case Request(k) =>
        var r := Visit(g, k, stack, s);
        if !r.outcome.Converted? then r
        else
          NotMoreLeft(g.Keys, s.hash.Keys, r.s.hash.Keys);
          VisitSteps(g, me, steps[1..], stack, r.s)
  }
}
