/** The predicate registry object: rules that may be registered at any time, and a revision that
    counts registrations. */
module Registries {
  import opened Model

  class PredicateRegistry {
    var current: Registry
    var revision: nat
    /** The rules at every revision so far. */
    ghost var past: seq<Registry>

    ghost predicate Valid() reads this {
      |past| == revision + 1 && past[revision] == current && past[0] == Registry(map[])
    }

    constructor ()
      ensures Valid() && current == Registry(map[]) && revision == 0
    {
      current, revision, past := Registry(map[]), 0, [Registry(map[])];
    }

    /** `register` */
    method Register(predicateName: Name, rule: Rule)
      requires Valid()
      modifies this
      ensures Valid() && revision == old(revision) + 1
      ensures current == Registry(old(current).rules[predicateName := rule])
      ensures past == old(past) + [current]
    {
      current := Registry(current.rules[predicateName := rule]);
      revision := revision + 1;
      past := past + [current];
    }
  }
}
