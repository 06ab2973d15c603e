/** What a batch of operations can change: the frame the incremental path relies on when it
    recomputes only the keys, claims, references and resolutions it has marked. */
module Affected {
  import opened Basics
  import opened Model
  import opened Findings
  import opened Records
  import opened State

  datatype Marks = Marks(
    keys: set<ClaimKey>, claims: set<Id>, refs: set<ConflictRef>, resolutions: set<Id>)

  const NO_MARKS := Marks({}, {}, {}, {})

  function Join(a: Marks, b: Marks): Marks {
    Marks(a.keys + b.keys, a.claims + b.claims, a.refs + b.refs, a.resolutions + b.resolutions)
  }

  /** The part of a state that findings, projections and folds are computed from. */
  datatype Base = Base(records: Records, inactive: set<Id>)

  /** A candidate contributes the same annotations under both sets of facts. */
  ghost predicate SameFacts(c: Claim, a: Facts, b: Facts) {
    SourceTypesOf(c, a) == SourceTypesOf(c, b) && (IsMultiHop(c, a) <==> IsMultiHop(c, b))
  }

  ghost predicate SameClaim(a: Base, b: Base, id: Id) {
    id in a.records.claims && id in b.records.claims && a.records.claims[id] == b.records.claims[id]
    && (id in a.inactive <==> id in b.inactive)
  }

  /** Claims on unmarked keys are the same claims, equally active, with the same provenance. */
  ghost predicate KeysCovered(a: Base, b: Base, keys: set<ClaimKey>) {
    forall id :: id in b.records.claims && b.records.claims[id].key !in keys ==>
                   SameClaim(a, b, id) && SameFacts(b.records.claims[id], FactsOf(a.records), FactsOf(b.records))
  }

  ghost predicate ClaimsCovered(a: Base, b: Base, ids: set<Id>) {
    forall id :: id in b.records.claims && id !in ids ==> SameClaim(a, b, id)
  }

  ghost predicate SameResolution(a: Records, b: Records, id: Id) {
    id in a.resolutions && id in b.resolutions && a.resolutions[id] == b.resolutions[id]
  }

  ghost predicate SameEvent(a: Records, b: Records, id: Id) {
    id in a.events && id in b.events && a.events[id] == b.events[id]
  }

  /** Resolutions and events of unmarked references were there before. */
  ghost predicate RefsCovered(a: Records, b: Records, refs: set<ConflictRef>) {
    && (forall id :: id in b.resolutions && b.resolutions[id].conflictRef !in refs ==> SameResolution(a, b, id))
    && (forall id :: id in b.events && b.events[id].conflictRef !in refs ==> SameEvent(a, b, id))
  }

  ghost predicate SameKnownClaims(r: Resolution, a: Records, b: Records) {
    forall c :: c in r.Classified() ==> (c in a.claims <==> c in b.claims)
  }

  /** Unmarked resolutions were there before, and no claim they classify has appeared since. */
  ghost predicate ResolutionsCovered(a: Records, b: Records, ids: set<Id>) {
    forall id :: id in b.resolutions && id !in ids ==>
                   SameResolution(a, b, id) && SameKnownClaims(b.resolutions[id], a, b)
  }

  /** Records are never lost or replaced, and a retracted claim stays retracted. */
  ghost predicate Grows(a: Base, b: Base) {
    && (forall id :: id in a.records.claims ==> id in b.records.claims && a.records.claims[id] == b.records.claims[id])
    && (forall id :: id in a.records.resolutions ==> SameResolution(a.records, b.records, id))
    && (forall id :: id in a.records.events ==> SameEvent(a.records, b.records, id))
    && a.inactive <= b.inactive
  }

  ghost predicate Covered(a: Base, b: Base, marks: Marks) {
    && Grows(a, b)
    && KeysCovered(a, b, marks.keys)
    && ClaimsCovered(a, b, marks.claims)
    && RefsCovered(a.records, b.records, marks.refs)
    && ResolutionsCovered(a.records, b.records, marks.resolutions)
  }

  lemma CoveredReflexive(a: Base)
    ensures Covered(a, a, NO_MARKS)
  {
  }

  lemma KeysCompose(a: Base, b: Base, c: Base, m: set<ClaimKey>, n: set<ClaimKey>)
    requires Grows(b, c) && KeysCovered(a, b, m) && KeysCovered(b, c, n)
    ensures KeysCovered(a, c, m + n)
  {
    forall id | id in c.records.claims && c.records.claims[id].key !in m + n
      ensures SameClaim(a, c, id) && SameFacts(c.records.claims[id], FactsOf(a.records), FactsOf(c.records))
    {
      assert SameClaim(b, c, id);
    }
  }

  lemma RefsCompose(a: Records, b: Records, c: Records, m: set<ConflictRef>, n: set<ConflictRef>)
    requires RefsCovered(a, b, m) && RefsCovered(b, c, n)
    ensures RefsCovered(a, c, m + n)
  {
    forall id | id in c.resolutions && c.resolutions[id].conflictRef !in m + n ensures SameResolution(a, c, id) {
      assert SameResolution(b, c, id);
    }
    forall id | id in c.events && c.events[id].conflictRef !in m + n ensures SameEvent(a, c, id) {
      assert SameEvent(b, c, id);
    }
  }

  lemma ResolutionsCompose(a: Records, b: Records, c: Records, m: set<Id>, n: set<Id>)
    requires ResolutionsCovered(a, b, m) && ResolutionsCovered(b, c, n)
    ensures ResolutionsCovered(a, c, m + n)
  {
    forall id | id in c.resolutions && id !in m + n
      ensures SameResolution(a, c, id) && SameKnownClaims(c.resolutions[id], a, c)
    {
      assert SameResolution(b, c, id);
      assert SameKnownClaims(c.resolutions[id], b, c) && SameKnownClaims(b.resolutions[id], a, b);
    }
  }

  lemma GrowsCompose(a: Base, b: Base, c: Base)
    requires Grows(a, b) && Grows(b, c)
    ensures Grows(a, c)
  {
    forall id | id in a.records.resolutions ensures SameResolution(a.records, c.records, id) {
      assert SameResolution(a.records, b.records, id);
    }
    forall id | id in a.records.events ensures SameEvent(a.records, c.records, id) {
      assert SameEvent(a.records, b.records, id);
    }
  }

  lemma ClaimsCompose(a: Base, b: Base, c: Base, m: set<Id>, n: set<Id>)
    requires ClaimsCovered(a, b, m) && ClaimsCovered(b, c, n)
    ensures ClaimsCovered(a, c, m + n)
  {
    forall id | id in c.records.claims && id !in m + n ensures SameClaim(a, c, id) {
      assert SameClaim(b, c, id);
    }
  }

  /** Two batches mark together what either of them marks. */
  lemma CoveredCompose(a: Base, b: Base, c: Base, m: Marks, n: Marks)
    requires Covered(a, b, m) && Covered(b, c, n)
    ensures Covered(a, c, Join(m, n))
  {
    hide Grows;
    hide KeysCovered;
    hide ClaimsCovered;
    hide RefsCovered;
    hide ResolutionsCovered;
    GrowsCompose(a, b, c);
    KeysCompose(a, b, c, m.keys, n.keys);
    ClaimsCompose(a, b, c, m.claims, n.claims);
    RefsCompose(a.records, b.records, c.records, m.refs, n.refs);
    ResolutionsCompose(a.records, b.records, c.records, m.resolutions, n.resolutions);
  }
}
