/** Provenance labels after a merge: when compacting a log first loses some, and when it does not. */
module Labels {
  import opened Basics
  import opened Model
  import opened ConflictIndex
  import opened Findings
  import opened Records
  import opened State
  import opened Tables
  import opened Affected
  import opened Offmarks
  import opened Compaction
  import opened Equivalence
  import opened Reopening

  // ---------------------------------------------------------------- labels and lost evidence

  /** The source types one claim reaches through given evidence. */
  function TypesOfVia(c: Claim, facts: Facts, among: set<Id>): set<Name> {
    set e | e in c.evidenceIds && e in among && HasSource(facts, e) :: SourceTypeOf(facts, e)
  }

  /** The source types the candidates reach through given evidence. */
  function TypesVia(cs: seq<Claim>, facts: Facts, among: set<Id>): set<Name> {
    if cs == [] then {} else TypesVia(cs[..|cs| - 1], facts, among) + TypesOfVia(cs[|cs| - 1], facts, among)
  }

  /** One set of facts is another without some evidence. */
  ghost predicate Poorer(a: Facts, b: Facts) {
    && a.sources == b.sources && a.derivations == b.derivations
    && forall e :: e in a.evidence ==> e in b.evidence && a.evidence[e] == b.evidence[e]
  }

  ghost function Lost(a: Facts, b: Facts): set<Id> { b.evidence.Keys - a.evidence.Keys }

  lemma TypesSplit(c: Claim, a: Facts, b: Facts)
    requires Poorer(a, b)
    ensures SourceTypesOf(c, b) == SourceTypesOf(c, a) + TypesOfVia(c, b, Lost(a, b))
  {
    forall e ensures HasSource(b, e) <==> HasSource(a, e) || (e in Lost(a, b) && HasSource(b, e)) {}
    forall e | HasSource(a, e) ensures SourceTypeOf(a, e) == SourceTypeOf(b, e) {}
    forall n ensures n in SourceTypesOf(c, b) <==> n in SourceTypesOf(c, a) + TypesOfVia(c, b, Lost(a, b)) {
      if n in SourceTypesOf(c, b) {
        var e :| e in c.evidenceIds && HasSource(b, e) && SourceTypeOf(b, e) == n;
        assert HasSource(a, e) || e in Lost(a, b);
      }
    }
  }

  lemma {:induction false} LabelsSplit(cs: seq<Claim>, a: Facts, b: Facts)
    requires Poorer(a, b)
    ensures SourceTypes(cs, b) == SourceTypes(cs, a) + TypesVia(cs, b, Lost(a, b))
  {
    if cs != [] {
      LabelsSplit(cs[..|cs| - 1], a, b);
      TypesSplit(cs[|cs| - 1], a, b);
    }
  }

  /** The finding of a key is the same under both exactly when lost evidence reached no source type
      that what is left does not reach. */
  lemma FindingLabelsAgree(key: ClaimKey, claims: map<Id, Claim>, a: Facts, b: Facts, registry: Registry)
    requires Poorer(a, b)
    ensures var f, g := FindingOf(key, claims, a, registry), FindingOf(key, claims, b, registry);
            (f.Some? <==> g.Some?)
            && (g.Some? ==> (f == g <==> TypesVia(g.value.candidates, b, Lost(a, b)) <= SourceTypes(g.value.candidates, a)))
  {
    FindingLabels(key, claims, a, b, registry);
    FindingProvenance(key, claims, a, registry);
    FindingProvenance(key, claims, b, registry);
    var f, g := FindingOf(key, claims, a, registry), FindingOf(key, claims, b, registry);
    hide FindingOf;
    if g.Some? {
      LabelsSplit(g.value.candidates, a, b);
      assert f.value.candidates == Unlabelled(f.value).candidates == g.value.candidates;
      SameLabelled(f.value, g.value);
    }
  }

  lemma SameLabelled(c: ConflictSet, d: ConflictSet)
    requires Unlabelled(c) == Unlabelled(d)
    ensures c == d <==> c.annotations.provenance == d.annotations.provenance
  {
    assert c == Unlabelled(c).(annotations := Unlabelled(c).annotations.(provenance := c.annotations.provenance));
    assert d == Unlabelled(d).(annotations := Unlabelled(d).annotations.(provenance := d.annotations.provenance));
  }

  lemma FindingProvenance(key: ClaimKey, claims: map<Id, Claim>, facts: Facts, registry: Registry)
    ensures var f := FindingOf(key, claims, facts, registry);
            f.Some? ==> f.value.annotations.provenance == SourceTypes(f.value.candidates, facts)
  {
    hide PairSet;
    hide SourceTypes;
    hide DistinctValues;
    hide WitnessList;
  }

  // ---------------------------------------------------------------- after a merge

  lemma MergedPoorer(log: set<Op>, more: set<Op>, registry: Registry)
    requires CollisionFree(log + more)
    ensures Thinned(Compacted(log, registry) + more, log + more, registry)
    ensures Poorer(FactsOf(RecordsOf(Compacted(log, registry) + more)), FactsOf(RecordsOf(log + more)))
  {
    var small, large := Compacted(log, registry) + more, log + more;
    CollisionFreeSubset(log, large);
    CompactedIsThinned(log, registry);
    ThinnedMerge(Compacted(log, registry), log, more, registry);
    RecordsKept(small, large, registry);
    hide Compacted;
    CollisionFreeSubset(small, large);
    forall e | e in RecordsOf(small).evidence
      ensures e in RecordsOf(large).evidence && RecordsOf(small).evidence[e] == RecordsOf(large).evidence[e]
    {
      ByIdEntry(EvidenceIn(small), EvidenceId, e);
      assert EvidenceIn(small) <= EvidenceIn(large);
      ByIdEntry(EvidenceIn(large), EvidenceId, e);
    }
  }

  /** Evidence of the merged log that is missing where the first log was compacted before: dropped by
      the compaction and not added again. */
  ghost function LostEvidence(log: set<Op>, more: set<Op>, registry: Registry): set<Id> {
    Lost(FactsOf(RecordsOf(Compacted(log, registry) + more)), FactsOf(RecordsOf(log + more)))
  }

  /** After merging the same operations into the compacted log and into the original, the finding of a
      key has the same labels if and only if every source type its candidates reach through lost
      evidence they also reach through evidence that is left. */
  lemma MergedLabelsAgree(log: set<Op>, more: set<Op>, registry: Registry, w: Window, key: ClaimKey)
    requires CollisionFree(log + more)
    ensures var small, large := Compacted(log, registry) + more, log + more;
            var f := FindingAt(StateOf(small, registry, w).activity.byKey, key, FactsOf(RecordsOf(small)), registry);
            var g := FindingAt(StateOf(large, registry, w).activity.byKey, key, FactsOf(RecordsOf(large)), registry);
            (f.Some? <==> g.Some?)
            && (g.Some? ==> (f == g <==>
                  TypesVia(g.value.candidates, FactsOf(RecordsOf(large)), LostEvidence(log, more, registry))
                  <= SourceTypes(g.value.candidates, FactsOf(RecordsOf(small)))))
  {
    var small, large := Compacted(log, registry) + more, log + more;
    MergedPoorer(log, more, registry);
    ActiveClaimsKept(small, large, registry, w);
    hide StateOf;
    hide RecordsOf;
    hide CollisionFree;
    hide Thinned;
    hide Compacted;
    hide FindingOf;
    hide Poorer;
    FindingLabelsAgree(key, ByClaimId(ClaimsAt(StateOf(large, registry, w).activity.byKey, key)), FactsOf(RecordsOf(small)),
                       FactsOf(RecordsOf(large)), registry);
  }

  // ---------------------------------------------------------------- when nothing lost is cited

  /** What is merged cites no evidence of the first log that compacting it drops. */
  ghost predicate CitesOnlyKept(log: set<Op>, more: set<Op>, registry: Registry) {
    forall c, e :: c in ClaimsIn(more) && e in c.evidenceIds && e in RecordsOf(log).evidence ==>
      e in RecordsOf(Compacted(log, registry)).evidence
  }

  lemma EvidenceFiled(ops: set<Op>, x: Evidence)
    requires CollisionFree(ops)
    ensures x in EvidenceIn(ops) <==> x.id in RecordsOf(ops).evidence && RecordsOf(ops).evidence[x.id] == x
  {
    ByIdEntry(EvidenceIn(ops), EvidenceId, x.id);
  }

  lemma MergedEvidence(a: set<Op>, more: set<Op>)
    ensures EvidenceIn(a + more) == EvidenceIn(a) + EvidenceIn(more)
  {
  }

  /** Evidence an active claim of the merged log cites is there whether or not the log was compacted. */
  lemma CitedKept(log: set<Op>, more: set<Op>, registry: Registry, c: Claim, e: Id)
    requires CollisionFree(log + more) && CitesOnlyKept(log, more, registry)
    requires c in ClaimsIn(log + more) && IsLive(log + more, registry, c.id) && e in c.evidenceIds
    ensures e in RecordsOf(log + more).evidence ==> e in RecordsOf(Compacted(log, registry) + more).evidence
  {
    var small, large, kept := Compacted(log, registry) + more, log + more, Compacted(log, registry);
    CollisionFreeSubset(log, large);
    CollisionFreeSubset(kept, log);
    CollisionFreeSubset(small, large);
    MergedKinds(log, more);
    MergedEvidence(log, more);
    MergedEvidence(kept, more);
    if c in ClaimsIn(log) {
      LiveEarlier(log, more, registry, c);
      ClaimEntry(log, c.id);
      ByIdEntry(ClaimsIn(log), ClaimId, c.id);
      EvidenceKept(log, registry, c.id, e);
    }
    if e in RecordsOf(large).evidence {
      var x := RecordsOf(large).evidence[e];
      ByIdEntry(EvidenceIn(large), EvidenceId, e);
      EvidenceFiled(log, x);
      CitedRecord(log, more, registry, x);
    }
  }

  lemma CitedRecord(log: set<Op>, more: set<Op>, registry: Registry, x: Evidence)
    requires CollisionFree(log + more) && x in EvidenceIn(log + more)
    requires x.id in RecordsOf(log).evidence ==> x.id in RecordsOf(Compacted(log, registry)).evidence
    ensures x.id in RecordsOf(Compacted(log, registry) + more).evidence
  {
    var small, kept := Compacted(log, registry) + more, Compacted(log, registry);
    CollisionFreeSubset(log, log + more);
    CollisionFreeSubset(kept, log);
    CollisionFreeSubset(small, log + more);
    MergedEvidence(log, more);
    MergedEvidence(kept, more);
    EvidenceFiled(log, x);
    if x in EvidenceIn(log) {
      var y := RecordsOf(kept).evidence[x.id];
      EvidenceFiled(kept, y);
      ByIdEntry(EvidenceIn(kept), EvidenceId, x.id);
      EvidenceFiled(small, y);
    } else {
      EvidenceFiled(small, x);
    }
  }

  lemma ListedFacts(log: set<Op>, more: set<Op>, registry: Registry, w: Window, key: ClaimKey, c: Claim)
    requires CollisionFree(log + more) && CitesOnlyKept(log, more, registry)
    requires c in ClaimsAt(StateOf(log + more, registry, w).activity.byKey, key)
    ensures c.key == key
    ensures SameFacts(c, FactsOf(RecordsOf(Compacted(log, registry) + more)), FactsOf(RecordsOf(log + more)))
  {
    var large := log + more;
    var claims, inactive := RecordsOf(large).claims, InactiveIds(RecordsOf(large).claims, RetractionsIn(large), registry);
    RecordsWellFiled(large);
    ActivityOfState(large, registry, w);
    ListedClaim(claims, inactive, w, key, c);
    ClaimEntry(large, c.id);
    MergedPoorer(log, more, registry);
    assert IsLive(large, registry, c.id);
    var a, b := FactsOf(RecordsOf(Compacted(log, registry) + more)), FactsOf(RecordsOf(large));
    ByIdEntry(ClaimsIn(large), ClaimId, c.id);
    hide StateOf;
    hide RecordsOf;
    hide CollisionFree;
    hide Compacted;
    hide Thinned;
    hide IsLive;
    hide CitesOnlyKept;
    hide InactiveIds;
    forall e | e in c.evidenceIds ensures (e in a.evidence <==> e in b.evidence) && (e in a.evidence ==> a.evidence[e] == b.evidence[e]) {
      CitedKept(log, more, registry, c, e);
    }
    SameSources(c, a, b);
  }

  lemma ListFrame(listed: seq<Claim>, key: ClaimKey, a: Facts, b: Facts, registry: Registry)
    requires StrictlySorted(listed, ClaimRank) && forall c :: c in listed ==> c.key == key && SameFacts(c, a, b)
    ensures FindingOf(key, ByClaimId(listed), a, registry) == FindingOf(key, ByClaimId(listed), b, registry)
  {
    ByClaimIdProperties(listed);
    hide SameFacts;
    hide FindingOf;
    FindingFrame(key, ByClaimId(listed), a, b, registry);
  }

  lemma MergedFinding(log: set<Op>, more: set<Op>, registry: Registry, w: Window, key: ClaimKey)
    requires CollisionFree(log + more) && CitesOnlyKept(log, more, registry)
    ensures var byKey := StateOf(log + more, registry, w).activity.byKey;
            FindingAt(byKey, key, FactsOf(RecordsOf(Compacted(log, registry) + more)), registry)
            == FindingAt(byKey, key, FactsOf(RecordsOf(log + more)), registry)
  {
    var listed := ClaimsAt(StateOf(log + more, registry, w).activity.byKey, key);
    StateLists(log + more, registry, w);
    hide StateOf;
    hide RecordsOf;
    hide CollisionFree;
    hide Compacted;
    hide CitesOnlyKept;
    hide SameFacts;
    hide FindingOf;
    var a, b := FactsOf(RecordsOf(Compacted(log, registry) + more)), FactsOf(RecordsOf(log + more));
    forall c | c in listed ensures c.key == key && SameFacts(c, a, b) {
      ListedFacts(log, more, registry, w, key, c);
    }
    ListFrame(listed, key, a, b, registry);
  }

  /** When what is merged cites no evidence that compacting dropped, the findings are the same with
      their labels, at every instant and in every context. */
  lemma MergedFindingsEqual(log: set<Op>, more: set<Op>, registry: Registry, w: Window)
    requires CollisionFree(log + more) && CitesOnlyKept(log, more, registry)
    ensures StateOf(Compacted(log, registry) + more, registry, w).findings == StateOf(log + more, registry, w).findings
  {
    var small, large := Compacted(log, registry) + more, log + more;
    MergedPoorer(log, more, registry);
    ActiveClaimsKept(small, large, registry, w);
    StateFields(small, registry, w);
    StateFields(large, registry, w);
    hide StateOf;
    hide RecordsOf;
    hide CollisionFree;
    hide Compacted;
    hide Thinned;
    hide CitesOnlyKept;
    hide FindingAt;
    hide TablesOf;
    hide FindingSet;
    var byKey := StateOf(large, registry, w).activity.byKey;
    forall key ensures FindingAt(byKey, key, FactsOf(RecordsOf(small)), registry) == FindingAt(byKey, key, FactsOf(RecordsOf(large)), registry) {
      MergedFinding(log, more, registry, w, key);
    }
    SameFindingSet(byKey, FactsOf(RecordsOf(small)), FactsOf(RecordsOf(large)), registry);
  }

  // ---------------------------------------------------------------- a merge that loses a label

  /** A source, evidence from it, a claim citing it, and the claim's retraction. */
  function Withdrawn(src: Source, e: Evidence, x: Claim, n: int): set<Op> {
    {SourceAdded(Id(n), 0, "", src), EvidenceAdded(Id(n + 1), 0, "", e), ClaimAdded(Id(n + 2), 0, "", x), Withdrawal(x, n)}
  }

  function Withdrawal(x: Claim, n: int): Op { ClaimRetracted(Id(n + 3), 0, "", Some(x.id), None, None, None, [], Null) }

  function TwoClaims(p: Claim, q: Claim, n: int): set<Op> { {ClaimAdded(Id(n + 4), 0, "", p), ClaimAdded(Id(n + 5), 0, "", q)} }

  lemma WithdrawnKinds(src: Source, e: Evidence, x: Claim, n: int)
    ensures var log := Withdrawn(src, e, x, n);
            SourcesIn(log) == {src} && EvidenceIn(log) == {e} && ClaimsIn(log) == {x} && RetractionsIn(log) == {Withdrawal(x, n)}
            && DecisionsIn(log) == {} && DerivationsIn(log) == {} && ResolutionsIn(log) == {} && EventsIn(log) == {} && UniqueOps(log)
  {
    var log := Withdrawn(src, e, x, n);
    assert SourceAdded(Id(n), 0, "", src) in log && EvidenceAdded(Id(n + 1), 0, "", e) in log && ClaimAdded(Id(n + 2), 0, "", x) in log;
  }

  lemma TwoKinds(p: Claim, q: Claim, n: int)
    ensures var more := TwoClaims(p, q, n);
            SourcesIn(more) == {} && EvidenceIn(more) == {} && ClaimsIn(more) == {p, q} && RetractionsIn(more) == {}
            && DecisionsIn(more) == {} && DerivationsIn(more) == {} && ResolutionsIn(more) == {} && EventsIn(more) == {}
  {
    assert ClaimAdded(Id(n + 4), 0, "", p) in TwoClaims(p, q, n) && ClaimAdded(Id(n + 5), 0, "", q) in TwoClaims(p, q, n);
  }

  lemma AllKinds(a: set<Op>, b: set<Op>)
    ensures SourcesIn(a + b) == SourcesIn(a) + SourcesIn(b) && EvidenceIn(a + b) == EvidenceIn(a) + EvidenceIn(b)
    ensures ClaimsIn(a + b) == ClaimsIn(a) + ClaimsIn(b) && DecisionsIn(a + b) == DecisionsIn(a) + DecisionsIn(b)
    ensures DerivationsIn(a + b) == DerivationsIn(a) + DerivationsIn(b) && ResolutionsIn(a + b) == ResolutionsIn(a) + ResolutionsIn(b)
    ensures EventsIn(a + b) == EventsIn(a) + EventsIn(b) && RetractionsIn(a + b) == RetractionsIn(a) + RetractionsIn(b)
  {
  }

  lemma WithdrawnCollisionFree(src: Source, e: Evidence, x: Claim, p: Claim, q: Claim, n: int)
    requires x.id != p.id && x.id != q.id && p.id != q.id
    ensures CollisionFree(Withdrawn(src, e, x, n) + TwoClaims(p, q, n)) && UniqueOps(Withdrawn(src, e, x, n) + TwoClaims(p, q, n))
  {
    WithdrawnKinds(src, e, x, n);
    TwoKinds(p, q, n);
    AllKinds(Withdrawn(src, e, x, n), TwoClaims(p, q, n));
    hide SourcesIn;
    hide EvidenceIn;
    hide ClaimsIn;
    hide DecisionsIn;
    hide DerivationsIn;
    hide ResolutionsIn;
    hide EventsIn;
    hide RetractionsIn;
  }

  /** The evidence of a retracted claim is needed no longer. */
  lemma WithdrawnEvidenceDropped(src: Source, e: Evidence, x: Claim, n: int, registry: Registry)
    ensures EvidenceIn(Compacted(Withdrawn(src, e, x, n), registry)) == {}
  {
    var log := Withdrawn(src, e, x, n);
    WithdrawnKinds(src, e, x, n);
    assert Injective(ClaimsIn(log), ClaimId);
    forall id ensures !IsLive(log, registry, id) {
      ByIdEntry(ClaimsIn(log), ClaimId, id);
      assert (x.id, Withdrawal(x, n)) in TargetPairs(RetractionsIn(log));
      assert (x.id, Withdrawal(x, n)).0 in Firsts(TargetPairs(RetractionsIn(log)));
    }
    hide IsLive;
    forall id ensures id !in RecordsOf(log).resolutions {
      assert Injective(ResolutionsIn(log), ResolutionId);
      ByIdEntry(ResolutionsIn(log), ResolutionId, id);
    }
    hide RecordsOf;
    forall op | op in log && op.EvidenceAdded? ensures !Keeps(log, registry, op) {
      assert forall r :: r in log && NamesTarget(r) ==> r == Withdrawal(x, n);
    }
  }

  lemma StillActive(log: set<Op>, registry: Registry, c: Claim, gone: Id)
    requires CollisionFree(log) && c in ClaimsIn(log) && c.id != gone
    requires forall op :: op in RetractionsIn(log) ==> op.target == Some(gone) && op.targetRef.None?
    ensures c in ClaimsAt(StateOf(log, registry, UNSCOPED).activity.byKey, c.key)
  {
    var claims, inactive := RecordsOf(log).claims, InactiveIds(RecordsOf(log).claims, RetractionsIn(log), registry);
    RecordsWellFiled(log);
    ActivityOfState(log, registry, UNSCOPED);
    ByIdEntry(ClaimsIn(log), ClaimId, c.id);
    OnlyGone(claims, RetractionsIn(log), registry, gone);
    ListedClaim(claims, inactive, UNSCOPED, c.key, c);
    hide StateOf;
    hide InactiveIds;
    hide ById;
  }

  lemma OnlyGone(claims: map<Id, Claim>, rs: set<Op>, registry: Registry, gone: Id)
    requires forall op :: op in rs && op.ClaimRetracted? ==> op.target == Some(gone) && op.targetRef.None?
    ensures InactiveIds(claims, rs, registry) <= {gone}
  {
    assert TargetRefPairs(rs) == {};
    assert Firsts(TargetRefPairs(rs)) == {};
    forall id | id in Firsts(TargetPairs(rs)) ensures id == gone {
      var p :| p in TargetPairs(rs) && p.0 == id;
    }
  }

  lemma {:induction false} TypesIncluded(cs: seq<Claim>, facts: Facts, c: Claim)
    requires c in cs
    ensures SourceTypesOf(c, facts) <= SourceTypes(cs, facts)
  {
    if c != cs[|cs| - 1] {
      assert cs == cs[..|cs| - 1] + [cs[|cs| - 1]];
      TypesIncluded(cs[..|cs| - 1], facts, c);
    }
  }

  lemma {:induction false} TypesBounded(cs: seq<Claim>, facts: Facts, names: set<Name>)
    requires forall e :: HasSource(facts, e) ==> SourceTypeOf(facts, e) in names
    ensures SourceTypes(cs, facts) <= names
  {
    if cs != [] {
      TypesBounded(cs[..|cs| - 1], facts, names);
    }
  }

  /** The only source of the log, reached through its only evidence. */
  lemma OneSource(log: set<Op>, src: Source, e: Evidence)
    requires CollisionFree(log) && SourcesIn(log) == {src} && EvidenceIn(log) == {e} && e.sourceId == Some(src.id)
    ensures var facts := FactsOf(RecordsOf(log));
            HasSource(facts, e.id) && SourceTypeOf(facts, e.id) == src.sourceType
            && forall i :: HasSource(facts, i) ==> SourceTypeOf(facts, i) == src.sourceType
  {
    ByIdEntry(SourcesIn(log), SourceId, src.id);
    forall i ensures i in RecordsOf(log).evidence ==> RecordsOf(log).evidence[i] == e { ByIdEntry(EvidenceIn(log), EvidenceId, i); }
    ByIdEntry(EvidenceIn(log), EvidenceId, e.id);
  }

  lemma NoEvidence(log: set<Op>)
    requires CollisionFree(log) && EvidenceIn(log) == {}
    ensures forall i :: !HasSource(FactsOf(RecordsOf(log)), i)
  {
    forall i ensures i !in RecordsOf(log).evidence { ByIdEntry(EvidenceIn(log), EvidenceId, i); }
  }

  lemma LabelOf(key: ClaimKey, listed: seq<Claim>, facts: Facts, registry: Registry, p: Claim, q: Claim, names: set<Name>)
    requires StrictlySorted(listed, ClaimRank) && p in listed && q in listed && Incompatible(p, q, registry)
    requires forall i :: HasSource(facts, i) ==> SourceTypeOf(facts, i) in names
    ensures var f := FindingOf(key, ByClaimId(listed), facts, registry);
            f.Some? && SourceTypesOf(p, facts) <= f.value.annotations.provenance <= names
  {
    PairIsCandidate(key, listed, facts, registry, p, q);
    FindingProvenance(key, ByClaimId(listed), facts, registry);
    hide FindingOf;
    hide Incompatible;
    hide ByClaimId;
    var cs := FindingOf(key, ByClaimId(listed), facts, registry).value.candidates;
    TypesIncluded(cs, facts, p);
    TypesBounded(cs, facts, names);
  }

  lemma OneKey(p: Claim, q: Claim, registry: Registry)
    requires Incompatible(p, q, registry)
    ensures p.key == q.key && p.id != q.id
  {
  }

  ghost function FindingIn(log: set<Op>, registry: Registry, key: ClaimKey): Option<ConflictSet> {
    FindingAt(StateOf(log, registry, UNSCOPED).activity.byKey, key, FactsOf(RecordsOf(log)), registry)
  }

  /** A log and the same log without its only evidence, which one of two incompatible claims cites. */
  lemma LosesLabel(small: set<Op>, large: set<Op>, src: Source, e: Evidence, gone: Id, p: Claim, q: Claim, registry: Registry)
    requires Thinned(small, large, registry) && CollisionFree(small) && CollisionFree(large)
    requires SourcesIn(large) == {src} && EvidenceIn(large) == {e} && e.sourceId == Some(src.id) && EvidenceIn(small) == {}
    requires p in ClaimsIn(large) && q in ClaimsIn(large) && p.id != gone && q.id != gone
    requires forall op :: op in RetractionsIn(large) ==> op.target == Some(gone) && op.targetRef.None?
    requires Incompatible(p, q, registry) && e.id in p.evidenceIds
    ensures var f, g := FindingIn(small, registry, p.key), FindingIn(large, registry, p.key);
            f.Some? && g.Some? && f.value.annotations.provenance == {} && g.value.annotations.provenance == {src.sourceType}
  {
    hide StateOf;
    hide RecordsOf;
    hide Incompatible;
    hide FindingOf;
    hide Thinned;
    hide CollisionFree;
    hide SourcesIn;
    hide EvidenceIn;
    hide ClaimsIn;
    hide RetractionsIn;
    hide SourceTypeOf;
    hide HasSource;
    OneKey(p, q, registry);
    StillActive(large, registry, p, gone);
    StillActive(large, registry, q, gone);
    StateLists(large, registry, UNSCOPED);
    ActiveClaimsKept(small, large, registry, UNSCOPED);
    OneSource(large, src, e);
    NoEvidence(small);
    var listed := ClaimsAt(StateOf(large, registry, UNSCOPED).activity.byKey, p.key);
    LabelOf(p.key, listed, FactsOf(RecordsOf(large)), registry, p, q, {src.sourceType});
    LabelOf(p.key, listed, FactsOf(RecordsOf(small)), registry, p, q, {});
    assert src.sourceType in SourceTypesOf(p, FactsOf(RecordsOf(large)));
  }

  /** What the log to compact and the operations to merge hold together, and what compacting leaves. */
  lemma MergeHolds(src: Source, e: Evidence, x: Claim, p: Claim, q: Claim, n: int, registry: Registry)
    requires x.id != p.id && x.id != q.id && p.id != q.id
    ensures var log, more := Withdrawn(src, e, x, n), TwoClaims(p, q, n);
            CollisionFree(log + more) && UniqueOps(log + more) && SourcesIn(log + more) == {src} && EvidenceIn(log + more) == {e}
            && ClaimsIn(log + more) == {x, p, q} && RetractionsIn(log + more) == {Withdrawal(x, n)}
            && EvidenceIn(Compacted(log, registry) + more) == {}
  {
    var log, more := Withdrawn(src, e, x, n), TwoClaims(p, q, n);
    hide Withdrawn;
    hide TwoClaims;
    hide CollisionFree;
    hide UniqueOps;
    hide Compacted;
    hide SourcesIn;
    hide EvidenceIn;
    hide ClaimsIn;
    hide RetractionsIn;
    WithdrawnKinds(src, e, x, n);
    TwoKinds(p, q, n);
    WithdrawnEvidenceDropped(src, e, x, n, registry);
    WithdrawnCollisionFree(src, e, x, p, q, n);
    Together(log, more, Compacted(log, registry), src, e, x, p, q, Withdrawal(x, n));
  }

  lemma Together(log: set<Op>, more: set<Op>, kept: set<Op>, src: Source, e: Evidence, x: Claim, p: Claim, q: Claim, r: Op)
    requires SourcesIn(log) == {src} && EvidenceIn(log) == {e} && ClaimsIn(log) == {x} && RetractionsIn(log) == {r}
    requires SourcesIn(more) == {} && EvidenceIn(more) == {} && ClaimsIn(more) == {p, q} && RetractionsIn(more) == {}
    requires EvidenceIn(kept) == {}
    ensures SourcesIn(log + more) == {src} && EvidenceIn(log + more) == {e} && ClaimsIn(log + more) == {x, p, q}
    ensures RetractionsIn(log + more) == {r} && EvidenceIn(kept + more) == {}
  {
    hide SourcesIn;
    hide EvidenceIn;
    hide ClaimsIn;
    hide RetractionsIn;
    AllKinds(log, more);
    MergedEvidence(kept, more);
  }

  /** Evidence from a known source is cited only by a retracted claim, so compacting drops it; what is
      merged adds two incompatible claims, one citing it. The finding then bears the source's label
      exactly where the log was not compacted. */
  lemma MergeLosesLabel(src: Source, e: Evidence, x: Claim, p: Claim, q: Claim, n: int, registry: Registry)
    requires e.sourceId == Some(src.id) && x.id != p.id && x.id != q.id
    requires Incompatible(p, q, registry) && p.evidenceIds == [e.id]
    ensures var log, more := Withdrawn(src, e, x, n), TwoClaims(p, q, n);
            CollisionFree(log + more) && UniqueOps(log + more)
            && var f := FindingIn(Compacted(log, registry) + more, registry, p.key);
               var g := FindingIn(log + more, registry, p.key);
               f.Some? && g.Some? && f.value.annotations.provenance == {} && g.value.annotations.provenance == {src.sourceType}
  {
    var log, more := Withdrawn(src, e, x, n), TwoClaims(p, q, n);
    hide Withdrawn;
    hide TwoClaims;
    hide CollisionFree;
    hide UniqueOps;
    hide Compacted;
    hide Thinned;
    hide FindingIn;
    hide Poorer;
    hide Incompatible;
    hide RecordsOf;
    hide SourcesIn;
    hide EvidenceIn;
    hide ClaimsIn;
    hide RetractionsIn;
    OneKey(p, q, registry);
    MergeHolds(src, e, x, p, q, n, registry);
    MergedPoorer(log, more, registry);
    MergedCollisionFree(log, more, registry);
    LosesLabel(Compacted(log, registry) + more, log + more, src, e, x.id, p, q, registry);
  }

  lemma MergedCollisionFree(log: set<Op>, more: set<Op>, registry: Registry)
    requires CollisionFree(log + more)
    ensures CollisionFree(Compacted(log, registry) + more)
  {
    hide CollisionFree;
    CollisionFreeSubset(Compacted(log, registry) + more, log + more);
  }
}
