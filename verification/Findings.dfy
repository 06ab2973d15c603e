/** Direct findings: the pair scan over active claims, the same finding read from the index, and
    the index read back from a stored finding. */
module Findings {
  import opened Basics
  import opened Model
  import opened Applicability
  import opened ConflictIndex

  /** The records a finding's annotations are looked up in. */
  datatype Facts = Facts(
    evidence: map<Id, Evidence>, sources: map<Id, Source>, derivations: map<Id, Derivation>)

  // ---------------------------------------------------------------- labels of a finding

  function TaxonomyOfKind(kind: Name): Option<(Name, Name)> {
    if kind == "belief" then Some(("epistemic", "source.belief"))
    else if kind == "instruction" then Some(("normative", "instruction"))
    else if kind == "preference" then Some(("normative", "preference"))
    else if kind == "policy" then Some(("normative", "policy.rule"))
    else if kind == "goal" then Some(("normative", "goal"))
    else None
  }

  function TaxonomyFor(claims: seq<Claim>): (Name, Name) {
    TaxonomyAmong(set c | c in claims && TaxonomyOfKind(c.kind).Some? :: TaxonomyOfKind(c.kind).value)
  }

  function TaxonomyAmong(classified: set<(Name, Name)>): (Name, Name) {
    var classes := set p | p in classified :: p.0;
    if exists p :: p in classified && classified == {p} then
      var p :| p in classified && classified == {p}; p
    else if exists n :: n in classes && classes == {n} then
      var n :| n in classes && classes == {n}; (n, "mixed")
    else ("epistemic", "factual.value")
  }

  predicate HasSource(facts: Facts, e: Id) {
    e in facts.evidence && facts.evidence[e].sourceId.Some? && facts.evidence[e].sourceId.value in facts.sources
  }

  function SourceTypeOf(facts: Facts, e: Id): Name
    requires HasSource(facts, e)
  {
    facts.sources[facts.evidence[e].sourceId.value].sourceType
  }

  /** What the annotations of a finding take from one candidate. */
  function SourceTypesOf(c: Claim, facts: Facts): set<Name> {
    set e | e in c.evidenceIds && HasSource(facts, e) :: SourceTypeOf(facts, e)
  }

  predicate IsMultiHop(c: Claim, facts: Facts) {
    c.derivationId.Some? && c.derivationId.value in facts.derivations
    && |facts.derivations[c.derivationId.value].inputClaimIds| > 1
  }

  function SourceTypes(claims: seq<Claim>, facts: Facts): set<Name> {
    if claims == [] then {} else SourceTypes(claims[..|claims| - 1], facts) + SourceTypesOf(claims[|claims| - 1], facts)
  }

  function RepresentationOf(claims: seq<Claim>): Representation {
    if claims != [] && forall c :: c in claims ==> c.value.Number? then Numeric
    else if claims != [] && forall c :: c in claims ==> c.value.Text? || c.value.Bool? then Categorical
    else Structured
  }

  function AnnotationsFor(claims: seq<Claim>, facts: Facts, aggregate: bool): Annotations {
    Annotations(RepresentationOf(claims), exists c :: c in claims && IsMultiHop(c, facts),
                SourceTypes(claims, facts), aggregate)
  }

  /** Annotations depend on the facts only through what they say of each candidate. */
  lemma {:induction false} SourceTypesFrame(claims: seq<Claim>, a: Facts, b: Facts)
    requires forall i :: 0 <= i < |claims| ==> SourceTypesOf(claims[i], a) == SourceTypesOf(claims[i], b)
    ensures SourceTypes(claims, a) == SourceTypes(claims, b)
  {
    if claims != [] {
      SourceTypesFrame(claims[..|claims| - 1], a, b);
    }
  }

  function DistinctValues(predicateName: Name, claims: seq<Claim>, registry: Registry): seq<Json> {
    if claims == [] then []
    else
      var front := DistinctValues(predicateName, claims[..|claims| - 1], registry);
      var value := claims[|claims| - 1].value;
      if exists i :: 0 <= i < |front| && registry.ValuesEqual(predicateName, value, front[i]) then front
      else front + [value]
  }

  method DistinctValuesForClaims(predicateName: Name, claims: seq<Claim>, registry: Registry)
    returns (values: seq<Json>)
    ensures values == DistinctValues(predicateName, claims, registry)
  {
    values := [];
    for i := 0 to |claims|
      invariant values == DistinctValues(predicateName, claims[..i], registry)
    {
      assert claims[..i + 1][..i] == claims[..i];
      if !exists j :: 0 <= j < |values| && registry.ValuesEqual(predicateName, claims[i].value, values[j]) {
        values := values + [claims[i].value];
      }
    }
    assert claims[..|claims|] == claims;
  }

  // ---------------------------------------------------------------- the finding at one key

  function PairRank(p: IdPair): Rank { Rank(p.left.n, p.right.n, 0) }

  lemma PairsDistinct(ps: set<IdPair>)
    ensures Distinct(ps, PairRank)
  {
  }

  function Participants(ps: set<IdPair>): set<Id> {
    (set p | p in ps :: p.left) + (set p | p in ps :: p.right)
  }

  function ClaimsOf(claims: map<Id, Claim>, ids: seq<Id>): seq<Claim>
    requires forall i :: 0 <= i < |ids| ==> ids[i] in claims
  {
    seq(|ids|, i requires 0 <= i < |ids| => claims[ids[i]])
  }

  function IdsOf(claims: seq<Claim>): set<Id> { set c | c in claims :: c.id }

  function KeysOf(claims: seq<Claim>): set<ClaimKey> { set c | c in claims :: c.key }

  /** `make_conflict` for a direct finding anchored at `key`. */
  function MakeDirect(
    key: ClaimKey, candidates: seq<Claim>, values: seq<Json>, annotations: Annotations, pairs: seq<PairWitness>)
    : ConflictSet
  {
    var keys := {key} + KeysOf(candidates);
    ConflictSet(
      DeriveConflictId(key, IdsOf(candidates), DIRECT_CONFLICT_TYPE, keys, DIRECT_DETECTOR),
      DeriveConflictRef(key, DIRECT_CONFLICT_TYPE, keys, DIRECT_DETECTOR),
      DIRECT_CONFLICT_TYPE, key, keys, candidates, values,
      TaxonomyFor(candidates).0, TaxonomyFor(candidates).1, DIRECT_DETECTOR, annotations, pairs)
  }

  ghost predicate PairsKnown(claims: map<Id, Claim>, ps: set<IdPair>) {
    forall p :: p in ps ==> Known(claims, p)
  }

  ghost function WitnessList(claims: map<Id, Claim>, ps: seq<IdPair>): seq<PairWitness>
    requires forall i :: 0 <= i < |ps| ==> Known(claims, ps[i])
  {
    seq(|ps|, i requires 0 <= i < |ps| => WitnessOf(claims, ps[i]))
  }

  lemma ParticipantsKnown(claims: map<Id, Claim>, ps: set<IdPair>)
    requires PairsKnown(claims, ps)
    ensures Participants(ps) <= claims.Keys
    ensures forall i :: 0 <= i < |SortedIds(Participants(ps))| ==> SortedIds(Participants(ps))[i] in claims
    ensures forall i :: 0 <= i < |Listing(ps, PairRank)| ==> Known(claims, Listing(ps, PairRank)[i])
  {
    forall i | 0 <= i < |SortedIds(Participants(ps))| ensures SortedIds(Participants(ps))[i] in claims {
      assert SortedIds(Participants(ps))[i] in Elements(SortedIds(Participants(ps)));
    }
    PairsDistinct(ps);
    ListingProperties(ps, PairRank);
    forall i | 0 <= i < |Listing(ps, PairRank)| ensures Known(claims, Listing(ps, PairRank)[i]) {
      assert Listing(ps, PairRank)[i] in Elements(Listing(ps, PairRank));
    }
  }

  ghost function FindingFrom(key: ClaimKey, claims: map<Id, Claim>, ps: set<IdPair>, facts: Facts, registry: Registry)
    : ConflictSet
    requires PairsKnown(claims, ps)
  {
    ParticipantsKnown(claims, ps);
    var candidates := ClaimsOf(claims, SortedIds(Participants(ps)));
    MakeDirect(key, candidates, DistinctValues(key.predicateName, candidates, registry),
               AnnotationsFor(candidates, facts, Aggregate(candidates)),
               WitnessList(claims, Listing(ps, PairRank)))
  }

  lemma PairSetKnown(claims: map<Id, Claim>, registry: Registry)
    ensures PairsKnown(claims, PairSet(claims, registry))
  {
    forall p | p in PairSet(claims, registry) ensures Known(claims, p) {
      PairSetMember(claims, registry, p);
    }
  }

  /** The finding the active claims of one key give rise to. */
  ghost function FindingOf(key: ClaimKey, claims: map<Id, Claim>, facts: Facts, registry: Registry): Option<ConflictSet> {
    PairSetKnown(claims, registry);
    if PairSet(claims, registry) == {} then None
    else Some(FindingFrom(key, claims, PairSet(claims, registry), facts, registry))
  }

  // ---------------------------------------------------------------- read from the index

  lemma WitnessFromIndex(claims: map<Id, Claim>, registry: Registry, order: seq<IdPair>)
    requires order == Listing(PairSet(claims, registry), PairRank)
    ensures var pairs := WitnessMap(claims, PairSet(claims, registry));
            forall i :: 0 <= i < |order| ==> order[i] in pairs && Known(claims, order[i])
                                             && pairs[order[i]] == WitnessOf(claims, order[i])
  {
    var ps := PairSet(claims, registry);
    PairSetKnown(claims, registry);
    ParticipantsKnown(claims, ps);
    PairsDistinct(ps);
    ListingProperties(ps, PairRank);
    forall i | 0 <= i < |order| ensures order[i] in ps {
      assert order[i] in Elements(order);
    }
  }

  function StoredWitnesses(pairs: map<IdPair, PairWitness>, order: seq<IdPair>): seq<PairWitness>
    requires forall i :: 0 <= i < |order| ==> order[i] in pairs
  {
    seq(|order|, i requires 0 <= i < |order| => pairs[order[i]])
  }

  /** The labelling both detection paths end with. */
  method LabelFinding(key: ClaimKey, candidates: seq<Claim>, witnesses: seq<PairWitness>, facts: Facts, registry: Registry)
    returns (finding: ConflictSet)
    ensures finding == MakeDirect(key, candidates, DistinctValues(key.predicateName, candidates, registry),
                                  AnnotationsFor(candidates, facts, Aggregate(candidates)), witnesses)
  {
    var aggregate := HasAggregateApplicability(candidates);
    var values := DistinctValuesForClaims(key.predicateName, candidates, registry);
    finding := MakeDirect(key, candidates, values, AnnotationsFor(candidates, facts, aggregate), witnesses);
  }

  lemma OrderedWitnesses(claims: map<Id, Claim>, registry: Registry, order: seq<IdPair>, witnesses: seq<PairWitness>)
    requires order == Listing(PairSet(claims, registry), PairRank)
    requires PairsKnown(claims, PairSet(claims, registry))
    requires |witnesses| == |order|
    requires forall i :: 0 <= i < |order| ==> Known(claims, order[i]) && witnesses[i] == WitnessOf(claims, order[i])
    ensures witnesses == WitnessList(claims, order)
  {
  }

  /** `conflict_from_direct_index`: the index yields the finding of the pair scan. */
  method ConflictFromDirectIndex(index: Index, key: ClaimKey, facts: Facts, registry: Registry)
    returns (finding: Option<ConflictSet>)
    requires index == IndexOf(index.claims, registry)
    ensures finding == FindingOf(key, index.claims, facts, registry)
  {
    ghost var ps := PairSet(index.claims, registry);
    PairKeys(index.claims, registry);
    PairSetKnown(index.claims, registry);
    hide IndexOf;
    hide PairSet;
    if index.pairs.Keys == {} { return None; }
    ParticipantsKnown(index.claims, ps);
    PairsDistinct(ps);
    var order := SortedSet(index.pairs.Keys, PairRank);
    WitnessFromIndex(index.claims, registry, order);
    hide WitnessMap;
    var witnesses := StoredWitnesses(index.pairs, order);
    OrderedWitnesses(index.claims, registry, order, witnesses);
    var found := LabelFinding(key, ClaimsOf(index.claims, SortedIds(Participants(index.pairs.Keys))), witnesses, facts, registry);
    finding := Some(found);
  }

  lemma PairKeys(claims: map<Id, Claim>, registry: Registry)
    ensures IndexOf(claims, registry).pairs.Keys == PairSet(claims, registry)
    ensures IndexOf(claims, registry).pairs == WitnessMap(claims, PairSet(claims, registry))
  {
    PairSetKnown(claims, registry);
  }

  // ---------------------------------------------------------------- found by the pair scan

  ghost predicate ScanHit(claims: seq<Claim>, i: nat, j: nat, registry: Registry)
    requires i < |claims| && j < |claims|
  {
    Conflicting(claims[i], claims[j], registry)
  }

  /** The incompatible pairs of row `i`, with columns from `i + 1` up to `j`. */
  ghost function RowPairs(claims: seq<Claim>, i: nat, j: nat, registry: Registry): seq<IdPair>
    requires i < |claims| && j <= |claims|
  {
    if j <= i + 1 then []
    else RowPairs(claims, i, j - 1, registry)
         + if ScanHit(claims, i, j - 1, registry) then [IdPair(claims[i].id, claims[j - 1].id)] else []
  }

  ghost function ScanPairs(claims: seq<Claim>, i: nat, registry: Registry): seq<IdPair>
    requires i <= |claims|
  {
    if i == 0 then [] else ScanPairs(claims, i - 1, registry) + RowPairs(claims, i - 1, |claims|, registry)
  }

  lemma {:induction false} RowPairsProperties(claims: seq<Claim>, i: nat, j: nat, registry: Registry)
    requires StrictlySorted(claims, ClaimRank) && i < |claims| && j <= |claims|
    ensures StrictlySorted(RowPairs(claims, i, j, registry), PairRank)
    ensures forall p :: p in RowPairs(claims, i, j, registry) ==>
              p.left == claims[i].id && (j > 0 ==> p.right.n <= claims[j - 1].id.n)
              && exists k :: i < k < j && claims[k].id == p.right && ScanHit(claims, i, k, registry)
    ensures forall k :: i < k < j && ScanHit(claims, i, k, registry) ==>
              IdPair(claims[i].id, claims[k].id) in RowPairs(claims, i, j, registry)
  {
    if j > i + 1 {
      RowPairsProperties(claims, i, j - 1, registry);
      assert Below(ClaimRank(claims[j - 2]), ClaimRank(claims[j - 1]));
    }
  }

  lemma {:induction false} ScanPairsSound(claims: seq<Claim>, i: nat, registry: Registry)
    requires StrictlySorted(claims, ClaimRank) && i <= |claims|
    ensures StrictlySorted(ScanPairs(claims, i, registry), PairRank)
    ensures forall p :: p in ScanPairs(claims, i, registry) ==>
              exists a, b :: 0 <= a < i && a < b < |claims| && claims[a].id == p.left && claims[b].id == p.right
                             && ScanHit(claims, a, b, registry)
  {
    if i > 0 {
      var front, row := ScanPairs(claims, i - 1, registry), RowPairs(claims, i - 1, |claims|, registry);
      ScanPairsSound(claims, i - 1, registry);
      RowPairsProperties(claims, i - 1, |claims|, registry);
      forall x, y | 0 <= x < |front| && 0 <= y < |row| ensures Below(PairRank(front[x]), PairRank(row[y])) {
        assert front[x] in front && row[y] in row;
        var a, b :| 0 <= a < i - 1 && a < b < |claims| && claims[a].id == front[x].left && claims[b].id == front[x].right
                    && ScanHit(claims, a, b, registry);
        assert Below(ClaimRank(claims[a]), ClaimRank(claims[i - 1]));
      }
      forall p | p in row
        ensures exists a, b :: 0 <= a < i && a < b < |claims| && claims[a].id == p.left && claims[b].id == p.right
                               && ScanHit(claims, a, b, registry)
      {
        var k :| i - 1 < k < |claims| && claims[k].id == p.right && ScanHit(claims, i - 1, k, registry);
      }
    }
  }

  lemma {:induction false} ScanPairsComplete(claims: seq<Claim>, i: nat, registry: Registry, a: nat, b: nat)
    requires StrictlySorted(claims, ClaimRank) && a < i <= |claims| && a < b < |claims|
    requires ScanHit(claims, a, b, registry)
    ensures IdPair(claims[a].id, claims[b].id) in ScanPairs(claims, i, registry)
  {
    if a == i - 1 {
      RowPairsProperties(claims, a, |claims|, registry);
    } else {
      ScanPairsComplete(claims, i - 1, registry, a, b);
    }
  }

  /** The scan lists exactly the pairs the index stores, in the order the index sorts them. */
  lemma ScanFindsPairSet(claims: seq<Claim>, registry: Registry)
    requires StrictlySorted(claims, ClaimRank)
    ensures ScanPairs(claims, |claims|, registry) == Listing(PairSet(ByClaimId(claims), registry), PairRank)
    ensures Elements(ScanPairs(claims, |claims|, registry)) == PairSet(ByClaimId(claims), registry)
  {
    var found, ps := ScanPairs(claims, |claims|, registry), PairSet(ByClaimId(claims), registry);
    ScanPairsSound(claims, |claims|, registry);
    ByClaimIdProperties(claims);
    forall p ensures p in found <==> p in ps {
      PairSetMember(ByClaimId(claims), registry, p);
      if p in found {
        var a, b :| 0 <= a < |claims| && a < b < |claims| && claims[a].id == p.left && claims[b].id == p.right
                    && ScanHit(claims, a, b, registry);
        assert claims[a] in claims && claims[b] in claims && Below(ClaimRank(claims[a]), ClaimRank(claims[b]));
      }
      if p in ps {
        var l, r := ByClaimId(claims)[p.left], ByClaimId(claims)[p.right];
        var a :| 0 <= a < |claims| && claims[a] == l;
        var b :| 0 <= b < |claims| && claims[b] == r;
        assert a < b by { SortedPositions(claims, a, b); }
        ScanPairsComplete(claims, |claims|, registry, a, b);
      }
    }
    assert Elements(found) == ps;
    ListingUnique(found, ps, PairRank);
  }

  lemma SortedPositions(claims: seq<Claim>, a: nat, b: nat)
    requires StrictlySorted(claims, ClaimRank) && a < |claims| && b < |claims|
    ensures claims[a].id.n < claims[b].id.n <==> a < b
  {
    assert a < b ==> Below(ClaimRank(claims[a]), ClaimRank(claims[b]));
    assert b < a ==> Below(ClaimRank(claims[b]), ClaimRank(claims[a]));
  }

  method ScanRow(claims: seq<Claim>, i: nat, key: ClaimKey, registry: Registry, found: seq<IdPair>)
    returns (found': seq<IdPair>)
    requires i < |claims| && found == ScanPairs(claims, i, registry)
    requires forall c :: c in claims ==> c.key == key
    requires !registry.RuleFor(key.predicateName).multiValued
    ensures found' == ScanPairs(claims, i + 1, registry)
  {
    found' := found;
    for j := i + 1 to |claims|
      invariant found' == found + RowPairs(claims, i, j, registry)
    {
      if !registry.ValuesEqual(key.predicateName, claims[i].value, claims[j].value)
         && ContextsOverlap(claims[i].context, claims[j].context)
         && ValidityOverlaps(claims[i].validity, claims[j].validity)
      {
        found' := found' + [IdPair(claims[i].id, claims[j].id)];
      }
    }
  }

  lemma NoPairs(claims: map<Id, Claim>, registry: Registry, key: ClaimKey)
    requires OnKey(claims, key)
    requires registry.RuleFor(key.predicateName).multiValued || |claims| <= 1
    ensures PairSet(claims, registry) == {}
  {
    if |claims| <= 1 {
      forall l, r | l in claims && r in claims ensures l == r {
        assert |claims.Keys| == |claims|;
        assert {l} <= claims.Keys;
        if l != r { assert {l, r} <= claims.Keys; SubsetSize({l, r}, claims.Keys); }
      }
    }
    forall p ensures p !in PairSet(claims, registry) {
      PairSetMember(claims, registry, p);
    }
  }

  lemma {:induction false} SubsetSize<T>(a: set<T>, b: set<T>)
    requires a <= b
    ensures |a| <= |b|
  {
    assert b == a + (b - a);
  }

  function Among(claims: seq<Claim>, ids: set<Id>): seq<Claim> {
    if claims == [] then []
    else Among(claims[..|claims| - 1], ids)
         + if claims[|claims| - 1].id in ids then [claims[|claims| - 1]] else []
  }

  lemma {:induction false} AmongProperties(claims: seq<Claim>, ids: set<Id>)
    requires StrictlySorted(claims, ClaimRank)
    ensures StrictlySorted(Among(claims, ids), ClaimRank)
    ensures forall c :: c in Among(claims, ids) <==> c in claims && c.id in ids
  {
    if claims != [] {
      var front, last := claims[..|claims| - 1], claims[|claims| - 1];
      assert claims == front + [last];
      AmongProperties(front, ids);
      forall c | c in Among(front, ids) ensures Below(ClaimRank(c), ClaimRank(last)) {
        var i :| 0 <= i < |front| && front[i] == c;
        assert claims[i] == c;
      }
    }
  }

  /** Claims looked up in identifier order are in claim order, and are exactly the ones asked for. */
  lemma ClaimsOfSorted(claims: map<Id, Claim>, ids: set<Id>)
    requires ids <= claims.Keys && forall id :: id in claims ==> claims[id].id == id
    requires forall i :: 0 <= i < |SortedIds(ids)| ==> SortedIds(ids)[i] in claims
    ensures var picked := ClaimsOf(claims, SortedIds(ids));
            StrictlySorted(picked, ClaimRank)
            && forall c :: c in picked <==> c.id in ids && c.id in claims && claims[c.id] == c
  {
    var order := SortedIds(ids);
    var picked := ClaimsOf(claims, order);
    SortedIdsIncrease(ids);
    forall i, j | 0 <= i < j < |picked| ensures Below(ClaimRank(picked[i]), ClaimRank(picked[j])) {
      assert Below(IdRank(order[i]), IdRank(order[j]));
    }
    forall c ensures c in picked <==> c.id in ids && c.id in claims && claims[c.id] == c {
      if c in picked {
        var i :| 0 <= i < |picked| && picked[i] == c;
        assert order[i] in Elements(order);
      }
      if c.id in ids && claims[c.id] == c {
        assert c.id in Elements(order);
        var i :| 0 <= i < |order| && order[i] == c.id;
        assert picked[i] == c;
      }
    }
  }

  /** Filtering the sorted claims gives the claims of the sorted identifiers. */
  lemma AmongIsClaimsOf(claims: seq<Claim>, ids: set<Id>)
    requires StrictlySorted(claims, ClaimRank) && ids <= ByClaimId(claims).Keys
    requires forall i :: 0 <= i < |SortedIds(ids)| ==> SortedIds(ids)[i] in ByClaimId(claims)
    ensures Among(claims, ids) == ClaimsOf(ByClaimId(claims), SortedIds(ids))
  {
    var byId := ByClaimId(claims);
    var picked := ClaimsOf(byId, SortedIds(ids));
    ByClaimIdProperties(claims);
    AmongProperties(claims, ids);
    ClaimsOfSorted(byId, ids);
    hide ByClaimId;
    hide Among;
    hide ClaimsOf;
    hide SortedIds;
    assert Elements(Among(claims, ids)) == Elements(picked) by {
      forall c ensures c in Among(claims, ids) <==> c in picked {
        assert c in claims ==> byId[c.id] == c;
      }
    }
    StrictlySortedUnique(Among(claims, ids), picked, ClaimRank);
  }

  function ScannedWitnesses(claims: map<Id, Claim>, found: seq<IdPair>): seq<PairWitness>
    requires forall i :: 0 <= i < |found| ==> found[i].left in claims && found[i].right in claims
  {
    seq(|found|, i requires 0 <= i < |found| => OverlapWitness(claims[found[i].left], claims[found[i].right]))
  }

  method ScanAll(claims: seq<Claim>, key: ClaimKey, registry: Registry) returns (found: seq<IdPair>)
    requires forall c :: c in claims ==> c.key == key
    requires !registry.RuleFor(key.predicateName).multiValued
    ensures found == ScanPairs(claims, |claims|, registry)
  {
    found := [];
    for i := 0 to |claims|
      invariant found == ScanPairs(claims, i, registry)
    {
      found := ScanRow(claims, i, key, registry, found);
    }
  }

  lemma SequenceOnKey(claims: seq<Claim>, key: ClaimKey)
    requires StrictlySorted(claims, ClaimRank) && forall c :: c in claims ==> c.key == key
    ensures OnKey(ByClaimId(claims), key)
    ensures |claims| == |ByClaimId(claims)|
  {
    ByClaimIdProperties(claims);
    DictionarySize(claims);
  }

  lemma {:induction false} DictionarySize(claims: seq<Claim>)
    requires StrictlySorted(claims, ClaimRank)
    ensures |claims| == |ByClaimId(claims)|
  {
    if claims != [] {
      var front, last := claims[..|claims| - 1], claims[|claims| - 1];
      DictionarySize(front);
      ByClaimIdProperties(front);
      forall id | id in ByClaimId(front) ensures id != last.id {
        var i :| 0 <= i < |front| && front[i] == ByClaimId(front)[id];
        assert Below(ClaimRank(claims[i]), ClaimRank(last));
      }
    }
  }

  /** One iteration of `_direct_conflicts`: the quadratic scan of one key's active claims. */
  method DetectAtKey(key: ClaimKey, claims: seq<Claim>, facts: Facts, registry: Registry)
    returns (finding: Option<ConflictSet>)
    requires StrictlySorted(claims, ClaimRank) && forall c :: c in claims ==> c.key == key
    ensures finding == FindingOf(key, ByClaimId(claims), facts, registry)
  {
    ghost var byId := ByClaimId(claims);
    SequenceOnKey(claims, key);
    if |claims| <= 1 || registry.RuleFor(key.predicateName).multiValued {
      NoPairs(byId, registry, key);
      return None;
    }
    var found := ScanAll(claims, key, registry);
    ScanFindsPairSet(claims, registry);
    hide PairSet;
    hide ScanPairs;
    if found == [] { return None; }
    assert found[0] in Elements(found);
    finding := ReportScan(key, claims, found, facts, registry);
  }

  /** The finding assembled from a non-empty list of incompatible pairs. */
  method ReportScan(key: ClaimKey, claims: seq<Claim>, found: seq<IdPair>, facts: Facts, registry: Registry)
    returns (finding: Option<ConflictSet>)
    requires StrictlySorted(claims, ClaimRank)
    requires found == Listing(PairSet(ByClaimId(claims), registry), PairRank)
    requires Elements(found) == PairSet(ByClaimId(claims), registry) != {}
    ensures finding == FindingOf(key, ByClaimId(claims), facts, registry)
  {
    ghost var ps := PairSet(ByClaimId(claims), registry);
    PairSetKnown(ByClaimId(claims), registry);
    hide PairSet;
    ParticipantsKnown(ByClaimId(claims), ps);
    var participants := Participants(set p | p in found);
    assert participants == Participants(ps);
    AmongIsClaimsOf(claims, participants);
    var witnesses := ScannedWitnesses(ByClaimId(claims), found);
    OrderedWitnesses(ByClaimId(claims), registry, found, witnesses);
    var conflict := LabelFinding(key, Among(claims, participants), witnesses, facts, registry);
    finding := Some(conflict);
  }

  // ---------------------------------------------------------------- the index read back

  /** The pairs a stored finding names, as index keys. */
  ghost function StoredPairs(witnesses: seq<PairWitness>): set<IdPair> {
    set w | w in witnesses :: PairKey(w.left, w.right)
  }

  function LinkedTo(ids: set<Id>, pairs: set<IdPair>, id: Id): set<Id> {
    set o | o in ids && (IdPair(id, o) in pairs || IdPair(o, id) in pairs)
  }

  /** `_direct_index` without a given neighbour map. */
  function AdjacencyFrom(ids: set<Id>, pairs: set<IdPair>): map<Id, set<Id>> {
    map id | id in ids :: LinkedTo(ids, pairs, id)
  }

  lemma AdjacencyFromPairs(claims: map<Id, Claim>, registry: Registry)
    ensures AdjacencyFrom(claims.Keys, PairSet(claims, registry)) == AdjacencyMap(claims, registry)
  {
    forall id | id in claims
      ensures LinkedTo(claims.Keys, PairSet(claims, registry), id) == Neighbours(claims, registry, id)
    {
      forall o | o in claims
        ensures IdPair(id, o) in PairSet(claims, registry) <==> PairOf(claims, registry, id, o)
        ensures IdPair(o, id) in PairSet(claims, registry) <==> PairOf(claims, registry, o, id)
      {
        PairSetMember(claims, registry, IdPair(id, o));
        PairSetMember(claims, registry, IdPair(o, id));
      }
    }
  }

  function NormalizedValues(claims: map<Id, Claim>, registry: Registry): map<Id, Json> {
    map id | id in claims :: NormalizedValue(claims[id], registry)
  }

  /** The loop over the stored witness: pairs naming an unknown claim are skipped. */
  method ReadPairs(claims: map<Id, Claim>, witnesses: seq<PairWitness>) returns (pairs: map<IdPair, PairWitness>)
    ensures pairs == WitnessMap(claims, StoredPairs(witnesses))
  {
    pairs := map[];
    for i := 0 to |witnesses|
      invariant pairs == WitnessMap(claims, StoredPairs(witnesses[..i]))
    {
      var p := PairKey(witnesses[i].left, witnesses[i].right);
      StoredPairsNext(claims, witnesses, i);
      if p.left in claims && p.right in claims {
        pairs := pairs[p := OverlapWitness(claims[p.left], claims[p.right])];
      }
    }
    assert witnesses[..|witnesses|] == witnesses;
  }

  lemma StoredPairsNext(claims: map<Id, Claim>, witnesses: seq<PairWitness>, i: nat)
    requires i < |witnesses|
    ensures var p := PairKey(witnesses[i].left, witnesses[i].right);
            var before, after := StoredPairs(witnesses[..i]), StoredPairs(witnesses[..i + 1]);
            WitnessMap(claims, after)
            == if Known(claims, p) then WitnessMap(claims, before)[p := WitnessOf(claims, p)] else WitnessMap(claims, before)
  {
    var p := PairKey(witnesses[i].left, witnesses[i].right);
    var before, after := StoredPairs(witnesses[..i]), StoredPairs(witnesses[..i + 1]);
    assert witnesses[..i + 1] == witnesses[..i] + [witnesses[i]];
    assert after == before + {p};
  }

  /** `build_direct_conflict_index`: the index rebuilt from claims and a stored finding alone,
      without comparing values. */
  method BuildDirectConflictIndex(claims: seq<Claim>, registry: Registry, conflict: Option<ConflictSet>)
    returns (index: Index)
    ensures index == RebuiltIndex(ByClaimId(claims), registry, conflict)
  {
    var byId := ByClaimId(claims);
    var pairs: map<IdPair, PairWitness> := map[];
    if conflict.Some? {
      pairs := ReadPairs(byId, conflict.value.pairs);
    }
    index := Index(
      byId, NormalizedValues(byId, registry), map id | id in byId :: byId[id].context,
      map id | id in byId :: ValidityBounds(byId[id].validity), pairs, AdjacencyFrom(byId.Keys, pairs.Keys));
  }

  ghost function RebuiltIndex(claims: map<Id, Claim>, registry: Registry, conflict: Option<ConflictSet>): Index {
    var pairs := if conflict.Some? then WitnessMap(claims, StoredPairs(conflict.value.pairs)) else map[];
    Index(claims, NormalizedMap(claims, registry), ContextMap(claims), ValidityMap(claims), pairs,
          AdjacencyFrom(claims.Keys, pairs.Keys))
  }

  lemma WitnessKeys(claims: map<Id, Claim>, order: seq<IdPair>)
    requires forall i :: 0 <= i < |order| ==>
               Known(claims, order[i]) && order[i].left.n < order[i].right.n
               && claims[order[i].left].id == order[i].left && claims[order[i].right].id == order[i].right
    ensures StoredPairs(WitnessList(claims, order)) == Elements(order)
  {
    var witnesses := WitnessList(claims, order);
    forall i | 0 <= i < |order| ensures PairKey(witnesses[i].left, witnesses[i].right) == order[i] {
    }
    forall p | p in Elements(order) ensures p in StoredPairs(witnesses) {
      var i :| 0 <= i < |order| && order[i] == p;
      assert witnesses[i] in witnesses;
    }
    forall p | p in StoredPairs(witnesses) ensures p in Elements(order) {
      var w :| w in witnesses && PairKey(w.left, w.right) == p;
      var i :| 0 <= i < |witnesses| && witnesses[i] == w;
    }
  }

  lemma StoredPairsOfFinding(key: ClaimKey, claims: map<Id, Claim>, facts: Facts, registry: Registry)
    requires OnKey(claims, key) && PairSet(claims, registry) != {}
    ensures StoredPairs(FindingOf(key, claims, facts, registry).value.pairs) == PairSet(claims, registry)
  {
    var ps := PairSet(claims, registry);
    PairSetKnown(claims, registry);
    ParticipantsKnown(claims, ps);
    PairsDistinct(ps);
    ListingProperties(ps, PairRank);
    var order := Listing(ps, PairRank);
    forall i | 0 <= i < |order| ensures order[i].left.n < order[i].right.n {
      assert order[i] in Elements(order);
      PairSetMember(claims, registry, order[i]);
    }
    WitnessKeys(claims, order);
  }

  /** A stored finding carries enough to rebuild the whole index of its key. */
  lemma RebuiltFromFinding(key: ClaimKey, claims: map<Id, Claim>, facts: Facts, registry: Registry)
    requires OnKey(claims, key)
    ensures RebuiltIndex(claims, registry, FindingOf(key, claims, facts, registry)) == IndexOf(claims, registry)
  {
    PairKeys(claims, registry);
    AdjacencyFromPairs(claims, registry);
    if PairSet(claims, registry) != {} {
      StoredPairsOfFinding(key, claims, facts, registry);
    }
  }
}
