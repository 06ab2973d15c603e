/** What a direct finding reports, told by the claims of its key and by the fields of the rule
    registered for their predicate. */
module Reported {
  import opened Basics
  import opened Model
  import opened Applicability
  import opened ConflictIndex
  import opened Findings
  import opened State
  import opened Tables

  // ---------------------------------------------------------------- what a pair is

  /** Two values of a predicate differ: by its comparison, failing one after normalizing, failing that
      as they are. */
  ghost predicate Differ(rules: map<Name, Rule>, predicateName: Name, left: Json, right: Json) {
    if predicateName !in rules then left != right
    else
      match rules[predicateName].equal
      case Some(g) => !g(left, right)
      case None =>
        match rules[predicateName].normalize
        case Some(f) => f(left) != f(right)
        case None => left != right
  }

  /** Two claims cannot both hold, the one with the smaller identifier on the left. */
  ghost predicate CannotBoth(a: Claim, b: Claim, rules: map<Name, Rule>) {
    a.id.n < b.id.n && PairOverlaps(a, b)
    && !(a.key.predicateName in rules && rules[a.key.predicateName].multiValued)
    && Differ(rules, a.key.predicateName, a.value, b.value)
  }

  lemma ConflictingExactly(a: Claim, b: Claim, registry: Registry)
    requires a.id.n < b.id.n
    ensures Conflicting(a, b, registry) <==> CannotBoth(a, b, registry.rules)
  {
  }

  lemma PairExactly(claims: map<Id, Claim>, registry: Registry, l: Id, r: Id)
    requires forall id :: id in claims ==> claims[id].id == id
    ensures IdPair(l, r) in PairSet(claims, registry) <==>
              l in claims && r in claims && CannotBoth(claims[l], claims[r], registry.rules)
  {
    PairSetMember(claims, registry, IdPair(l, r));
    if l in claims && r in claims && l.n < r.n { ConflictingExactly(claims[l], claims[r], registry); }
    hide Conflicting;
  }

  lemma NeighboursExactly(claims: map<Id, Claim>, registry: Registry, id: Id, o: Id)
    requires id in claims && forall id :: id in claims ==> claims[id].id == id
    ensures o in Neighbours(claims, registry, id) <==>
              o in claims && (CannotBoth(claims[id], claims[o], registry.rules) || CannotBoth(claims[o], claims[id], registry.rules))
  {
    PairSetMember(claims, registry, IdPair(id, o));
    PairSetMember(claims, registry, IdPair(o, id));
    PairExactly(claims, registry, id, o);
    PairExactly(claims, registry, o, id);
    hide CannotBoth;
    hide PairOf;
    hide PairSet;
  }

  /** A claim's value as the index holds it: normalized, unless its predicate has its own comparison. */
  ghost function IndexedValue(c: Claim, rules: map<Name, Rule>): Json {
    if c.key.predicateName in rules && rules[c.key.predicateName].equal.None? && rules[c.key.predicateName].normalize.Some?
    then rules[c.key.predicateName].normalize.value(c.value) else c.value
  }

  /** The index of a key's claims holds exactly the pairs that cannot both hold, and each claim's
      neighbours are the claims it shares such a pair with. */
  lemma IndexExactly(claims: map<Id, Claim>, registry: Registry)
    requires forall id :: id in claims ==> claims[id].id == id
    ensures var index := IndexOf(claims, registry);
            (forall l, r :: IdPair(l, r) in index.pairs <==>
               l in claims && r in claims && CannotBoth(claims[l], claims[r], registry.rules))
            && index.adjacent.Keys == claims.Keys
            && (forall id, o :: id in claims ==> (o in index.adjacent[id] <==>
                  o in claims && (CannotBoth(claims[id], claims[o], registry.rules) || CannotBoth(claims[o], claims[id], registry.rules))))
  {
    PairKeys(claims, registry);
    hide CannotBoth;
    hide PairSet;
    hide WitnessMap;
    hide Neighbours;
    forall l, r
      ensures IdPair(l, r) in PairSet(claims, registry) <==>
                l in claims && r in claims && CannotBoth(claims[l], claims[r], registry.rules)
    {
      PairExactly(claims, registry, l, r);
    }
    forall id, o | id in claims
      ensures o in Neighbours(claims, registry, id) <==>
                o in claims && (CannotBoth(claims[id], claims[o], registry.rules) || CannotBoth(claims[o], claims[id], registry.rules))
    {
      NeighboursExactly(claims, registry, id, o);
    }
  }

  lemma ValuesExactly(claims: map<Id, Claim>, registry: Registry, id: Id)
    requires id in claims
    ensures var index := IndexOf(claims, registry);
            index.claims == claims && id in index.normalized && index.normalized[id] == IndexedValue(claims[id], registry.rules)
  {
    hide PairSet;
    hide WitnessMap;
    hide Neighbours;
  }

  // ---------------------------------------------------------------- what a finding says

  ghost predicate Within(from: Option<Time>, until: Option<Time>, t: Time) {
    (from.Some? ==> from.value <= t) && (until.Some? ==> t < until.value)
  }

  ghost predicate HoldsAt(c: Claim, t: Time) { c.validity.Some? ==> Within(c.validity.value.from, c.validity.value.until, t) }

  /** A pair's witness: the instants at which both claims hold, and every dimension either names. */
  ghost predicate Witnesses(p: PairWitness, a: Claim, b: Claim) {
    && p.left == a.id && p.right == b.id
    && (forall t :: Within(p.from, p.until, t) <==> HoldsAt(a, t) && HoldsAt(b, t))
    && (forall k :: k in p.context <==> k in a.context || k in b.context)
    && (forall k :: k in a.context ==> p.context[k] == a.context[k])
    && (forall k :: k in b.context ==> p.context[k] == b.context[k])
  }

  ghost predicate WitnessedPair(p: PairWitness, listed: seq<Claim>, rules: map<Name, Rule>) {
    exists a, b :: a in listed && b in listed && CannotBoth(a, b, rules) && Witnesses(p, a, b)
  }

  ghost predicate ReportsPair(f: ConflictSet, a: Claim, b: Claim) {
    exists i :: 0 <= i < |f.pairs| && f.pairs[i].left == a.id && f.pairs[i].right == b.id
  }

  ghost predicate TakesPart(c: Claim, listed: seq<Claim>, rules: map<Name, Rule>) {
    c in listed && exists d :: d in listed && (CannotBoth(c, d, rules) || CannotBoth(d, c, rules))
  }

  /** The pairs of a finding are exactly the pairs that cannot both hold, in order. */
  ghost predicate PairsExact(f: ConflictSet, listed: seq<Claim>, rules: map<Name, Rule>) {
    && (forall a, b :: a in listed && b in listed ==> (ReportsPair(f, a, b) <==> CannotBoth(a, b, rules)))
    && (forall i :: 0 <= i < |f.pairs| ==> WitnessedPair(f.pairs[i], listed, rules))
    && (forall i, j :: 0 <= i < j < |f.pairs| ==>
          f.pairs[i].left.n < f.pairs[j].left.n || (f.pairs[i].left == f.pairs[j].left && f.pairs[i].right.n < f.pairs[j].right.n))
  }

  /** A finding of a key's claims: besides its pairs, its candidates are exactly the claims that take
      part in one, in order, and its identity is that of its key and candidates. */
  ghost predicate Reports(f: ConflictSet, key: ClaimKey, listed: seq<Claim>, rules: map<Name, Rule>) {
    && PairsExact(f, listed, rules)
    && (forall c :: c in f.candidates <==> TakesPart(c, listed, rules))
    && (forall i, j :: 0 <= i < j < |f.candidates| ==> f.candidates[i].id.n < f.candidates[j].id.n)
    && f.key == key && f.keys == {key} && f.conflictType == "same_key_distinct_value" && f.detector == "direct"
    && f.ref == DirectRef("same_key_distinct_value", key) && f.id == KeyedId(key, set c | c in f.candidates :: c.id)
  }

  ghost predicate AnyClash(listed: seq<Claim>, rules: map<Name, Rule>) {
    exists a, b :: a in listed && b in listed && CannotBoth(a, b, rules)
  }

  lemma WitnessMeaning(a: Claim, b: Claim)
    requires PairOverlaps(a, b)
    ensures Witnesses(OverlapWitness(a, b), a, b)
  {
  }

  /** The claims of one key, as a list and by identifier. */
  ghost predicate Same(claims: map<Id, Claim>, listed: seq<Claim>) {
    && (forall id :: id in claims ==> claims[id].id == id && claims[id] in listed)
    && (forall c :: c in listed ==> c.id in claims && claims[c.id] == c)
  }

  /** One listed pair, and the claims it is of. */
  ghost predicate PairListed(p: PairWitness, q: IdPair, listed: seq<Claim>, rules: map<Name, Rule>) {
    p.left == q.left && p.right == q.right && WitnessedPair(p, listed, rules)
  }

  lemma PairWitnessed(claims: map<Id, Claim>, listed: seq<Claim>, registry: Registry, q: IdPair)
    requires Same(claims, listed) && q in PairSet(claims, registry)
    ensures q.left in claims && q.right in claims
    ensures PairListed(OverlapWitness(claims[q.left], claims[q.right]), q, listed, registry.rules)
  {
    PairExactly(claims, registry, q.left, q.right);
    WitnessMeaning(claims[q.left], claims[q.right]);
    hide Witnesses;
  }

  lemma PairsListed(claims: map<Id, Claim>, listed: seq<Claim>, registry: Registry, order: seq<IdPair>, pairs: seq<PairWitness>)
    requires Same(claims, listed) && PairsKnown(claims, PairSet(claims, registry))
    requires order == Listing(PairSet(claims, registry), PairRank)
    requires forall k :: 0 <= k < |order| ==> Known(claims, order[k])
    requires pairs == WitnessList(claims, order)
    ensures |pairs| == |order| && StrictlySorted(order, PairRank) && Elements(order) == PairSet(claims, registry)
    ensures forall i :: 0 <= i < |order| ==> PairListed(pairs[i], order[i], listed, registry.rules)
  {
    var ps := PairSet(claims, registry);
    PairsDistinct(ps);
    ListingProperties(ps, PairRank);
    hide PairSet;
    hide PairListed;
    forall i | 0 <= i < |order| ensures PairListed(pairs[i], order[i], listed, registry.rules) {
      assert order[i] in Elements(order);
      PairWitnessed(claims, listed, registry, order[i]);
    }
  }

  /** The pairs of the finding, as the claims' own. */
  lemma PairsReported(f: ConflictSet, claims: map<Id, Claim>, listed: seq<Claim>, registry: Registry, order: seq<IdPair>)
    requires Same(claims, listed)
    requires |f.pairs| == |order| && StrictlySorted(order, PairRank) && Elements(order) == PairSet(claims, registry)
    requires forall i :: 0 <= i < |order| ==> PairListed(f.pairs[i], order[i], listed, registry.rules)
    ensures PairsExact(f, listed, registry.rules)
  {
    hide PairSet;
    hide WitnessedPair;
    hide CannotBoth;
    forall a, b | a in listed && b in listed ensures ReportsPair(f, a, b) <==> CannotBoth(a, b, registry.rules) {
      PairExactly(claims, registry, a.id, b.id);
      if CannotBoth(a, b, registry.rules) {
        assert IdPair(a.id, b.id) in Elements(order);
        var i :| 0 <= i < |order| && order[i] == IdPair(a.id, b.id);
        assert f.pairs[i].left == a.id && f.pairs[i].right == b.id;
      }
      if ReportsPair(f, a, b) {
        var i :| 0 <= i < |f.pairs| && f.pairs[i].left == a.id && f.pairs[i].right == b.id;
        assert order[i] in Elements(order) && order[i] == IdPair(a.id, b.id);
      }
    }
    forall i, j | 0 <= i < j < |f.pairs|
      ensures f.pairs[i].left.n < f.pairs[j].left.n || (f.pairs[i].left == f.pairs[j].left && f.pairs[i].right.n < f.pairs[j].right.n)
    {
      assert Below(PairRank(order[i]), PairRank(order[j]));
    }
  }

  lemma ParticipantsExactly(claims: map<Id, Claim>, listed: seq<Claim>, registry: Registry, c: Claim)
    requires Same(claims, listed)
    ensures c.id in Participants(PairSet(claims, registry)) && c.id in claims && claims[c.id] == c <==> TakesPart(c, listed, registry.rules)
  {
    var ps := PairSet(claims, registry);
    forall l, r ensures IdPair(l, r) in ps <==> l in claims && r in claims && CannotBoth(claims[l], claims[r], registry.rules) {
      PairExactly(claims, registry, l, r);
    }
    hide PairSet;
    hide CannotBoth;
    if c.id in Participants(ps) {
      var p :| p in ps && (p.left == c.id || p.right == c.id);
      assert p == IdPair(p.left, p.right);
    }
    if TakesPart(c, listed, registry.rules) {
      var d :| d in listed && (CannotBoth(c, d, registry.rules) || CannotBoth(d, c, registry.rules));
      assert claims[c.id] == c && claims[d.id] == d;
      assert IdPair(c.id, d.id) in ps || IdPair(d.id, c.id) in ps;
      assert c.id in Participants(ps);
    }
  }

  lemma CandidatesReported(claims: map<Id, Claim>, listed: seq<Claim>, registry: Registry, candidates: seq<Claim>)
    requires Same(claims, listed)
    requires Participants(PairSet(claims, registry)) <= claims.Keys
    requires var ids := SortedIds(Participants(PairSet(claims, registry)));
             (forall i :: 0 <= i < |ids| ==> ids[i] in claims) && candidates == ClaimsOf(claims, ids)
    ensures forall c :: c in candidates <==> TakesPart(c, listed, registry.rules)
    ensures forall i, j :: 0 <= i < j < |candidates| ==> candidates[i].id.n < candidates[j].id.n
  {
    ClaimsOfSorted(claims, Participants(PairSet(claims, registry)));
    hide TakesPart;
    hide PairSet;
    hide Participants;
    forall c ensures c in candidates <==> TakesPart(c, listed, registry.rules) {
      ParticipantsExactly(claims, listed, registry, c);
    }
    forall i, j | 0 <= i < j < |candidates| ensures candidates[i].id.n < candidates[j].id.n {
      assert Below(ClaimRank(candidates[i]), ClaimRank(candidates[j]));
    }
  }

  /** The finding of one key stands exactly when two of its claims cannot both hold, and reports them. */
  lemma FindingReports(key: ClaimKey, listed: seq<Claim>, facts: Facts, registry: Registry)
    requires KeyList(listed, key)
    ensures var f := FindingOf(key, ByClaimId(listed), facts, registry);
            (f.Some? <==> AnyClash(listed, registry.rules)) && (f.Some? ==> Reports(f.value, key, listed, registry.rules))
  {
    hide ByClaimId;
    hide FindingOf;
    hide Same;
    hide OnKey;
    hide Reports;
    hide AnyClash;
    ListedOnce(key, listed);
    ReportsOnKey(key, ByClaimId(listed), listed, facts, registry);
  }

  lemma ListedOnce(key: ClaimKey, listed: seq<Claim>)
    requires KeyList(listed, key)
    ensures Same(ByClaimId(listed), listed) && OnKey(ByClaimId(listed), key)
  {
    SequenceOnKey(listed, key);
    ByClaimIdProperties(listed);
  }

  lemma ReportsOnKey(key: ClaimKey, claims: map<Id, Claim>, listed: seq<Claim>, facts: Facts, registry: Registry)
    requires Same(claims, listed) && OnKey(claims, key)
    ensures var f := FindingOf(key, claims, facts, registry);
            (f.Some? <==> AnyClash(listed, registry.rules)) && (f.Some? ==> Reports(f.value, key, listed, registry.rules))
  {
    hide AnyClash;
    hide TakesPart;
    hide PairsExact;
    hide PairSet;
    hide FindingOf;
    NoneOrSome(claims, listed, registry);
    FoundIff(key, claims, facts, registry);
    if FindingOf(key, claims, facts, registry).Some? {
      FindingIdentity(key, claims, facts, registry);
      FindingDetails(key, claims, listed, facts, registry);
    }
  }

  lemma FoundIff(key: ClaimKey, claims: map<Id, Claim>, facts: Facts, registry: Registry)
    ensures FindingOf(key, claims, facts, registry).Some? <==> PairSet(claims, registry) != {}
  {
    PairSetKnown(claims, registry);
    hide PairSet;
    hide MakeDirect;
  }

  lemma NoneOrSome(claims: map<Id, Claim>, listed: seq<Claim>, registry: Registry)
    requires Same(claims, listed)
    ensures PairSet(claims, registry) != {} <==> AnyClash(listed, registry.rules)
  {
    var ps := PairSet(claims, registry);
    forall l, r ensures IdPair(l, r) in ps <==> l in claims && r in claims && CannotBoth(claims[l], claims[r], registry.rules) {
      PairExactly(claims, registry, l, r);
    }
    hide PairSet;
    hide CannotBoth;
    if ps != {} {
      var p :| p in ps;
      assert p == IdPair(p.left, p.right);
    }
    if AnyClash(listed, registry.rules) {
      var a, b :| a in listed && b in listed && CannotBoth(a, b, registry.rules);
      assert IdPair(a.id, b.id) in ps;
    }
  }

  lemma FindingDetails(key: ClaimKey, claims: map<Id, Claim>, listed: seq<Claim>, facts: Facts, registry: Registry)
    requires Same(claims, listed) && FindingOf(key, claims, facts, registry).Some?
    ensures var f := FindingOf(key, claims, facts, registry).value;
            PairsExact(f, listed, registry.rules)
            && (forall c :: c in f.candidates <==> TakesPart(c, listed, registry.rules))
            && (forall i, j :: 0 <= i < j < |f.candidates| ==> f.candidates[i].id.n < f.candidates[j].id.n)
  {
    var ps, f := PairSet(claims, registry), FindingOf(key, claims, facts, registry).value;
    PairSetKnown(claims, registry);
    ParticipantsKnown(claims, ps);
    hide PairSet;
    hide WitnessList;
    hide ClaimsOf;
    hide DistinctValues;
    hide AnnotationsFor;
    hide TaxonomyFor;
    hide TakesPart;
    hide PairsExact;
    PairsListed(claims, listed, registry, Listing(ps, PairRank), f.pairs);
    PairsReported(f, claims, listed, registry, Listing(ps, PairRank));
    CandidatesReported(claims, listed, registry, f.candidates);
  }

  // ---------------------------------------------------------------- all findings of a state

  /** One finding for each key with a clash among its claims, and no other. */
  ghost predicate ReportsAll(cs: set<ConflictSet>, byKey: map<ClaimKey, seq<Claim>>, rules: map<Name, Rule>) {
    && (forall c :: c in cs ==> c.key in byKey && Reports(c, c.key, byKey[c.key], rules))
    && (forall key :: key in byKey ==> (ReportsOn(cs, key) <==> AnyClash(byKey[key], rules)))
    && (forall c, d :: c in cs && d in cs && c.key == d.key ==> c == d)
  }

  ghost predicate ReportsOn(cs: set<ConflictSet>, key: ClaimKey) { exists c :: c in cs && c.key == key }

  lemma AllReported(byKey: map<ClaimKey, seq<Claim>>, facts: Facts, registry: Registry)
    requires ListsByKey(byKey)
    ensures ReportsAll(FindingSet(byKey, facts, registry), byKey, registry.rules)
  {
    var cs := FindingSet(byKey, facts, registry);
    FindingsInjective(byKey, byKey.Keys, facts, registry);
    hide Reports;
    hide AnyClash;
    hide FindingOf;
    forall c | c in cs ensures c.key in byKey && Reports(c, c.key, byKey[c.key], registry.rules) {
      assert KeyList(byKey[c.key], c.key);
      FindingReports(c.key, byKey[c.key], facts, registry);
    }
    forall key | key in byKey ensures ReportsOn(cs, key) <==> AnyClash(byKey[key], registry.rules) {
      assert KeyList(byKey[key], key);
      FindingReports(key, byKey[key], facts, registry);
      if AnyClash(byKey[key], registry.rules) {
        assert HasFinding(byKey, key, facts, registry);
        FindingAtIdentity(byKey, key, facts, registry);
        assert FindingAt(byKey, key, facts, registry).value in cs;
      }
    }
  }
}
