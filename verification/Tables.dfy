/** How each table of the state changes when one record is added: the steps both the full and the
    incremental path take. */
module Tables {
  import opened Basics
  import opened Model
  import opened ConflictIndex
  import opened Findings
  import opened Records
  import opened State

  // ---------------------------------------------------------------- cross-indexes

  lemma RefStep(claims: map<Id, Claim>, c: Claim, registry: Registry)
    requires c.id in claims ==> claims[c.id] == c
    ensures var ref := registry.ClaimRefFor(c);
            RefMap(claims[c.id := c], registry) == RefMap(claims, registry)[c.id := ref]
            && RefPairs(claims[c.id := c], registry) == RefPairs(claims, registry) + {(ref, c.id)}
            && Group(RefPairs(claims[c.id := c], registry)) == AddTo(Group(RefPairs(claims, registry)), ref, c.id)
  {
    var after, ref := claims[c.id := c], registry.ClaimRefFor(c);
    assert RefMap(after, registry) == RefMap(claims, registry)[c.id := ref];
    assert RefPairs(after, registry) == RefPairs(claims, registry) + {(ref, c.id)} by {
      forall p ensures p in RefPairs(after, registry) <==> p in RefPairs(claims, registry) + {(ref, c.id)} {
        if p == (ref, c.id) { assert c.id in after; }
        if p in RefPairs(claims, registry) { assert p.1 in claims && after[p.1] == claims[p.1]; }
      }
    }
    GroupAdd(RefPairs(claims, registry), ref, c.id);
  }

  lemma EvidenceStepPairs(claims: map<Id, Claim>, c: Claim)
    requires c.id !in claims
    ensures EvidencePairs(claims[c.id := c]) == EvidencePairs(claims) + PairsWith(Elements(c.evidenceIds), c.id)
  {
    var after := claims[c.id := c];
    forall p ensures p in EvidencePairs(after) <==> p in EvidencePairs(claims) + PairsWith(Elements(c.evidenceIds), c.id) {
      if p in EvidencePairs(claims) {
        assert p.1 in claims && p.0 in claims[p.1].evidenceIds && after[p.1] == claims[p.1];
      }
      if p in PairsWith(Elements(c.evidenceIds), c.id) {
        assert p.1 in after && p.0 in after[p.1].evidenceIds;
      }
    }
  }

  lemma DerivationStepPairs(claims: map<Id, Claim>, c: Claim)
    requires c.id !in claims
    ensures DerivationPairs(claims[c.id := c])
            == DerivationPairs(claims) + if c.derivationId.Some? then {(c.derivationId.value, c.id)} else {}
  {
    var after := claims[c.id := c];
    var added := if c.derivationId.Some? then {(c.derivationId.value, c.id)} else {};
    forall p ensures p in DerivationPairs(after) <==> p in DerivationPairs(claims) + added {
      if p in DerivationPairs(claims) {
        assert p.1 in claims && after[p.1] == claims[p.1];
      }
      if p in added { assert p.1 in after; }
    }
  }

  lemma SourceStepPairs(evidence: map<Id, Evidence>, e: Evidence)
    requires e.id !in evidence
    ensures SourcePairs(evidence[e.id := e])
            == SourcePairs(evidence) + if e.sourceId.Some? then {(e.sourceId.value, e.id)} else {}
  {
    var after := evidence[e.id := e];
    var added := if e.sourceId.Some? then {(e.sourceId.value, e.id)} else {};
    forall p ensures p in SourcePairs(after) <==> p in SourcePairs(evidence) + added {
      if p in SourcePairs(evidence) {
        assert p.1 in evidence && after[p.1] == evidence[p.1];
      }
      if p in added { assert p.1 in after; }
    }
  }

  lemma ClassifiedStepPairs(resolutions: map<Id, Resolution>, r: Resolution)
    requires r.id !in resolutions
    ensures ClassifiedPairs(resolutions[r.id := r])
            == ClassifiedPairs(resolutions) + PairsWith(r.Classified(), r.id)
  {
    var after := resolutions[r.id := r];
    var added := PairsWith(r.Classified(), r.id);
    forall p ensures p in ClassifiedPairs(after) <==> p in ClassifiedPairs(resolutions) + added {
      if p in ClassifiedPairs(resolutions) {
        assert p.1 in resolutions && p.0 in resolutions[p.1].Classified() && after[p.1] == resolutions[p.1];
      }
      if p in added { assert p.1 in after && p.0 in after[p.1].Classified(); }
    }
  }

  // ---------------------------------------------------------------- retractions

  lemma TargetStep(rs: set<Op>, op: Op)
    requires op.ClaimRetracted? && op !in rs
    ensures TargetPairs(rs + {op}) == With(TargetPairs(rs), op.target, op)
    ensures op.target.Some? ==> (op.target.value, op) !in TargetPairs(rs)
  {
  }

  lemma TargetRefStep(rs: set<Op>, op: Op)
    requires op.ClaimRetracted? && op !in rs
    ensures TargetRefPairs(rs + {op}) == With(TargetRefPairs(rs), op.targetRef, op)
    ensures op.targetRef.Some? ==> (op.targetRef.value, op) !in TargetRefPairs(rs)
  {
  }

  lemma SupersederStep(rs: set<Op>, op: Op)
    requires op.ClaimRetracted? && op !in rs
    ensures SupersederPairs(rs + {op}) == With(SupersederPairs(rs), op.superseder, op)
    ensures op.superseder.Some? ==> (op.superseder.value, op) !in SupersederPairs(rs)
  {
  }

  lemma SupersederRefStep(rs: set<Op>, op: Op)
    requires op.ClaimRetracted? && op !in rs
    ensures SupersederRefPairs(rs + {op}) == With(SupersederRefPairs(rs), op.supersederRef, op)
    ensures op.supersederRef.Some? ==> (op.supersederRef.value, op) !in SupersederRefPairs(rs)
  {
  }

  lemma RetractionsDistinct(rs: set<Op>)
    requires UniqueOps(rs)
    ensures Distinct(rs, RetractionRank)
    ensures Distinct(Seconds(TargetPairs(rs)), RetractionRank)
    ensures Distinct(Seconds(TargetRefPairs(rs)), RetractionRank)
    ensures Distinct(Seconds(SupersederPairs(rs)), RetractionRank)
    ensures Distinct(Seconds(SupersederRefPairs(rs)), RetractionRank)
  {
    forall a, b | a in rs && b in rs && RetractionRank(a) == RetractionRank(b) ensures a == b {
      assert a.opId == b.opId;
    }
    assert Seconds(TargetPairs(rs)) <= rs;
    assert Seconds(TargetRefPairs(rs)) <= rs;
    assert Seconds(SupersederPairs(rs)) <= rs;
    assert Seconds(SupersederRefPairs(rs)) <= rs;
  }

  // ---------------------------------------------------------------- active claims

  lemma IdsOfRef(claims: map<Id, Claim>, registry: Registry, base: set<Id>, refs: set<ClaimRef>, ref: ClaimRef)
    ensures base + IdsWithRef(claims, refs + {ref}, registry)
            == base + IdsWithRef(claims, refs, registry) + Lookup(Group(RefPairs(claims, registry)), ref)
    ensures base + IdsWithRef(claims, {}, registry) == base
  {
    var more := Lookup(Group(RefPairs(claims, registry)), ref);
    forall id ensures id in more <==> HasRefIn(claims, {ref}, registry, id) {
      GroupLookup(RefPairs(claims, registry), ref, id);
      if HasRefIn(claims, {ref}, registry, id) {
        assert (registry.ClaimRefFor(claims[id]), id) in RefPairs(claims, registry);
      }
    }
    assert IdsWithRef(claims, refs + {ref}, registry) == IdsWithRef(claims, refs, registry) + more;
  }

  lemma ActivePairMember(claims: map<Id, Claim>, inactive: set<Id>, w: Window, key: ClaimKey, c: Claim)
    requires ClaimsFiled(claims)
    ensures (key, c) in ActivePairs(claims, inactive, w) <==>
              c.id in claims && claims[c.id] == c && c.key == key && IsActiveClaim(claims, inactive, w, c.id)
  {
    if (key, c) in ActivePairs(claims, inactive, w) {
      var id :| id in claims && IsActiveClaim(claims, inactive, w, id) && (claims[id].key, claims[id]) == (key, c);
    }
    if c.id in claims && claims[c.id] == c && c.key == key && IsActiveClaim(claims, inactive, w, c.id) {
      assert (claims[c.id].key, claims[c.id]) == (key, c);
    }
  }

  lemma ActiveDistinct(claims: map<Id, Claim>, inactive: set<Id>, w: Window)
    requires ClaimsFiled(claims)
    ensures Distinct(Seconds(ActivePairs(claims, inactive, w)), ClaimRank)
  {
    var pairs := ActivePairs(claims, inactive, w);
    forall c: Claim | c in Seconds(pairs) ensures c.id in claims && claims[c.id] == c {
      var p :| p in pairs && p.1 == c;
      ActivePairMember(claims, inactive, w, p.0, p.1);
    }
  }

  /** The list of one key: its active claims, by identifier. */
  lemma ClaimsAtKey(claims: map<Id, Claim>, inactive: set<Id>, w: Window, key: ClaimKey)
    requires ClaimsFiled(claims)
    ensures var listed := ClaimsAt(ActivityOf(claims, inactive, w).byKey, key);
            StrictlySorted(listed, ClaimRank)
            && forall c :: c in listed <==> (key, c) in ActivePairs(claims, inactive, w)
  {
    var pairs := ActivePairs(claims, inactive, w);
    ActiveDistinct(claims, inactive, w);
    ImageDistinct(pairs, key, ClaimRank);
    ListingProperties(Image(pairs, key), ClaimRank);
    ImageOutside(pairs, key);
    var listed := ClaimsAt(ActivityOf(claims, inactive, w).byKey, key);
    assert Elements(listed) == Image(pairs, key);
    forall c ensures c in listed <==> (key, c) in pairs {
      ImageMember(pairs, key, c);
      assert c in listed <==> c in Elements(listed);
    }
  }

  /** Membership in a key's list, read off the tables. */
  lemma ListedClaim(claims: map<Id, Claim>, inactive: set<Id>, w: Window, key: ClaimKey, c: Claim)
    requires ClaimsFiled(claims)
    ensures c in ClaimsAt(ActivityOf(claims, inactive, w).byKey, key) <==>
              c.id in claims && claims[c.id] == c && c.key == key && IsActiveClaim(claims, inactive, w, c.id)
  {
    ClaimsAtKey(claims, inactive, w, key);
    ActivePairMember(claims, inactive, w, key, c);
  }

  // ---------------------------------------------------------------- histories

  lemma ResolutionsDistinct(rs: map<Id, Resolution>)
    requires ResolutionsFiled(rs)
    ensures Distinct(Seconds(ResolutionRefPairs(rs)), ResolutionRank)
    ensures Distinct(Seconds(ResolutionLanePairs(rs)), ResolutionRank)
  {
    forall r: Resolution | r in Seconds(ResolutionRefPairs(rs)) || r in Seconds(ResolutionLanePairs(rs)) ensures r.id in rs && rs[r.id] == r {
    }
  }

  lemma EventsDistinct(es: map<Id, Event>)
    requires EventsFiled(es)
    ensures Distinct(Seconds(EventRefPairs(es)), EventRank)
    ensures Distinct(Seconds(EventLanePairs(es)), EventRank)
  {
    forall e: Event | e in Seconds(EventRefPairs(es)) || e in Seconds(EventLanePairs(es)) ensures e.id in es && es[e.id] == e {
    }
  }

  lemma ResolutionStepPairs(rs: map<Id, Resolution>, r: Resolution)
    requires r.id !in rs && ResolutionsFiled(rs)
    ensures ResolutionRefPairs(rs[r.id := r]) == ResolutionRefPairs(rs) + {(r.conflictRef, r)}
    ensures ResolutionLanePairs(rs[r.id := r]) == ResolutionLanePairs(rs) + {(LaneOfResolution(r), r)}
    ensures (r.conflictRef, r) !in ResolutionRefPairs(rs) && (LaneOfResolution(r), r) !in ResolutionLanePairs(rs)
  {
    var after := rs[r.id := r];
    forall id | id in rs ensures after[id] == rs[id] && rs[id].id == id {}
    assert r.id in after && after[r.id] == r;
    assert forall p: (ConflictRef, Resolution) :: p in ResolutionRefPairs(rs) ==> p.1.id in rs && after[p.1.id] == p.1;
    assert forall p: (Lane, Resolution) :: p in ResolutionLanePairs(rs) ==> p.1.id in rs && after[p.1.id] == p.1;
  }

  lemma EventStepPairs(es: map<Id, Event>, e: Event)
    requires e.id !in es && EventsFiled(es)
    ensures EventRefPairs(es[e.id := e]) == EventRefPairs(es) + {(e.conflictRef, e)}
    ensures EventLanePairs(es[e.id := e]) == EventLanePairs(es) + {(LaneOfEvent(e), e)}
    ensures (e.conflictRef, e) !in EventRefPairs(es) && (LaneOfEvent(e), e) !in EventLanePairs(es)
  {
    var after := es[e.id := e];
    forall id | id in es ensures after[id] == es[id] && es[id].id == id {}
    assert e.id in after && after[e.id] == e;
    assert forall p: (ConflictRef, Event) :: p in EventRefPairs(es) ==> p.1.id in es && after[p.1.id] == p.1;
    assert forall p: (Lane, Event) :: p in EventLanePairs(es) ==> p.1.id in es && after[p.1.id] == p.1;
  }

  // ---------------------------------------------------------------- findings

  /** Each key's list holds that key's claims, in identifier order. */
  ghost predicate ListsByKey(byKey: map<ClaimKey, seq<Claim>>) {
    forall key :: key in byKey ==> KeyList(byKey[key], key)
  }

  ghost predicate KeyList(claims: seq<Claim>, key: ClaimKey) {
    StrictlySorted(claims, ClaimRank) && forall c :: c in claims ==> c.key == key
  }

  lemma ActivityLists(claims: map<Id, Claim>, inactive: set<Id>, w: Window)
    requires ClaimsFiled(claims)
    ensures ListsByKey(ActivityOf(claims, inactive, w).byKey)
  {
    var byKey := ActivityOf(claims, inactive, w).byKey;
    forall key | key in byKey ensures KeyList(byKey[key], key) {
      ClaimsAtKey(claims, inactive, w, key);
      forall c: Claim | c in byKey[key] ensures c.key == key {
        ListedClaim(claims, inactive, w, key, c);
      }
    }
  }

  lemma CandidatesKnown(key: ClaimKey, claims: map<Id, Claim>, ps: set<IdPair>)
    requires OnKey(claims, key) && PairsKnown(claims, ps)
    ensures Participants(ps) <= claims.Keys
    ensures forall i :: 0 <= i < |SortedIds(Participants(ps))| ==> SortedIds(Participants(ps))[i] in claims
    ensures forall x :: x in ClaimsOf(claims, SortedIds(Participants(ps))) ==>
              x.id in claims && claims[x.id] == x && x.key == key
  {
    ParticipantsKnown(claims, ps);
    var candidates := ClaimsOf(claims, SortedIds(Participants(ps)));
    forall x | x in candidates ensures x.id in claims && claims[x.id] == x && x.key == key {
      var i :| 0 <= i < |candidates| && candidates[i] == x;
      assert candidates[i] == claims[SortedIds(Participants(ps))[i]];
    }
  }

  /** A direct finding's identity carries its key. */
  ghost predicate DirectOn(c: ConflictSet, key: ClaimKey) {
    && c.key == key && c.keys == {key}
    && c.conflictType == DIRECT_CONFLICT_TYPE && c.detector == DIRECT_DETECTOR
    && c.ref == DirectRef(DIRECT_CONFLICT_TYPE, key)
    && c.id == KeyedId(key, IdsOf(c.candidates))
  }

  lemma FindingIdentity(key: ClaimKey, claims: map<Id, Claim>, facts: Facts, registry: Registry)
    requires OnKey(claims, key) && FindingOf(key, claims, facts, registry).Some?
    ensures var c := FindingOf(key, claims, facts, registry).value;
            DirectOn(c, key) && forall x :: x in c.candidates ==> x.id in claims && claims[x.id] == x
  {
    PairSetKnown(claims, registry);
    CandidatesKnown(key, claims, PairSet(claims, registry));
    assert {key} + KeysOf(ClaimsOf(claims, SortedIds(Participants(PairSet(claims, registry))))) == {key};
    hide PairSet;
    hide ClaimsOf;
    hide WitnessList;
    hide DistinctValues;
    hide AnnotationsFor;
  }

  lemma NoListNoFinding(byKey: map<ClaimKey, seq<Claim>>, key: ClaimKey, facts: Facts, registry: Registry)
    requires key !in byKey
    ensures !HasFinding(byKey, key, facts, registry)
  {
    NoPairs(map[], registry, key);
  }

  lemma FindingAtIdentity(byKey: map<ClaimKey, seq<Claim>>, key: ClaimKey, facts: Facts, registry: Registry)
    requires ListsByKey(byKey) && HasFinding(byKey, key, facts, registry)
    ensures var c := FindingAt(byKey, key, facts, registry).value;
            key in byKey && DirectOn(c, key) && forall x :: x in c.candidates ==> x in byKey[key]
  {
    if key !in byKey { NoListNoFinding(byKey, key, facts, registry); }
    var claims := byKey[key];
    assert KeyList(claims, key);
    SequenceOnKey(claims, key);
    ByClaimIdProperties(claims);
    FindingIdentity(key, ByClaimId(claims), facts, registry);
  }

  /** Direct findings are told apart by key, by reference and by identifier. */
  lemma FindingsInjective(byKey: map<ClaimKey, seq<Claim>>, keys: set<ClaimKey>, facts: Facts, registry: Registry)
    requires ListsByKey(byKey)
    ensures var cs := FindingsAmong(byKey, keys, facts, registry);
            Injective(cs, ConflictIdOf) && Injective(cs, ConflictRefOf) && Injective(cs, ConflictKeyOf)
            && forall c :: c in cs ==> c.key in keys && FindingAt(byKey, c.key, facts, registry) == Some(c) && DirectOn(c, c.key)
  {
    var cs := FindingsAmong(byKey, keys, facts, registry);
    forall c | c in cs
      ensures c.key in keys && FindingAt(byKey, c.key, facts, registry) == Some(c) && DirectOn(c, c.key)
    {
      var key :| key in keys && HasFinding(byKey, key, facts, registry) && FindingAt(byKey, key, facts, registry).value == c;
      FindingAtIdentity(byKey, key, facts, registry);
    }
  }

  lemma FindingsStep(byKey: map<ClaimKey, seq<Claim>>, keys: set<ClaimKey>, key: ClaimKey, facts: Facts, registry: Registry)
    ensures FindingsAmong(byKey, keys + {key}, facts, registry)
            == FindingsAmong(byKey, keys, facts, registry)
               + if HasFinding(byKey, key, facts, registry) then {FindingAt(byKey, key, facts, registry).value} else {}
    ensures FindingsAmong(byKey, {}, facts, registry) == {}
  {
  }

  // ---------------------------------------------------------------- one more active claim

  lemma ActiveStep(claims: map<Id, Claim>, c: Claim, inactive: set<Id>, w: Window)
    requires c.id !in claims && ClaimsFiled(claims)
    ensures var after := claims[c.id := c];
            ActivePairs(after, inactive, w)
            == ActivePairs(claims, inactive, w) + (if c.id !in inactive && Applies(c, w) then {(c.key, c)} else {})
            && (c.key, c) !in ActivePairs(claims, inactive, w)
            && InapplicableIds(after, inactive, w)
               == InapplicableIds(claims, inactive, w) + if c.id !in inactive && !Applies(c, w) then {c.id} else {}
  {
    var after := claims[c.id := c];
    assert ClaimsFiled(after);
    ActivePairMember(claims, inactive, w, c.key, c);
    var added := if c.id !in inactive && Applies(c, w) then {(c.key, c)} else {};
    forall p ensures p in ActivePairs(after, inactive, w) <==> p in ActivePairs(claims, inactive, w) + added {
      ActivePairMember(claims, inactive, w, p.0, p.1);
      ActivePairMember(after, inactive, w, p.0, p.1);
      assert p == (p.0, p.1);
    }
  }

  /** Retracting an identifier nobody has claimed changes no active list. */
  lemma ActiveUnknown(claims: map<Id, Claim>, inactive: set<Id>, w: Window, id: Id)
    requires id !in claims
    ensures ActivePairs(claims, inactive + {id}, w) == ActivePairs(claims, inactive, w)
  {
    forall i | i in claims
      ensures IsActiveClaim(claims, inactive + {id}, w, i) <==> IsActiveClaim(claims, inactive, w, i) {}
  }

  lemma ActiveDropped(claims: map<Id, Claim>, inactive: set<Id>, w: Window, id: Id)
    requires id in claims && ClaimsFiled(claims)
    ensures ActivePairs(claims, inactive + {id}, w)
            == ActivePairs(claims, inactive, w) - {(claims[id].key, claims[id])}
  {
    forall p ensures p in ActivePairs(claims, inactive + {id}, w)
                     <==> p in ActivePairs(claims, inactive, w) && p != (claims[id].key, claims[id])
    {
      ActivePairMember(claims, inactive + {id}, w, p.0, p.1);
      ActivePairMember(claims, inactive, w, p.0, p.1);
      assert p == (p.0, p.1);
    }
  }

  lemma InactiveStep(claims: map<Id, Claim>, c: Claim, rs: set<Op>, registry: Registry)
    requires c.id !in claims
    ensures InactiveIds(claims[c.id := c], rs, registry)
            == InactiveIds(claims, rs, registry)
               + if registry.ClaimRefFor(c) in Firsts(TargetRefPairs(rs)) then {c.id} else {}
  {
    var after, refs := claims[c.id := c], Firsts(TargetRefPairs(rs));
    forall id ensures HasRefIn(after, refs, registry, id)
                      <==> HasRefIn(claims, refs, registry, id) || (id == c.id && registry.ClaimRefFor(c) in refs) {}
  }
}
