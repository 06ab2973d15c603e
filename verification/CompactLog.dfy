/** `compact_projection_equivalent_with_report`: the loops that choose what to keep. */
module CompactLog {
  import opened Basics
  import opened Model
  import opened Lifecycle
  import opened Records
  import opened State
  import opened Tables
  import opened Offmarks
  import opened Refold
  import opened Compaction
  import opened Kept
  import Full = Materialize

  ghost function EvidenceOfLists(byKey: map<ClaimKey, seq<Claim>>, keys: set<ClaimKey>): set<Id> {
    set key, c, e | key in keys && key in byKey && c in byKey[key] && e in c.evidenceIds :: e
  }

  function EvidenceOfClaims(cs: seq<Claim>): set<Id> { set c, e | c in cs && e in c.evidenceIds :: e }

  /** The loop over active claims. */
  method CollectClaimEvidence(byKey: map<ClaimKey, seq<Claim>>) returns (needed: set<Id>)
    ensures needed == EvidenceOfLists(byKey, byKey.Keys)
  {
    needed := {};
    var todo := byKey.Keys;
    ghost var done: set<ClaimKey> := {};
    while todo != {}
      invariant done + todo == byKey.Keys && needed == EvidenceOfLists(byKey, done)
      decreases |todo|
    {
      var _ := Inhabited(todo);
      var key :| key in todo;
      needed := needed + EvidenceOfClaims(byKey[key]);
      done, todo := done + {key}, todo - {key};
    }
    assert done == byKey.Keys;
  }

  ghost function OpsOfLists<K(!new)>(m: map<K, seq<Op>>, keys: set<K>): set<Op> {
    set k, op | k in keys && k in m && op in m[k] :: op
  }

  predicate AllRetractions(ops: seq<Op>) { forall i :: 0 <= i < |ops| ==> ops[i].ClaimRetracted? }

  function IdsOfList(ops: seq<Op>): set<Id> { set op | op in ops :: op.opId }

  function EvidenceOfList(ops: seq<Op>): set<Id> { set op, e | op in ops && op.ClaimRetracted? && e in op.evidenceIds :: e }

  ghost function IdsOf(ops: set<Op>): set<Id> { set op | op in ops :: op.opId }

  ghost function EvidenceOf(ops: set<Op>): set<Id> { set op, e | op in ops && op.ClaimRetracted? && e in op.evidenceIds :: e }

  /** The loops over retractions by target and by target reference. */
  method CollectRetractions<K(!new)>(m: map<K, seq<Op>>) returns (ids: set<Id>, evidence: set<Id>)
    ensures ids == IdsOf(OpsOfLists(m, m.Keys)) && evidence == EvidenceOf(OpsOfLists(m, m.Keys))
  {
    ids, evidence := {}, {};
    var todo := m.Keys;
    ghost var done: set<K> := {};
    while todo != {}
      invariant done + todo == m.Keys
      invariant ids == IdsOf(OpsOfLists(m, done)) && evidence == EvidenceOf(OpsOfLists(m, done))
      decreases |todo|
    {
      var _ := Inhabited(todo);
      var k :| k in todo;
      ListAdded(m, done, k);
      ids, evidence := ids + IdsOfList(m[k]), evidence + EvidenceOfList(m[k]);
      done, todo := done + {k}, todo - {k};
    }
    assert done == m.Keys;
  }

  lemma ListAdded<K(!new)>(m: map<K, seq<Op>>, done: set<K>, k: K)
    requires k in m
    ensures IdsOf(OpsOfLists(m, done + {k})) == IdsOf(OpsOfLists(m, done)) + IdsOfList(m[k])
    ensures EvidenceOf(OpsOfLists(m, done + {k})) == EvidenceOf(OpsOfLists(m, done)) + EvidenceOfList(m[k])
  {
    assert OpsOfLists(m, done + {k}) == OpsOfLists(m, done) + Elements(m[k]);
  }

  /** The loop over resolutions. */
  method CollectResolutionEvidence(resolutions: map<Id, Resolution>) returns (needed: set<Id>)
    ensures needed == set id, e | id in resolutions && e in resolutions[id].evidenceIds :: e
  {
    needed := set id, e | id in resolutions && e in resolutions[id].evidenceIds :: e;
  }

  /** The test of the loop over operations. */
  predicate IsKept(op: Op, live: set<Id>, needed: set<Id>, retractions: set<Id>) {
    match op
    case EvidenceAdded(_, _, _, e) => e.id in needed
    case ClaimAdded(_, _, _, c) => c.id in live
    case ClaimRetracted(id, _, _, _, _, _, _, _, _) => id in retractions
    case _ => true
  }

  method KeepOps(ops: seq<Op>, live: set<Id>, needed: set<Id>, retractions: set<Id>) returns (kept: seq<Op>)
    ensures forall op :: op in kept <==> op in ops && IsKept(op, live, needed, retractions)
    ensures |kept| <= |ops| && (NoDuplicates(ops) ==> NoDuplicates(kept))
  {
    kept := [];
    for i := 0 to |ops|
      invariant forall op :: op in kept <==> op in ops[..i] && IsKept(op, live, needed, retractions)
      invariant |kept| <= i && (NoDuplicates(ops) ==> NoDuplicates(kept))
    {
      assert ops[..i + 1] == ops[..i] + [ops[i]];
      if IsKept(ops[i], live, needed, retractions) { kept := kept + [ops[i]]; }
    }
    assert ops[..|ops|] == ops;
  }

  // ---------------------------------------------------------------- the chosen sets mean what they should

  function LiveIds(byKey: map<ClaimKey, seq<Claim>>): set<Id> { set key, c | key in byKey && c in byKey[key] :: c.id }

  lemma LiveMeaning(log: set<Op>, registry: Registry, id: Id)
    requires CollisionFree(log)
    ensures var byKey := StateOf(log, registry, UNSCOPED).activity.byKey;
            (id in LiveIds(byKey) <==> IsLive(log, registry, id))
            && forall key, c :: key in byKey && c in byKey[key] && c.id == id ==> RecordsOf(log).claims[id] == c && IsLive(log, registry, id)
  {
    var claims, inactive := RecordsOf(log).claims, InactiveIds(RecordsOf(log).claims, RetractionsIn(log), registry);
    RecordsWellFiled(log);
    ActivityOfState(log, registry, UNSCOPED);
    var byKey := StateOf(log, registry, UNSCOPED).activity.byKey;
    hide StateOf;
    hide RecordsOf;
    hide InactiveIds;
    hide ActivityOf;
    forall key, c: Claim | key in byKey && c in byKey[key]
      ensures c.id in claims && claims[c.id] == c && c.id !in inactive
    {
      ListedClaim(claims, inactive, UNSCOPED, key, c);
    }
    if IsLive(log, registry, id) {
      var c := claims[id];
      AlwaysApplies(c);
      ListedClaim(claims, inactive, UNSCOPED, c.key, c);
      assert c in ClaimsAt(byKey, c.key);
    }
  }

  lemma ListedRetractions<K(!new)>(pairs: set<(K, Op)>)
    requires Distinct(Seconds(pairs), RetractionRank)
    ensures OpsOfLists(Listings(pairs, RetractionRank), Listings(pairs, RetractionRank).Keys) == Seconds(pairs)
  {
    var m := Listings(pairs, RetractionRank);
    forall op ensures op in OpsOfLists(m, m.Keys) <==> op in Seconds(pairs) {
      if op in Seconds(pairs) {
        var p :| p in pairs && p.1 == op;
        ListedAt(pairs, p.0, RetractionRank);
        assert p == (p.0, op);
        assert op in HistoryAt(m, p.0);
      }
      if op in OpsOfLists(m, m.Keys) {
        var k :| k in m && op in m[k];
        ListedAt(pairs, k, RetractionRank);
        assert op in HistoryAt(m, k);
        assert (k, op).1 in Seconds(pairs);
      }
    }
  }

  /** The retractions listed by target or by reference are those that name a target. */
  lemma TargetedMeaning(rs: set<Op>)
    requires UniqueOps(rs) && forall op :: op in rs ==> op.ClaimRetracted?
    ensures var m := RetractionsOf(rs);
            OpsOfLists(m.byTarget, m.byTarget.Keys) + OpsOfLists(m.byTargetRef, m.byTargetRef.Keys) == set op | op in rs && NamesTarget(op)
  {
    RetractionsDistinct(rs);
    ListedRetractions(TargetPairs(rs));
    ListedRetractions(TargetRefPairs(rs));
    forall op | op in rs && NamesTarget(op) ensures op in Seconds(TargetPairs(rs)) + Seconds(TargetRefPairs(rs)) {
      if op.target.Some? { assert (op.target.value, op) in TargetPairs(rs) && (op.target.value, op).1 == op; }
      if op.targetRef.Some? { assert (op.targetRef.value, op) in TargetRefPairs(rs) && (op.targetRef.value, op).1 == op; }
    }
  }

  lemma KeptMeaning(log: set<Op>, registry: Registry, op: Op, live: set<Id>, claimEvidence: set<Id>, targeted: set<Op>,
                    resolutionEvidence: set<Id>)
    requires op in log && UniqueOps(log)
    requires forall id :: id in live <==> IsLive(log, registry, id)
    requires forall e :: e in claimEvidence <==> CitedByClaim(log, registry, e)
    requires targeted == set x | x in log && NamesTarget(x)
    requires forall e :: e in resolutionEvidence <==> CitedByResolution(log, e)
    ensures IsKept(op, live, claimEvidence + EvidenceOf(targeted) + resolutionEvidence, IdsOf(targeted)) <==> Keeps(log, registry, op)
  {
    hide IsLive;
    hide CitedByClaim;
    hide CitedByResolution;
    match op
    case EvidenceAdded(_, _, _, e) =>
      assert e.id in EvidenceOf(targeted) <==> CitedByRetraction(log, e.id);
    case ClaimRetracted(id, _, _, _, _, _, _, _, _) =>
      if id in IdsOf(targeted) {
        var x :| x in targeted && x.opId == id;
        assert x == op;
      }
      if NamesTarget(op) { assert op in targeted; }
    case _ =>
  }

  lemma ClaimEvidenceMeaning(log: set<Op>, registry: Registry, e: Id)
    requires CollisionFree(log)
    ensures var byKey := StateOf(log, registry, UNSCOPED).activity.byKey;
            e in EvidenceOfLists(byKey, byKey.Keys) <==> CitedByClaim(log, registry, e)
  {
    var byKey := StateOf(log, registry, UNSCOPED).activity.byKey;
    hide StateOf;
    hide RecordsOf;
    if e in EvidenceOfLists(byKey, byKey.Keys) {
      var key, c :| key in byKey && c in byKey[key] && e in c.evidenceIds;
      LiveMeaning(log, registry, c.id);
    }
    if CitedByClaim(log, registry, e) {
      var id :| IsLive(log, registry, id) && e in RecordsOf(log).claims[id].evidenceIds;
      LiveMeaning(log, registry, id);
      var key, c :| key in byKey && c in byKey[key] && c.id == id;
    }
  }

  /** `compact_projection_equivalent`: raises when the log does not materialize, and otherwise keeps
      exactly the compacted log: no claim that a retraction names, and all that is needed of the rest. */
  method CompactOplog(ops: seq<Op>, registry: Registry) returns (r: Result<seq<Op>>)
    requires NoDuplicates(ops) && UniqueOps(Elements(ops))
    ensures r.Ok? <==> CollisionFree(Elements(ops))
    ensures r.Ok? ==> Elements(r.value) == Compacted(Elements(ops), registry) && NoDuplicates(r.value) && |r.value| <= |ops|
    ensures r.Ok? ==> forall op :: op in Elements(r.value) <==> op in Elements(ops) && StaysIn(Elements(ops), registry.rules, op)
  {
    ghost var log := Elements(ops);
    var full := Full.Materialize(ops, registry, UNSCOPED);
    if full.ValueError? { return ValueError; }
    var state := full.value;
    var live := LiveIds(state.activity.byKey);
    var claimEvidence := CollectClaimEvidence(state.activity.byKey);
    var byTarget, targetEvidence := CollectRetractions(state.retractions.byTarget);
    var byRef, refEvidence := CollectRetractions(state.retractions.byTargetRef);
    var resolutionEvidence := CollectResolutionEvidence(state.records.resolutions);
    var kept := KeepOps(ops, live, claimEvidence + (targetEvidence + refEvidence) + resolutionEvidence, byTarget + byRef);
    ChosenMeaning(log, registry, live, claimEvidence, byTarget, targetEvidence, byRef, refEvidence, resolutionEvidence, kept);
    AllKept(log, registry);
    r := Ok(kept);
  }

  lemma ChosenMeaning(log: set<Op>, registry: Registry, live: set<Id>, claimEvidence: set<Id>, byTarget: set<Id>, targetEvidence: set<Id>,
                      byRef: set<Id>, refEvidence: set<Id>, resolutionEvidence: set<Id>, kept: seq<Op>)
    requires CollisionFree(log) && UniqueOps(log)
    requires var s := StateOf(log, registry, UNSCOPED);
             live == LiveIds(s.activity.byKey) && claimEvidence == EvidenceOfLists(s.activity.byKey, s.activity.byKey.Keys)
             && byTarget == IdsOf(OpsOfLists(s.retractions.byTarget, s.retractions.byTarget.Keys))
             && targetEvidence == EvidenceOf(OpsOfLists(s.retractions.byTarget, s.retractions.byTarget.Keys))
             && byRef == IdsOf(OpsOfLists(s.retractions.byTargetRef, s.retractions.byTargetRef.Keys))
             && refEvidence == EvidenceOf(OpsOfLists(s.retractions.byTargetRef, s.retractions.byTargetRef.Keys))
             && resolutionEvidence == (set id, e | id in s.records.resolutions && e in s.records.resolutions[id].evidenceIds :: e)
    requires forall op :: op in kept <==> op in log && IsKept(op, live, claimEvidence + (targetEvidence + refEvidence) + resolutionEvidence, byTarget + byRef)
    ensures Elements(kept) == Compacted(log, registry)
  {
    var s, targeted := StateOf(log, registry, UNSCOPED), set x | x in log && NamesTarget(x);
    hide OpsOfLists;
    StateTables(log, registry);
    TargetedOfLog(log);
    hide StateOf;
    hide CollisionFree;
    hide IsLive;
    hide RetractionsOf;
    hide LiveIds;
    hide EvidenceOfLists;
    hide CitedByClaim;
    hide CitedByResolution;
    hide Keeps;
    hide IsKept;
    TargetedUnion(OpsOfLists(s.retractions.byTarget, s.retractions.byTarget.Keys),
                  OpsOfLists(s.retractions.byTargetRef, s.retractions.byTargetRef.Keys));
    forall id ensures id in live <==> IsLive(log, registry, id) { LiveMeaning(log, registry, id); }
    forall e ensures e in claimEvidence <==> CitedByClaim(log, registry, e) { ClaimEvidenceMeaning(log, registry, e); }
    assert claimEvidence + (targetEvidence + refEvidence) + resolutionEvidence
           == claimEvidence + EvidenceOf(targeted) + resolutionEvidence;
    ResolutionEvidenceMeaning(log, s.records.resolutions, resolutionEvidence);
    KeptAreCompacted(log, registry, live, claimEvidence, targeted, resolutionEvidence, kept);
  }

  lemma TargetedOfLog(log: set<Op>)
    requires UniqueOps(log)
    ensures var m := RetractionsOf(RetractionsIn(log));
            OpsOfLists(m.byTarget, m.byTarget.Keys) + OpsOfLists(m.byTargetRef, m.byTargetRef.Keys) == set op | op in log && NamesTarget(op)
  {
    assert RetractionsIn(log) <= log;
    TargetedMeaning(RetractionsIn(log));
    hide RetractionsOf;
    hide OpsOfLists;
    assert (set op | op in log && NamesTarget(op)) == set op | op in RetractionsIn(log) && NamesTarget(op);
  }

  lemma ResolutionEvidenceMeaning(log: set<Op>, resolutions: map<Id, Resolution>, evidence: set<Id>)
    requires resolutions == RecordsOf(log).resolutions
    requires evidence == set id, e | id in resolutions && e in resolutions[id].evidenceIds :: e
    ensures forall e :: e in evidence <==> CitedByResolution(log, e)
  {
    hide RecordsOf;
  }

  lemma KeptAreCompacted(log: set<Op>, registry: Registry, live: set<Id>, claimEvidence: set<Id>, targeted: set<Op>,
                         resolutionEvidence: set<Id>, kept: seq<Op>)
    requires UniqueOps(log) && targeted == set x | x in log && NamesTarget(x)
    requires forall id :: id in live <==> IsLive(log, registry, id)
    requires forall e :: e in claimEvidence <==> CitedByClaim(log, registry, e)
    requires forall e :: e in resolutionEvidence <==> CitedByResolution(log, e)
    requires forall op :: op in kept <==> op in log && IsKept(op, live, claimEvidence + EvidenceOf(targeted) + resolutionEvidence, IdsOf(targeted))
    ensures Elements(kept) == Compacted(log, registry)
  {
    hide IsLive;
    hide CitedByClaim;
    hide CitedByResolution;
    hide IsKept;
    hide Keeps;
    hide UniqueOps;
    forall op | op in log
      ensures IsKept(op, live, claimEvidence + EvidenceOf(targeted) + resolutionEvidence, IdsOf(targeted)) <==> Keeps(log, registry, op)
    {
      KeptMeaning(log, registry, op, live, claimEvidence, targeted, resolutionEvidence);
    }
  }

  lemma TargetedUnion(a: set<Op>, b: set<Op>)
    ensures IdsOf(a + b) == IdsOf(a) + IdsOf(b) && EvidenceOf(a + b) == EvidenceOf(a) + EvidenceOf(b)
  {
  }

  lemma StateTables(log: set<Op>, registry: Registry)
    ensures StateOf(log, registry, UNSCOPED).records == RecordsOf(log)
    ensures StateOf(log, registry, UNSCOPED).retractions == RetractionsOf(RetractionsIn(log))
  {
    hide RecordsOf;
    hide RetractionsOf;
    hide ActivityOf;
    hide HistoriesOf;
    hide FoldOf;
    hide TablesOf;
  }
}
