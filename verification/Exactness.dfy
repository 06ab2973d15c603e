/** The projected delta is the difference of the two full projections. */
module Exactness {
  import opened Basics
  import opened Model
  import opened Lifecycle
  import opened State
  import opened Tables
  import opened Affected
  import opened Refresh
  import opened Offmarks
  import opened Refold
  import opened Materialize
  import opened Incremental
  import opened Deltas
  import opened Projection

  /** What the argument needs of a reached state. */
  ghost predicate Tabled(s: MemoryState, registry: Registry) {
    && WellFiled(s.records) && s.activity.inapplicable == {}
    && DirectTables(s, FindingsIn(s, registry))
    && s.lifecycle == FoldOf(FoldInputs(s.records, HistoriesOf(s.records), s.findings.byRef, None))
  }

  lemma ReachedTabled(s: MemoryState, ops: set<Op>, registry: Registry)
    requires Reached(s, ops, registry)
    ensures Tabled(s, registry)
  {
    ReachedParts(s, ops, registry);
    hide Reached;
    hide FoldOf;
    FindingsDirect(s, registry);
    hide WellFiled;
    hide DirectTables;
    hide FindingsIn;
    hide HistoriesOf;
  }

  lemma FindingsDirect(s: MemoryState, registry: Registry)
    requires WellFiled(s.records) && s.findings == TablesOf(FindingsIn(s, registry))
    ensures DirectTables(s, FindingsIn(s, registry))
  {
    var cs, side := FindingsIn(s, registry), SideOf(BaseOfState(s));
    ActivityLists(s.records.claims, s.activity.inactive, UNSCOPED);
    ActivityListed(s.records.claims, s.activity.inactive, UNSCOPED);
    SideOnePerKey(side, registry, ClaimKey("", "", ""));
    FindingsInjective(side.byKey, side.byKey.Keys, side.facts, registry);
    forall c, x | c in cs && x in c.candidates
      ensures x.id in s.records.claims && s.records.claims[x.id] == x && x.key == c.key
    {
      FindingAtIdentity(side.byKey, c.key, side.facts, registry);
      assert AllIn(side.byKey[c.key], s.records.claims) && KeyList(side.byKey[c.key], c.key);
    }
  }

  // ---------------------------------------------------------------- what the delta says of findings

  /** Two sets of findings, and a delta that names everything they differ in. */
  ghost predicate FindingsDiffer(a: set<ConflictSet>, b: set<ConflictSet>, d: Delta) {
    && OnePerKey(a) && OnePerKey(b)
    && (forall c: ConflictSet :: c.key !in d.keys ==> (c in a <==> c in b))
    && IdsAmong(a, d.keys) + IdsAmong(b, d.keys) <= d.previous + d.current
    && RefsAmong(a, d.keys) + RefsAmong(b, d.keys) <= d.refs
    && CandidatesAmong(a, d.keys) + CandidatesAmong(b, d.keys) <= d.claims
  }

  lemma CoversFindings(s: MemoryState, t: MemoryState, d: Delta, registry: Registry)
    requires Tabled(s, registry) && Tabled(t, registry) && DeltaCovers(d, s, t, registry)
    ensures FindingsDiffer(FindingsIn(s, registry), FindingsIn(t, registry), d)
    ensures s.findings == TablesOf(FindingsIn(s, registry)) && t.findings == TablesOf(FindingsIn(t, registry))
  {
    hide FindingsIn;
    hide Covered;
    hide TablesOf;
    hide FoldOf;
    hide HistoriesOf;
    hide WellFiled;
    hide IdsAmong;
    hide RefsAmong;
    hide CandidatesAmong;
    hide ResolutionsOn;
    hide OnePerKey;
    forall c: ConflictSet ensures c.key !in d.keys ==> (c in FindingsIn(s, registry) <==> c in FindingsIn(t, registry)) {
      KeptOffMarks(s, t, registry, d.Marked(), c);
    }
  }

  /** What the delta says of records. */
  lemma CoversRecords(s: MemoryState, t: MemoryState, d: Delta, registry: Registry)
    requires DeltaCovers(d, s, t, registry)
    ensures Covered(BaseOfState(s), BaseOfState(t), d.Marked()) && Grows(BaseOfState(s), BaseOfState(t))
    ensures ResolutionsOn(t.records.resolutions, d.refs) <= d.resolutions
  {
    hide FindingsIn;
    hide KeysCovered;
    hide ClaimsCovered;
    hide RefsCovered;
    hide ResolutionsCovered;
    hide Grows;
    hide ResolutionsOn;
  }

  // ---------------------------------------------------------------- claims

  lemma ClaimConflictsKept(a: set<ConflictSet>, b: set<ConflictSet>, d: Delta, id: Id)
    requires FindingsDiffer(a, b, d) && id !in d.claims
    ensures ConflictsOfClaim(ById(a, ConflictIdOf), id) == ConflictsOfClaim(ById(b, ConflictIdOf), id)
  {
    var m, n := ById(a, ConflictIdOf), ById(b, ConflictIdOf);
    OnePerKeyInjective(a);
    OnePerKeyInjective(b);
    forall cid ensures cid in ConflictsOfClaim(m, id) <==> cid in ConflictsOfClaim(n, id) {
      ByIdEntry(a, ConflictIdOf, cid);
      ByIdEntry(b, ConflictIdOf, cid);
      if cid in ConflictsOfClaim(m, id) {
        NotAmong(a, d.keys, m[cid], id);
        assert ConflictIdOf(m[cid]) == cid;
      }
      if cid in ConflictsOfClaim(n, id) {
        NotAmong(b, d.keys, n[cid], id);
        assert ConflictIdOf(n[cid]) == cid;
      }
    }
  }

  /** A finding with this candidate on a marked key would have marked the candidate. */
  lemma NotAmong(cs: set<ConflictSet>, keys: set<ClaimKey>, c: ConflictSet, id: Id)
    requires c in cs && HasCandidate(c, id)
    ensures c.key in keys ==> id in CandidatesAmong(cs, keys)
  {
    var x :| x in c.candidates && x.id == id;
  }

  lemma LiveKept(s: MemoryState, t: MemoryState, claims: set<Id>, namespace: Name, id: Id)
    requires Grows(BaseOfState(s), BaseOfState(t)) && ClaimsCovered(BaseOfState(s), BaseOfState(t), claims) && id !in claims
    requires s.activity.inapplicable == {} && t.activity.inapplicable == {}
    ensures IsLiveClaim(s, id, namespace) <==> IsLiveClaim(t, id, namespace)
    ensures IsLiveClaim(s, id, namespace) ==> s.records.claims[id] == t.records.claims[id]
  {
    assert id in t.records.claims ==> SameClaim(BaseOfState(s), BaseOfState(t), id);
  }

  lemma Unscoped(s: MemoryState, registry: Registry)
    requires Tabled(s, registry)
    ensures s.activity.inapplicable == {} && WellFiled(s.records)
    ensures s.lifecycle == FoldOf(FoldInputs(s.records, HistoriesOf(s.records), s.findings.byRef, None))
  {
    hide WellFiled;
    hide DirectTables;
    hide FoldOf;
    hide HistoriesOf;
  }

  lemma ClaimKept(s: MemoryState, t: MemoryState, d: Delta, registry: Registry, namespace: Name, id: Id)
    requires Tabled(s, registry) && Tabled(t, registry) && DeltaCovers(d, s, t, registry)
    requires id !in d.claims
    ensures ProjectedAt(s, namespace, ClaimProjection(id)) == ProjectedAt(t, namespace, ClaimProjection(id))
  {
    hide Tabled;
    hide DeltaCovers;
    hide FindingsDiffer;
    hide FindingsIn;
    hide ConflictsOfClaim;
    hide KeysCovered;
    hide RefsCovered;
    hide ResolutionsCovered;
    hide ClaimsCovered;
    hide Grows;
    hide ById;
    hide WellFiled;
    hide FoldOf;
    CoversFindings(s, t, d, registry);
    ClaimConflictsKept(FindingsIn(s, registry), FindingsIn(t, registry), d, id);
    Unscoped(s, registry);
    Unscoped(t, registry);
    CoversRecords(s, t, d, registry);
    LiveKept(s, t, d.claims, namespace, id);
    hide IsLiveClaim;
  }

  // ---------------------------------------------------------------- lanes

  lemma RefKept(s: MemoryState, t: MemoryState, d: Delta, registry: Registry, ref: ConflictRef)
    requires Tabled(s, registry) && Tabled(t, registry) && DeltaCovers(d, s, t, registry)
    requires ref !in d.refs
    ensures SameAtRef(s.findings.byRef, t.findings.byRef, ref)
  {
    hide Tabled;
    hide DeltaCovers;
    hide FindingsIn;
    CoversFindings(s, t, d, registry);
    SameRef(FindingsIn(s, registry), FindingsIn(t, registry), d.keys, d.refs, ref);
  }

  lemma StatusKept(s: MemoryState, t: MemoryState, d: Delta, registry: Registry, lane: Lane, default: Status)
    requires Tabled(s, registry) && Tabled(t, registry) && DeltaCovers(d, s, t, registry)
    requires lane.ref !in d.refs
    ensures StatusOr(s, lane, default) == StatusOr(t, lane, default)
  {
    hide Tabled;
    hide DeltaCovers;
    hide Covered;
    hide HistoriesOf;
    hide WellFiled;
    hide FoldOf;
    hide HasStatus;
    hide StatusAt;
    RefKept(s, t, d, registry, lane.ref);
    CoversRecords(s, t, d, registry);
    Unscoped(s, registry);
    Unscoped(t, registry);
    var after := FoldInputs(t.records, HistoriesOf(t.records), t.findings.byRef, None);
    LaneKept(BaseOfState(s), BaseOfState(t), d.Marked(), lane, s.findings.byRef, t.findings.byRef, s.lifecycle);
    FoldMatches(after, lane);
  }

  // ---------------------------------------------------------------- findings

  lemma SameById(a: set<ConflictSet>, b: set<ConflictSet>, d: Delta, cid: ConflictId)
    requires FindingsDiffer(a, b, d) && cid !in d.previous + d.current
    ensures var m, n := ById(a, ConflictIdOf), ById(b, ConflictIdOf);
            (cid in m <==> cid in n) && (cid in m ==> m[cid] == n[cid])
  {
    OnePerKeyInjective(a);
    OnePerKeyInjective(b);
    ByIdEntry(a, ConflictIdOf, cid);
    ByIdEntry(b, ConflictIdOf, cid);
    hide ById;
    forall c: ConflictSet | ConflictIdOf(c) == cid && (c in a || c in b) ensures c in a && c in b {
      IdMarked(a, d.keys, c);
      IdMarked(b, d.keys, c);
    }
  }

  lemma IdMarked(cs: set<ConflictSet>, keys: set<ClaimKey>, c: ConflictSet)
    ensures c in cs && c.key in keys ==> c.id in IdsAmong(cs, keys)
  {
  }

  lemma FindingKept(s: MemoryState, t: MemoryState, d: Delta, registry: Registry, namespace: Name, cid: ConflictId)
    requires Tabled(s, registry) && Tabled(t, registry) && DeltaCovers(d, s, t, registry)
    requires cid !in d.previous + d.current
    requires cid in t.findings.byId ==> t.findings.byId[cid].ref !in d.refs
    ensures ProjectedAt(s, namespace, ConflictProjection(cid)) == ProjectedAt(t, namespace, ConflictProjection(cid))
  {
    hide Tabled;
    hide DeltaCovers;
    hide FindingsIn;
    hide FindingsDiffer;
    hide ById;
    hide StatusOr;
    hide InNamespace;
    CoversFindings(s, t, d, registry);
    SameById(FindingsIn(s, registry), FindingsIn(t, registry), d, cid);
    if cid in t.findings.byId {
      StatusKept(s, t, d, registry, Lane(t.findings.byId[cid].ref, None), Open);
    }
  }

  // ---------------------------------------------------------------- resolutions

  lemma ResolutionSame(s: MemoryState, t: MemoryState, d: Delta, registry: Registry, rid: Id)
    requires DeltaCovers(d, s, t, registry) && rid !in d.resolutions
    ensures rid in s.records.resolutions <==> rid in t.records.resolutions
    ensures rid in t.records.resolutions ==>
              s.records.resolutions[rid] == t.records.resolutions[rid]
              && SameKnownClaims(t.records.resolutions[rid], s.records, t.records)
              && t.records.resolutions[rid].conflictRef !in d.refs
  {
    CoversRecords(s, t, d, registry);
    hide DeltaCovers;
    hide KeysCovered;
    hide ClaimsCovered;
    hide RefsCovered;
    hide SameKnownClaims;
    if rid in t.records.resolutions {
      assert SameResolution(s.records, t.records, rid);
    }
    if rid in s.records.resolutions {
      assert SameResolution(s.records, t.records, rid);
    }
  }

  lemma ResolutionKept(s: MemoryState, t: MemoryState, d: Delta, registry: Registry, namespace: Name, rid: Id)
    requires Tabled(s, registry) && Tabled(t, registry) && DeltaCovers(d, s, t, registry)
    requires rid !in d.resolutions
    ensures ProjectedAt(s, namespace, ResolutionProjection(rid)) == ProjectedAt(t, namespace, ResolutionProjection(rid))
  {
    hide Tabled;
    hide DeltaCovers;
    hide Covered;
    hide Grows;
    hide StatusOr;
    hide ConcernsNamespace;
    hide SameKnownClaims;
    ResolutionSame(s, t, d, registry, rid);
    if rid in t.records.resolutions {
      var r := t.records.resolutions[rid];
      CoversRecords(s, t, d, registry);
      StatusKept(s, t, d, registry, LaneOfResolution(r), Resolved);
      SameConcern(s, t, r, namespace);
    }
  }

  lemma SameConcern(s: MemoryState, t: MemoryState, r: Resolution, namespace: Name)
    requires Grows(BaseOfState(s), BaseOfState(t)) && SameKnownClaims(r, s.records, t.records)
    ensures ConcernsNamespace(s.records.claims, r, namespace) <==> ConcernsNamespace(t.records.claims, r, namespace)
  {
    forall id | id in r.Classified() ensures KnownHere(s.records.claims, id, namespace) <==> KnownHere(t.records.claims, id, namespace) {}
  }

  // ---------------------------------------------------------------- the whole projection

  /** What the delta did not touch projects as before. */
  lemma UntouchedKept(s: MemoryState, t: MemoryState, d: Delta, registry: Registry, namespace: Name, p: ProjectionId)
    requires Tabled(s, registry) && Tabled(t, registry) && DeltaCovers(d, s, t, registry)
    requires !Touched(t, d, p)
    ensures ProjectedAt(s, namespace, p) == ProjectedAt(t, namespace, p)
  {
    hide Tabled;
    hide DeltaCovers;
    hide ProjectedAt;
    match p
    case ClaimProjection(id) => ClaimKept(s, t, d, registry, namespace, id);
    case ConflictProjection(cid) => FindingKept(s, t, d, registry, namespace, cid);
    case ResolutionProjection(rid) => ResolutionKept(s, t, d, registry, namespace, rid);
  }

  lemma ClaimGone(s: MemoryState, t: MemoryState, d: Delta, registry: Registry, namespace: Name, id: Id)
    requires Tabled(s, registry) && DeltaCovers(d, s, t, registry)
    requires id in d.claims && !IsLiveClaim(t, id, namespace)
    ensures Gone(t, d, namespace, ClaimProjection(id)) || !IsLiveClaim(s, id, namespace)
  {
    hide DeltaCovers;
    hide Tabled;
    hide Covered;
    hide SameResolution;
    hide SameEvent;
    CoversRecords(s, t, d, registry);
    Unscoped(s, registry);
  }

  lemma ConflictGone(s: MemoryState, t: MemoryState, d: Delta, registry: Registry, namespace: Name, cid: ConflictId)
    requires Tabled(s, registry) && Tabled(t, registry) && DeltaCovers(d, s, t, registry)
    requires ProjectedAt(t, namespace, ConflictProjection(cid)).None?
    ensures Gone(t, d, namespace, ConflictProjection(cid)) || ProjectedAt(s, namespace, ConflictProjection(cid)).None?
  {
    hide Tabled;
    hide DeltaCovers;
    hide StatusOr;
    if cid in t.findings.byId && cid in s.findings.byId { SameKeys(s, t, registry, cid); }
    if cid !in t.findings.byId { GoneFinding(s, t, d, registry, cid); }
  }

  lemma ResolutionGone(s: MemoryState, t: MemoryState, d: Delta, registry: Registry, namespace: Name, rid: Id)
    requires DeltaCovers(d, s, t, registry)
    requires ProjectedAt(t, namespace, ResolutionProjection(rid)).None?
    ensures ProjectedAt(s, namespace, ResolutionProjection(rid)).None?
  {
    hide DeltaCovers;
    hide Covered;
    hide ConcernsNamespace;
    hide StatusOr;
    hide KnownHere;
    hide ResolutionsOn;
    CoversRecords(s, t, d, registry);
    if rid in s.records.resolutions {
      assert SameResolution(s.records, t.records, rid);
      GrownConcern(s, t, s.records.resolutions[rid], namespace);
    }
  }

  /** What was touched and projects no longer is deleted, or never projected. */
  lemma TouchedGone(s: MemoryState, t: MemoryState, d: Delta, registry: Registry, namespace: Name, p: ProjectionId)
    requires Tabled(s, registry) && Tabled(t, registry) && DeltaCovers(d, s, t, registry)
    requires Touched(t, d, p) && ProjectedAt(t, namespace, p).None?
    ensures Gone(t, d, namespace, p) || ProjectedAt(s, namespace, p).None?
  {
    hide Tabled;
    hide DeltaCovers;
    hide Gone;
    hide IsLiveClaim;
    hide ConflictsOfClaim;
    match p
    case ClaimProjection(id) => ClaimGone(s, t, d, registry, namespace, id);
    case ConflictProjection(cid) => ConflictGone(s, t, d, registry, namespace, cid);
    case ResolutionProjection(rid) => ResolutionGone(s, t, d, registry, namespace, rid);
  }

  lemma GrownConcern(s: MemoryState, t: MemoryState, r: Resolution, namespace: Name)
    requires Grows(BaseOfState(s), BaseOfState(t))
    ensures ConcernsNamespace(s.records.claims, r, namespace) ==> ConcernsNamespace(t.records.claims, r, namespace)
  {
    forall id | id in r.Classified() && KnownHere(s.records.claims, id, namespace) ensures KnownHere(t.records.claims, id, namespace) {}
  }

  /** One identifier, one key: a finding's namespace never changes. */
  lemma SameKeys(s: MemoryState, t: MemoryState, registry: Registry, cid: ConflictId)
    requires Tabled(s, registry) && Tabled(t, registry) && cid in s.findings.byId && cid in t.findings.byId
    ensures s.findings.byId[cid].keys == t.findings.byId[cid].keys
  {
    ByIdValues(FindingsIn(s, registry), ConflictIdOf, cid);
    ByIdValues(FindingsIn(t, registry), ConflictIdOf, cid);
    hide FindingsIn;
    assert DirectOn(s.findings.byId[cid], s.findings.byId[cid].key) && DirectOn(t.findings.byId[cid], t.findings.byId[cid].key);
  }

  /** A finding that is gone is named by the delta, unless it was not there before either. */
  lemma GoneFinding(s: MemoryState, t: MemoryState, d: Delta, registry: Registry, cid: ConflictId)
    requires Tabled(s, registry) && Tabled(t, registry) && DeltaCovers(d, s, t, registry)
    requires cid !in t.findings.byId
    ensures cid in s.findings.byId ==> cid in d.previous + d.current
  {
    hide Tabled;
    hide DeltaCovers;
    hide FindingsIn;
    hide FindingsDiffer;
    hide ById;
    CoversFindings(s, t, d, registry);
    if cid !in d.previous + d.current {
      SameById(FindingsIn(s, registry), FindingsIn(t, registry), d, cid);
    }
  }

  lemma DeltaExactAt(s: MemoryState, t: MemoryState, d: Delta, registry: Registry, namespace: Name,
                     was: map<ProjectionId, RetrievalRecord>, upserts: map<ProjectionId, RetrievalRecord>,
                     deletes: set<ProjectionId>, p: ProjectionId)
    requires Tabled(s, registry) && Tabled(t, registry) && DeltaCovers(d, s, t, registry)
    requires IsProjection(was, s, namespace) && ProjectsDelta(upserts, deletes, t, d, namespace)
    ensures AgreesAt((was - deletes) + upserts, t, namespace, p)
  {
    hide Tabled;
    hide DeltaCovers;
    hide ProjectedAt;
    hide IsProjection;
    hide ProjectsDelta;
    hide Touched;
    hide Gone;
    AgreesHere(was, s, namespace, p);
    DeltaHere(upserts, deletes, t, d, namespace, p);
    if !Touched(t, d, p) {
      UntouchedKept(s, t, d, registry, namespace, p);
      GoneIsTouched(t, d, namespace, p);
    } else if ProjectedAt(t, namespace, p).None? {
      TouchedGone(s, t, d, registry, namespace, p);
    }
    GoneIsAbsent(t, d, namespace, p);
  }

  lemma GoneIsAbsent(t: MemoryState, d: Delta, namespace: Name, p: ProjectionId)
    ensures Gone(t, d, namespace, p) ==> ProjectedAt(t, namespace, p).None?
  {
  }

  lemma AgreesHere(m: map<ProjectionId, RetrievalRecord>, state: MemoryState, namespace: Name, p: ProjectionId)
    requires IsProjection(m, state, namespace)
    ensures AgreesAt(m, state, namespace, p)
  {
  }

  lemma DeltaHere(upserts: map<ProjectionId, RetrievalRecord>, deletes: set<ProjectionId>, t: MemoryState, d: Delta,
                  namespace: Name, p: ProjectionId)
    requires ProjectsDelta(upserts, deletes, t, d, namespace)
    ensures DeltaAt(upserts, deletes, t, d, namespace, p)
  {
    hide ProjectedAt;
    hide Touched;
    hide Gone;
  }

  lemma GoneIsTouched(t: MemoryState, d: Delta, namespace: Name, p: ProjectionId)
    ensures Gone(t, d, namespace, p) ==> Touched(t, d, p)
  {
  }

  /** Removing the deletes from the earlier projection and overlaying the upserts gives exactly the
      projection now, in every namespace. */
  lemma ProjectionDeltaExact(s: MemoryState, t: MemoryState, d: Delta, registry: Registry, namespace: Name,
                             was: map<ProjectionId, RetrievalRecord>, upserts: map<ProjectionId, RetrievalRecord>,
                             deletes: set<ProjectionId>, now: map<ProjectionId, RetrievalRecord>)
    requires Tabled(s, registry) && Tabled(t, registry) && DeltaCovers(d, s, t, registry)
    requires IsProjection(was, s, namespace) && ProjectsDelta(upserts, deletes, t, d, namespace)
    ensures IsProjection((was - deletes) + upserts, t, namespace) && deletes !! upserts.Keys
    ensures IsProjection(now, t, namespace) ==> now == (was - deletes) + upserts
  {
    hide Tabled;
    hide DeltaCovers;
    hide AgreesAt;
    hide ProjectsDelta;
    forall p ensures AgreesAt((was - deletes) + upserts, t, namespace, p) {
      DeltaExactAt(s, t, d, registry, namespace, was, upserts, deletes, p);
    }
    DeletesApart(upserts, deletes, t, d, namespace);
    if IsProjection(now, t, namespace) {
      ProjectionUnique(now, (was - deletes) + upserts, t, namespace);
    }
  }

  /** Two sets of records agree on every identifier outside a given set. */
  ghost predicate AgreeOutside(a: map<ProjectionId, RetrievalRecord>, b: map<ProjectionId, RetrievalRecord>, named: set<ProjectionId>) {
    forall p :: p !in named ==> (p in a <==> p in b) && (p in a ==> a[p] == b[p])
  }

  /** A reader holding any records has exactly the projection now, after taking the changes, if and
      only if, outside what the changes name, it held the projection of the state the delta was folded
      from. */
  lemma ExactForReader(base: MemoryState, t: MemoryState, d: Delta, registry: Registry, namespace: Name,
                       was: map<ProjectionId, RetrievalRecord>, folded: map<ProjectionId, RetrievalRecord>,
                       upserts: map<ProjectionId, RetrievalRecord>, deletes: set<ProjectionId>,
                       now: map<ProjectionId, RetrievalRecord>)
    requires Tabled(base, registry) && Tabled(t, registry) && DeltaCovers(d, base, t, registry)
    requires IsProjection(folded, base, namespace) && IsProjection(now, t, namespace)
    requires ProjectsDelta(upserts, deletes, t, d, namespace)
    ensures (was - deletes) + upserts == now <==> AgreeOutside(was, folded, deletes + upserts.Keys)
  {
    ProjectionDeltaExact(base, t, d, registry, namespace, folded, upserts, deletes, now);
    hide IsProjection;
    hide ProjectsDelta;
    OverlayAgrees(was, folded, upserts, deletes);
  }

  lemma OverlayAgrees(a: map<ProjectionId, RetrievalRecord>, b: map<ProjectionId, RetrievalRecord>,
                      upserts: map<ProjectionId, RetrievalRecord>, deletes: set<ProjectionId>)
    ensures (a - deletes) + upserts == (b - deletes) + upserts <==> AgreeOutside(a, b, deletes + upserts.Keys)
  {
    var x, y := (a - deletes) + upserts, (b - deletes) + upserts;
    forall p | p !in deletes + upserts.Keys
      ensures (p in x <==> p in a) && (p in y <==> p in b) && (p in a ==> x[p] == a[p]) && (p in b ==> y[p] == b[p])
    {
    }
    if AgreeOutside(a, b, deletes + upserts.Keys) {
      forall p ensures (p in x <==> p in y) && (p in x ==> x[p] == y[p]) {}
      assert x.Keys == y.Keys;
    }
  }

  lemma DeletesApart(upserts: map<ProjectionId, RetrievalRecord>, deletes: set<ProjectionId>, t: MemoryState, d: Delta, namespace: Name)
    requires ProjectsDelta(upserts, deletes, t, d, namespace)
    ensures deletes !! upserts.Keys
  {
    hide ProjectedAt;
    hide Touched;
    hide Gone;
    forall p | p in deletes ensures p !in upserts { GoneIsAbsent(t, d, namespace, p); }
  }

  /** A record carries the identifier it is filed under. */
  lemma ProjectedIds(m: map<ProjectionId, RetrievalRecord>, state: MemoryState, registry: Registry, namespace: Name)
    requires Tabled(state, registry)
    requires forall p :: p in m ==> Some(m[p]) == ProjectedAt(state, namespace, p)
    ensures forall p :: p in m ==> m[p].id == p
  {
    Unscoped(state, registry);
    forall p | p in m ensures m[p].id == p {
      ProjectedId(state, registry, namespace, p);
    }
  }

  lemma ProjectedId(state: MemoryState, registry: Registry, namespace: Name, p: ProjectionId)
    requires Tabled(state, registry) && ProjectedAt(state, namespace, p).Some?
    ensures ProjectedAt(state, namespace, p).value.id == p
  {
    Unscoped(state, registry);
    if p.ConflictProjection? {
      ByIdValues(FindingsIn(state, registry), ConflictIdOf, p.conflict);
    }
    hide Tabled;
    hide ConflictsOfClaim;
    hide StatusOr;
    hide ConcernsNamespace;
  }
}
