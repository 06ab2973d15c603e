/** The retrieval records a state projects to, and the projection of a materialization delta. */
module Projection {
  import opened Basics
  import opened Model
  import opened Lifecycle
  import opened State
  import opened Refresh
  import opened Incremental

  datatype ProjectionId = ClaimProjection(claim: Id) | ConflictProjection(conflict: ConflictId) | ResolutionProjection(resolution: Id)

  /** What a record's text and metadata are rendered from. */
  datatype Content =
    | ClaimContent(claim: Claim)
    | ConflictContent(finding: ConflictSet, status: Status)
    | ResolutionContent(resolution: Resolution, status: Status)

  datatype RetrievalRecord = RetrievalRecord(id: ProjectionId, namespace: Name, conflictIds: set<ConflictId>, content: Content)

  function StatusOr(state: MemoryState, lane: Lane, default: Status): Status {
    if lane in state.lifecycle.statuses then state.lifecycle.statuses[lane] else default
  }

  predicate InNamespace(c: ConflictSet, namespace: Name) { exists key :: key in c.keys && key.namespace == namespace }

  predicate HasCandidate(c: ConflictSet, id: Id) { id in c.CandidateIds() }

  function ClaimRecord(claim: Claim, conflictIds: set<ConflictId>): RetrievalRecord {
    RetrievalRecord(ClaimProjection(claim.id), claim.key.namespace, conflictIds, ClaimContent(claim))
  }

  /** What a record says of a finding: everything but the list of its distinct values. */
  function Rendered(c: ConflictSet): ConflictSet { c.(distinctValues := []) }

  function ConflictRecord(state: MemoryState, c: ConflictSet, namespace: Name): RetrievalRecord {
    RetrievalRecord(ConflictProjection(c.id), namespace, {c.id}, ConflictContent(Rendered(c), StatusOr(state, Lane(c.ref, None), Open)))
  }

  predicate KnownHere(claims: map<Id, Claim>, id: Id, namespace: Name) { id in claims && claims[id].key.namespace == namespace }

  predicate ConcernsNamespace(claims: map<Id, Claim>, r: Resolution, namespace: Name) {
    exists id :: id in r.Classified() && KnownHere(claims, id, namespace)
  }

  /** A resolution is projected into the namespaces of the claims it classifies. */
  function ResolutionRecord(state: MemoryState, r: Resolution, namespace: Name): Option<RetrievalRecord> {
    if !ConcernsNamespace(state.records.claims, r, namespace) then None
    else Some(RetrievalRecord(ResolutionProjection(r.id), namespace, {r.observedConflictId},
                              ResolutionContent(r, StatusOr(state, LaneOfResolution(r), Resolved))))
  }

  // ---------------------------------------------------------------- the projection, record by record

  ghost function ConflictsOfClaim(byId: map<ConflictId, ConflictSet>, id: Id): set<ConflictId> {
    set cid | cid in byId && HasCandidate(byId[cid], id)
  }

  predicate IsLiveClaim(state: MemoryState, id: Id, namespace: Name) {
    KnownHere(state.records.claims, id, namespace) && id !in state.activity.inactive && id !in state.activity.inapplicable
  }

  ghost function ProjectedAt(state: MemoryState, namespace: Name, p: ProjectionId): Option<RetrievalRecord> {
    match p
    case ClaimProjection(id) =>
      if IsLiveClaim(state, id, namespace)
      then Some(ClaimRecord(state.records.claims[id], ConflictsOfClaim(state.findings.byId, id))) else None
    case ConflictProjection(cid) =>
      if cid in state.findings.byId && InNamespace(state.findings.byId[cid], namespace)
      then Some(ConflictRecord(state, state.findings.byId[cid], namespace)) else None
    case ResolutionProjection(rid) =>
      if rid in state.records.resolutions then ResolutionRecord(state, state.records.resolutions[rid], namespace) else None
  }

  ghost predicate AgreesAt(m: map<ProjectionId, RetrievalRecord>, state: MemoryState, namespace: Name, p: ProjectionId) {
    (if p in m then Some(m[p]) else None) == ProjectedAt(state, namespace, p)
  }

  /** The records, by projection identifier, that `project_state` returns in identifier order. */
  ghost predicate IsProjection(m: map<ProjectionId, RetrievalRecord>, state: MemoryState, namespace: Name) {
    forall p :: AgreesAt(m, state, namespace, p)
  }

  lemma ProjectionUnique(m: map<ProjectionId, RetrievalRecord>, n: map<ProjectionId, RetrievalRecord>, state: MemoryState, namespace: Name)
    requires IsProjection(m, state, namespace) && IsProjection(n, state, namespace)
    ensures m == n
  {
    hide ProjectedAt;
    forall p ensures (p in m <==> p in n) && (p in m ==> m[p] == n[p]) {
      assert AgreesAt(m, state, namespace, p) && AgreesAt(n, state, namespace, p);
    }
    assert m.Keys == n.Keys;
  }

  // ---------------------------------------------------------------- what the records say

  /** The status of a lane, or a default for a lane that has none. */
  ghost predicate BearsStatus(state: MemoryState, lane: Lane, status: Status, default: Status) {
    if lane in state.lifecycle.statuses then status == state.lifecycle.statuses[lane] else status == default
  }

  /** A record of a claim: the claim, and the standing findings that list it as a candidate. */
  ghost predicate SaysClaim(x: RetrievalRecord, state: MemoryState, namespace: Name, id: Id)
    requires id in state.records.claims
  {
    && x.namespace == namespace && x.content == ClaimContent(state.records.claims[id])
    && forall cid :: cid in x.conflictIds <==> cid in state.findings.byId && exists c :: c in state.findings.byId[cid].candidates && c.id == id
  }

  /** Exactly the live claims of the namespace have a record. */
  ghost predicate ShowsClaim(m: map<ProjectionId, RetrievalRecord>, state: MemoryState, namespace: Name, id: Id) {
    && (ClaimProjection(id) in m <==> id in state.records.claims && state.records.claims[id].key.namespace == namespace
                                      && id !in state.activity.inactive && id !in state.activity.inapplicable)
    && (ClaimProjection(id) in m ==> SaysClaim(m[ClaimProjection(id)], state, namespace, id))
  }

  /** A record of a finding: its identity, candidates, pairs and labels, and the status of its global
      lane, open if it has none. */
  ghost predicate SaysFinding(x: RetrievalRecord, state: MemoryState, namespace: Name, c: ConflictSet) {
    && x.namespace == namespace && x.conflictIds == {c.id} && x.content.ConflictContent?
    && var f := x.content.finding;
       f.id == c.id && f.ref == c.ref && f.key == c.key && f.keys == c.keys && f.candidates == c.candidates && f.pairs == c.pairs
       && f.annotations == c.annotations && f.conflictType == c.conflictType && f.detector == c.detector
       && f.conflictClass == c.conflictClass && f.conflictSubclass == c.conflictSubclass
       && BearsStatus(state, Lane(c.ref, None), x.content.status, Open)
  }

  /** Exactly the standing findings with a key in the namespace have a record. */
  ghost predicate ShowsFinding(m: map<ProjectionId, RetrievalRecord>, state: MemoryState, namespace: Name, cid: ConflictId) {
    && (ConflictProjection(cid) in m <==>
          cid in state.findings.byId && exists key :: key in state.findings.byId[cid].keys && key.namespace == namespace)
    && (ConflictProjection(cid) in m ==> SaysFinding(m[ConflictProjection(cid)], state, namespace, state.findings.byId[cid]))
  }

  /** A record of a resolution: the resolution, what it observed, and the status of its own lane,
      resolved if it has none. */
  ghost predicate SaysResolution(x: RetrievalRecord, state: MemoryState, namespace: Name, r: Resolution) {
    && x.namespace == namespace && x.conflictIds == {r.observedConflictId}
    && x.content.ResolutionContent? && x.content.resolution == r
    && BearsStatus(state, Lane(r.conflictRef, r.scope), x.content.status, Resolved)
  }

  ghost predicate Concerns(state: MemoryState, namespace: Name, r: Resolution) {
    exists id :: (id in r.selected || id in r.rejected || id in r.retained)
                 && id in state.records.claims && state.records.claims[id].key.namespace == namespace
  }

  /** Exactly the resolutions that classify some known claim of the namespace have a record. */
  ghost predicate ShowsResolution(m: map<ProjectionId, RetrievalRecord>, state: MemoryState, namespace: Name, rid: Id) {
    && (ResolutionProjection(rid) in m <==> rid in state.records.resolutions && Concerns(state, namespace, state.records.resolutions[rid]))
    && (ResolutionProjection(rid) in m ==> SaysResolution(m[ResolutionProjection(rid)], state, namespace, state.records.resolutions[rid]))
  }

  /** What a projection shows of a state in one namespace. */
  ghost predicate Shows(m: map<ProjectionId, RetrievalRecord>, state: MemoryState, namespace: Name) {
    && (forall id :: ShowsClaim(m, state, namespace, id))
    && (forall cid :: ShowsFinding(m, state, namespace, cid))
    && (forall rid :: ShowsResolution(m, state, namespace, rid))
  }

  lemma ClaimShown(m: map<ProjectionId, RetrievalRecord>, state: MemoryState, namespace: Name, id: Id)
    requires AgreesAt(m, state, namespace, ClaimProjection(id))
    ensures ShowsClaim(m, state, namespace, id)
  {
    forall cid | cid in state.findings.byId
      ensures cid in ConflictsOfClaim(state.findings.byId, id) <==> exists c :: c in state.findings.byId[cid].candidates && c.id == id
    {
    }
  }

  lemma FindingShown(m: map<ProjectionId, RetrievalRecord>, state: MemoryState, namespace: Name, cid: ConflictId)
    requires AgreesAt(m, state, namespace, ConflictProjection(cid))
    ensures ShowsFinding(m, state, namespace, cid)
  {
  }

  lemma ResolutionShown(m: map<ProjectionId, RetrievalRecord>, state: MemoryState, namespace: Name, rid: Id)
    requires AgreesAt(m, state, namespace, ResolutionProjection(rid))
    ensures ShowsResolution(m, state, namespace, rid)
  {
    if rid in state.records.resolutions {
      var r := state.records.resolutions[rid];
      assert forall id :: id in r.Classified() <==> id in r.selected || id in r.rejected || id in r.retained;
    }
  }

  /** The records of a projection, each told by the tables of the state. */
  lemma ProjectionShows(m: map<ProjectionId, RetrievalRecord>, state: MemoryState, namespace: Name)
    requires IsProjection(m, state, namespace)
    ensures Shows(m, state, namespace)
  {
    hide AgreesAt;
    hide ShowsClaim;
    hide ShowsFinding;
    hide ShowsResolution;
    forall id ensures ShowsClaim(m, state, namespace, id) { ClaimShown(m, state, namespace, id); }
    forall cid ensures ShowsFinding(m, state, namespace, cid) { FindingShown(m, state, namespace, cid); }
    forall rid ensures ShowsResolution(m, state, namespace, rid) { ResolutionShown(m, state, namespace, rid); }
  }

  // ---------------------------------------------------------------- project_state

  /** `conflicts_by_claim`: every finding filed under each of its candidates. */
  method ConflictsByClaim(byId: map<ConflictId, ConflictSet>) returns (m: map<Id, set<ConflictId>>)
    ensures forall id :: Lookup(m, id) == ConflictsOfClaim(byId, id)
  {
    m := map[];
    var todo := byId.Keys;
    ghost var done: set<ConflictId> := {};
    while todo != {}
      invariant done + todo == byId.Keys && done * todo == {}
      invariant forall id :: Lookup(m, id) == (set cid | cid in done && HasCandidate(byId[cid], id))
      decreases |todo|
    {
      var _ := Inhabited(todo);
      var cid :| cid in todo;
      m := FileFinding(m, byId[cid].CandidateIds(), cid);
      done, todo := done + {cid}, todo - {cid};
    }
  }

  ghost predicate FiledUnder(m: map<Id, set<ConflictId>>, m': map<Id, set<ConflictId>>, ids: set<Id>, cid: ConflictId) {
    forall id :: Lookup(m', id) == if id in ids then Lookup(m, id) + {cid} else Lookup(m, id)
  }

  lemma FiledNext(m: map<Id, set<ConflictId>>, m': map<Id, set<ConflictId>>, ids: set<Id>, cid: ConflictId, id: Id)
    requires FiledUnder(m, m', ids, cid)
    ensures FiledUnder(m, AddTo(m', id, cid), ids + {id}, cid)
  {
    forall x ensures Lookup(AddTo(m', id, cid), x) == if x in ids + {id} then Lookup(m, x) + {cid} else Lookup(m, x) {
      assert Lookup(m', x) == if x in ids then Lookup(m, x) + {cid} else Lookup(m, x);
    }
  }

  lemma FiledNone(m: map<Id, set<ConflictId>>, cid: ConflictId)
    ensures FiledUnder(m, m, {}, cid)
  {
  }

  method FileFinding(m: map<Id, set<ConflictId>>, ids: set<Id>, cid: ConflictId) returns (m': map<Id, set<ConflictId>>)
    ensures FiledUnder(m, m', ids, cid)
  {
    m' := m;
    var todo := ids;
    ghost var done: set<Id> := {};
    FiledNone(m, cid);
    hide FiledUnder;
    hide AddTo;
    hide Lookup;
    while todo != {}
      invariant done + todo == ids
      invariant FiledUnder(m, m', done, cid)
      decreases |todo|
    {
      var _ := Inhabited(todo);
      var id :| id in todo;
      FiledNext(m, m', done, cid, id);
      m' := AddTo(m', id, cid);
      done, todo := done + {id}, todo - {id};
    }
    assert done == ids;
  }

  /** `project_state`, over the tables of one state. */
  method ProjectState(state: MemoryState, namespace: Name) returns (m: map<ProjectionId, RetrievalRecord>)
    ensures IsProjection(m, state, namespace) && Shows(m, state, namespace)
  {
    var byClaim := ConflictsByClaim(state.findings.byId);
    var claims, resolutions := state.records.claims, state.records.resolutions;
    var claimRecords := map id | id in claims && IsLiveClaim(state, id, namespace) :: ClaimRecord(claims[id], Lookup(byClaim, id));
    var conflictRecords := map cid | cid in state.findings.byId && InNamespace(state.findings.byId[cid], namespace)
      :: ConflictRecord(state, state.findings.byId[cid], namespace);
    var resolutionRecords := map rid | rid in resolutions && ResolutionRecord(state, resolutions[rid], namespace).Some?
      :: ResolutionRecord(state, resolutions[rid], namespace).value;
    m := Filed(claimRecords, conflictRecords, resolutionRecords);
    forall p ensures AgreesAt(m, state, namespace, p) {
      FiledAt(claimRecords, conflictRecords, resolutionRecords, p);
    }
    hide AgreesAt;
    hide ProjectedAt;
    ProjectionShows(m, state, namespace);
  }

  /** The three kinds of records under their projection identifiers. */
  function Filed(a: map<Id, RetrievalRecord>, b: map<ConflictId, RetrievalRecord>, c: map<Id, RetrievalRecord>)
    : map<ProjectionId, RetrievalRecord>
  {
    (map id | id in a :: ClaimProjection(id) := a[id]) + (map id | id in b :: ConflictProjection(id) := b[id])
    + (map id | id in c :: ResolutionProjection(id) := c[id])
  }

  lemma FiledAt(a: map<Id, RetrievalRecord>, b: map<ConflictId, RetrievalRecord>, c: map<Id, RetrievalRecord>, p: ProjectionId)
    ensures var m := Filed(a, b, c);
            match p
            case ClaimProjection(id) => (p in m <==> id in a) && (p in m ==> m[p] == a[id])
            case ConflictProjection(id) => (p in m <==> id in b) && (p in m ==> m[p] == b[id])
            case ResolutionProjection(id) => (p in m <==> id in c) && (p in m ==> m[p] == c[id])
  {
  }

  // ---------------------------------------------------------------- project_state_delta

  /** The state's findings are direct, one per key, and tabled by identifier, reference and key. */
  ghost predicate DirectTables(state: MemoryState, cs: set<ConflictSet>) {
    && state.findings == TablesOf(cs) && OnePerKey(cs)
    && forall c, x :: c in cs && x in c.candidates ==> x.id in state.records.claims && state.records.claims[x.id] == x && x.key == c.key
  }

  predicate IsRetired(state: MemoryState, id: Id, namespace: Name) {
    KnownHere(state.records.claims, id, namespace) && (id in state.activity.inactive || id in state.activity.inapplicable)
  }

  ghost predicate Touched(state: MemoryState, d: Delta, p: ProjectionId) {
    match p
    case ClaimProjection(id) => id in d.claims
    case ConflictProjection(cid) =>
      cid in d.previous + d.current || (cid in state.findings.byId && state.findings.byId[cid].ref in d.refs)
    case ResolutionProjection(rid) => rid in d.resolutions
  }

  ghost predicate Gone(state: MemoryState, d: Delta, namespace: Name, p: ProjectionId) {
    match p
    case ClaimProjection(id) => id in d.claims && IsRetired(state, id, namespace)
    case ConflictProjection(cid) => cid in d.previous + d.current && cid !in state.findings.byId
    case ResolutionProjection(rid) => false
  }

  /** What the four loops of `project_state_delta` leave: current records of what was touched, and
      deletions of what no longer projects. */
  ghost predicate ProjectsDelta(upserts: map<ProjectionId, RetrievalRecord>, deletes: set<ProjectionId>,
                                state: MemoryState, d: Delta, namespace: Name)
  {
    && (forall p :: p in upserts <==> Touched(state, d, p) && ProjectedAt(state, namespace, p).Some?)
    && (forall p :: p in upserts ==> Some(upserts[p]) == ProjectedAt(state, namespace, p))
    && (forall p :: p in deletes <==> Gone(state, d, namespace, p))
  }

  function CandidateFindings(cs: seq<ConflictSet>, id: Id): set<ConflictId> {
    set c | c in cs && HasCandidate(c, id) :: c.id
  }

  /** A claim's findings are found under its own key. */
  lemma FindingsUnderKey(state: MemoryState, cs: set<ConflictSet>, id: Id)
    requires DirectTables(state, cs) && id in state.records.claims
    ensures CandidateFindings(FindingsUnder(state.findings, state.records.claims[id].key), id)
            == ConflictsOfClaim(state.findings.byId, id)
  {
    var key := state.records.claims[id].key;
    OnePerKeyInjective(cs);
    ByIdEntry(cs, ConflictKeyOf, key);
    forall cid ensures cid in CandidateFindings(FindingsUnder(state.findings, key), id)
                       <==> cid in ConflictsOfClaim(state.findings.byId, id)
    {
      ByIdEntry(cs, ConflictIdOf, cid);
      if cid in ConflictsOfClaim(state.findings.byId, id) {
        var c := state.findings.byId[cid];
        CandidateKey(state, cs, c, id);
        assert ConflictKeyOf(c) == key;
        assert c in FindingsUnder(state.findings, key);
      }
      if cid in CandidateFindings(FindingsUnder(state.findings, key), id) {
        var c :| c in FindingsUnder(state.findings, key) && HasCandidate(c, id) && c.id == cid;
        assert c in cs && ConflictIdOf(c) == cid;
      }
    }
  }

  lemma CandidateKey(state: MemoryState, cs: set<ConflictSet>, c: ConflictSet, id: Id)
    requires DirectTables(state, cs) && c in cs && HasCandidate(c, id)
    ensures id in state.records.claims && state.records.claims[id].key == c.key
  {
    var x :| x in c.candidates && x.id == id;
  }

  ghost predicate ClaimsProjected(upserts: map<ProjectionId, RetrievalRecord>, deletes: set<ProjectionId>, state: MemoryState,
                                  ids: set<Id>, namespace: Name)
  {
    && (forall p :: p in upserts <==> p.ClaimProjection? && p.claim in ids && IsLiveClaim(state, p.claim, namespace))
    && (forall p :: p in upserts ==> Some(upserts[p]) == ProjectedAt(state, namespace, p))
    && (forall p :: p in deletes <==> p.ClaimProjection? && p.claim in ids && IsRetired(state, p.claim, namespace))
  }

  method ProjectClaim(upserts: map<ProjectionId, RetrievalRecord>, deletes: set<ProjectionId>, state: MemoryState,
                      namespace: Name, id: Id, ghost ids: set<Id>, ghost cs: set<ConflictSet>)
    returns (upserts': map<ProjectionId, RetrievalRecord>, deletes': set<ProjectionId>)
    requires DirectTables(state, cs) && ClaimsFiled(state.records.claims) && ClaimsProjected(upserts, deletes, state, ids, namespace)
    ensures ClaimsProjected(upserts', deletes', state, ids + {id}, namespace)
  {
    upserts', deletes' := upserts, deletes;
    if !KnownHere(state.records.claims, id, namespace) { return; }
    FindingsUnderKey(state, cs, id);
    hide DirectTables;
    hide ConflictsOfClaim;
    hide CandidateFindings;
    if IsRetired(state, id, namespace) {
      deletes' := deletes + {ClaimProjection(id)};
      return;
    }
    var claim := state.records.claims[id];
    upserts' := upserts[ClaimProjection(id) := ClaimRecord(claim, CandidateFindings(FindingsUnder(state.findings, claim.key), id))];
  }

  method ProjectClaims(state: MemoryState, namespace: Name, ids: set<Id>, ghost cs: set<ConflictSet>)
    returns (upserts: map<ProjectionId, RetrievalRecord>, deletes: set<ProjectionId>)
    requires DirectTables(state, cs) && ClaimsFiled(state.records.claims)
    ensures ClaimsProjected(upserts, deletes, state, ids, namespace)
  {
    upserts, deletes := map[], {};
    var todo := ids;
    ghost var done: set<Id> := {};
    assert ClaimsProjected(upserts, deletes, state, done, namespace);
    hide ClaimsProjected;
    hide DirectTables;
    while todo != {}
      invariant done + todo == ids
      invariant ClaimsProjected(upserts, deletes, state, done, namespace)
      decreases |todo|
    {
      var _ := Inhabited(todo);
      var id :| id in todo;
      upserts, deletes := ProjectClaim(upserts, deletes, state, namespace, id, done, cs);
      done, todo := done + {id}, todo - {id};
    }
    assert done == ids;
  }

  ghost predicate FindingsProjected(upserts: map<ProjectionId, RetrievalRecord>, deletes: set<ProjectionId>, state: MemoryState,
                                    ids: set<ConflictId>, namespace: Name)
  {
    && (forall p :: p in upserts <==> p.ConflictProjection? && p.conflict in ids && ProjectedAt(state, namespace, p).Some?)
    && (forall p :: p in upserts ==> Some(upserts[p]) == ProjectedAt(state, namespace, p))
    && (forall p :: p in deletes <==> p.ConflictProjection? && p.conflict in ids && p.conflict !in state.findings.byId)
  }

  /** The loop over previous and current finding identifiers. */
  method ProjectFindings(state: MemoryState, namespace: Name, ids: set<ConflictId>)
    returns (upserts: map<ProjectionId, RetrievalRecord>, deletes: set<ProjectionId>)
    ensures FindingsProjected(upserts, deletes, state, ids, namespace)
  {
    upserts, deletes := map[], {};
    var todo := ids;
    ghost var done: set<ConflictId> := {};
    while todo != {}
      invariant done + todo == ids
      invariant FindingsProjected(upserts, deletes, state, done, namespace)
      decreases |todo|
    {
      var _ := Inhabited(todo);
      var cid :| cid in todo;
      if cid !in state.findings.byId {
        deletes := deletes + {ConflictProjection(cid)};
      } else if InNamespace(state.findings.byId[cid], namespace) {
        upserts := upserts[ConflictProjection(cid) := ConflictRecord(state, state.findings.byId[cid], namespace)];
      }
      done, todo := done + {cid}, todo - {cid};
    }
    assert done == ids;
  }

  /** The identifiers of the findings that bear affected references. */
  method FindingsOfRefs(byRef: map<ConflictRef, ConflictSet>, refs: set<ConflictRef>) returns (ids: set<ConflictId>)
    ensures forall cid :: cid in ids <==> exists ref :: ref in refs && ref in byRef && byRef[ref].id == cid
  {
    ids := set ref | ref in refs && ref in byRef :: byRef[ref].id;
  }

  lemma RefsAndIds(state: MemoryState, cs: set<ConflictSet>, refs: set<ConflictRef>, cid: ConflictId)
    requires DirectTables(state, cs)
    ensures (exists ref :: ref in refs && ref in state.findings.byRef && state.findings.byRef[ref].id == cid)
            <==> cid in state.findings.byId && state.findings.byId[cid].ref in refs
  {
    OnePerKeyInjective(cs);
    ByIdEntry(cs, ConflictIdOf, cid);
    if cid in state.findings.byId {
      var c := state.findings.byId[cid];
      ByIdEntry(cs, ConflictRefOf, c.ref);
      assert ConflictRefOf(c) == c.ref;
    }
    forall ref | ref in refs && ref in state.findings.byRef && state.findings.byRef[ref].id == cid
      ensures cid in state.findings.byId && state.findings.byId[cid] == state.findings.byRef[ref]
              && state.findings.byRef[ref].ref == ref
    {
      ByIdEntry(cs, ConflictRefOf, ref);
      assert ConflictIdOf(state.findings.byRef[ref]) == cid;
    }
  }

  ghost predicate ResolutionsProjected(upserts: map<ProjectionId, RetrievalRecord>, state: MemoryState, ids: set<Id>, namespace: Name) {
    && (forall p :: p in upserts <==> p.ResolutionProjection? && p.resolution in ids && ProjectedAt(state, namespace, p).Some?)
    && (forall p :: p in upserts ==> Some(upserts[p]) == ProjectedAt(state, namespace, p))
  }

  method ProjectResolutions(state: MemoryState, namespace: Name, ids: set<Id>) returns (upserts: map<ProjectionId, RetrievalRecord>)
    requires ResolutionsFiled(state.records.resolutions)
    ensures ResolutionsProjected(upserts, state, ids, namespace)
  {
    upserts := map[];
    var todo := ids;
    ghost var done: set<Id> := {};
    while todo != {}
      invariant done + todo == ids
      invariant ResolutionsProjected(upserts, state, done, namespace)
      decreases |todo|
    {
      var _ := Inhabited(todo);
      var rid :| rid in todo;
      if rid in state.records.resolutions {
        var record := ResolutionRecord(state, state.records.resolutions[rid], namespace);
        if record.Some? { upserts := upserts[record.value.id := record.value]; }
      }
      done, todo := done + {rid}, todo - {rid};
    }
    assert done == ids;
  }

  ghost predicate DeltaAt(upserts: map<ProjectionId, RetrievalRecord>, deletes: set<ProjectionId>, state: MemoryState, d: Delta,
                          namespace: Name, p: ProjectionId)
  {
    && (p in upserts <==> Touched(state, d, p) && ProjectedAt(state, namespace, p).Some?)
    && (p in upserts ==> Some(upserts[p]) == ProjectedAt(state, namespace, p))
    && (p in deletes <==> Gone(state, d, namespace, p))
  }

  lemma DeltaEverywhere(upserts: map<ProjectionId, RetrievalRecord>, deletes: set<ProjectionId>, state: MemoryState, d: Delta,
                        namespace: Name)
    requires forall p :: DeltaAt(upserts, deletes, state, d, namespace, p)
    ensures ProjectsDelta(upserts, deletes, state, d, namespace)
  {
    hide ProjectedAt;
    hide Touched;
    hide Gone;
    forall p ensures (p in upserts <==> Touched(state, d, p) && ProjectedAt(state, namespace, p).Some?)
                     && (p in upserts ==> Some(upserts[p]) == ProjectedAt(state, namespace, p))
                     && (p in deletes <==> Gone(state, d, namespace, p))
    {
      assert DeltaAt(upserts, deletes, state, d, namespace, p);
    }
  }

  lemma GatheredAt(state: MemoryState, namespace: Name, d: Delta, ids: set<ConflictId>,
                   a: map<ProjectionId, RetrievalRecord>, aGone: set<ProjectionId>,
                   b: map<ProjectionId, RetrievalRecord>, bGone: set<ProjectionId>,
                   c: map<ProjectionId, RetrievalRecord>, e: map<ProjectionId, RetrievalRecord>, cGone: set<ProjectionId>, p: ProjectionId)
    requires ClaimsProjected(a, aGone, state, d.claims, namespace)
    requires FindingsProjected(b, bGone, state, d.previous + d.current, namespace)
    requires FindingsProjected(c, cGone, state, ids, namespace)
    requires ResolutionsProjected(e, state, d.resolutions, namespace)
    requires forall cid :: cid in ids <==> cid in state.findings.byId && state.findings.byId[cid].ref in d.refs
    ensures DeltaAt(a + b + c + e, (aGone + bGone) - (a + b + c + e).Keys, state, d, namespace, p)
  {
    var all := a + b + c + e;
    match p
    case ClaimProjection(id) =>
      assert p !in b && p !in c && p !in e && p !in bGone;
    case ConflictProjection(cid) =>
      assert p !in a && p !in e && p !in aGone;
    case ResolutionProjection(rid) =>
      assert p !in a && p !in b && p !in c && p !in aGone && p !in bGone;
  }

  /** `project_state_delta`, for a delta that is not a rebuild. */
  method ProjectStateDelta(state: MemoryState, namespace: Name, d: Delta, ghost cs: set<ConflictSet>)
    returns (upserts: map<ProjectionId, RetrievalRecord>, deletes: set<ProjectionId>)
    requires DirectTables(state, cs) && ClaimsFiled(state.records.claims) && ResolutionsFiled(state.records.resolutions)
    ensures ProjectsDelta(upserts, deletes, state, d, namespace)
  {
    var claimUpserts, claimDeletes := ProjectClaims(state, namespace, d.claims, cs);
    var ids := FindingsOfRefs(state.findings.byRef, d.refs);
    forall cid ensures cid in ids <==> cid in state.findings.byId && state.findings.byId[cid].ref in d.refs {
      RefsAndIds(state, cs, d.refs, cid);
    }
    var findingUpserts, findingDeletes := ProjectFindings(state, namespace, d.previous + d.current);
    var refUpserts, refDeletes := ProjectFindings(state, namespace, ids);
    var resolutionUpserts := ProjectResolutions(state, namespace, d.resolutions);
    upserts := claimUpserts + findingUpserts + refUpserts + resolutionUpserts;
    deletes := (claimDeletes + findingDeletes) - upserts.Keys;
    hide DirectTables;
    hide ClaimsProjected;
    hide FindingsProjected;
    hide ResolutionsProjected;
    hide ProjectedAt;
    hide Touched;
    hide Gone;
    forall p ensures DeltaAt(upserts, deletes, state, d, namespace, p) {
      GatheredAt(state, namespace, d, ids, claimUpserts, claimDeletes, findingUpserts, findingDeletes, refUpserts,
                 resolutionUpserts, refDeletes, p);
    }
    DeltaEverywhere(upserts, deletes, state, d, namespace);
  }
}
