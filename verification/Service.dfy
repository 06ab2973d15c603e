/** `ProjectionService.synchronize` for one repository and namespace: the stores it keeps, the
    repository it drives, and the memory it follows. */
module Service {
  import opened Basics
  import opened Model
  import opened Records
  import opened Lifecycle
  import opened State
  import opened Incremental
  import opened Caching
  import opened Memories
  import opened Projection
  import opened Exactness
  import opened IndexSync

  /** The external repository: an index whose calls may fail. */
  class Adapter {
    var index: Index

    constructor () ensures index == map[] { index := map[]; }

    /** `upsert`: when it fails, its own record may be left in any state. */
    method UpsertRecord(r: RetrievalRecord, answer: Answer) returns (ok: bool)
      modifies this
      ensures ok == answer.Succeeds?
      ensures index == if ok then old(index)[r.id := r] else WithAnswer(old(index), r.id, answer.left)
    {
      ok := answer.Succeeds?;
      index := if ok then index[r.id := r] else WithAnswer(index, r.id, answer.left);
    }

    /** `delete`: when it fails, the index is as before. */
    method DeleteRecord(p: ProjectionId, answer: Answer) returns (ok: bool)
      modifies this
      ensures ok == answer.Succeeds?
      ensures index == if ok then old(index) - {p} else old(index)
    {
      ok := answer.Succeeds?;
      if ok { index := index - {p}; }
    }
  }

  /** `InMemoryExternalReferenceStore`, for one repository and namespace. */
  class ReferenceStore {
    var references: References

    constructor () ensures references == map[] { references := map[]; }

    method UpsertReference(p: ProjectionId, fingerprint: RetrievalRecord)
      modifies this
      ensures references == old(references)[p := fingerprint]
    {
      references := references[p := fingerprint];
    }

    method DeleteReference(p: ProjectionId) returns (existed: bool)
      modifies this
      ensures references == old(references) - {p} && existed == (p in old(references))
    {
      existed := p in references;
      references := references - {p};
    }
  }

  /** `InMemoryLocalProjectionDeltaStore`, for one repository and namespace. */
  class DeltaStore {
    var deltas: map<ProjectionId, Pending>

    constructor () ensures deltas == map[] { deltas := map[]; }

    method UpsertDelta(p: ProjectionId, x: Pending)
      modifies this
      ensures deltas == old(deltas)[p := x]
    {
      deltas := deltas[p := x];
    }

    method DeleteDelta(p: ProjectionId) returns (existed: bool)
      modifies this
      ensures deltas == old(deltas) - {p} && existed == (p in old(deltas))
    {
      existed := p in deltas;
      deltas := deltas - {p};
    }
  }

  /** What a service wants is what the memory will report changes against: the state that what is
      remembered from the service's position on was folded from. Behind the position where the cache
      was built, and while the cache is stale, the next report is a full rebuild, so nothing is
      needed; a stale cache must not be met at the very end of the log, where nothing would be
      reported. */
  ghost predicate Follows(cursor: nat, desired: Index, look: Look, namespace: Name) {
    && look.read && cursor <= |look.order|
    && (look.current && look.origin.at <= cursor ==>
          IsProjection(desired, BaseAt(look.origin, look.order, cursor, look.rules), namespace))
    && (!look.current ==> cursor < |look.order|)
  }

  /** Whatever happens to the memory, short of a registration, it can still be followed. */
  lemma FollowsStays(cursor: nat, desired: Index, a: Look, b: Look, namespace: Name)
    requires Follows(cursor, desired, a, namespace) && Stays(a, b)
    ensures Follows(cursor, desired, b, namespace)
  {
    hide IsProjection;
    hide StateOf;
    UptoLater(a.order, b.order, cursor);
  }

  class ProjectionService {
    const memory: Memory
    const namespace: Name
    const adapter: Adapter
    const references: ReferenceStore
    const deltas: DeltaStore
    var cursor: Option<nat>
    /** The projection at the cursor. */
    ghost var desired: Index

    ghost function Holdings(): Held reads adapter, references, deltas {
      Held(adapter.index, references.references, deltas.deltas)
    }

    /** The index is accounted for, and tracks the desired projection once there has been one. */
    ghost predicate Tracking() reads this, adapter, references, deltas {
      && Accounted(adapter.index, references.references, deltas.deltas)
      && (cursor.Some? ==> Tracks(adapter.index, deltas.deltas, desired))
    }

    constructor (memory: Memory, namespace: Name, adapter: Adapter, references: ReferenceStore, deltas: DeltaStore)
      requires Accounted(adapter.index, references.references, deltas.deltas)
      ensures Tracking() && cursor == None && this.memory == memory && this.adapter == adapter
              && this.references == references && this.deltas == deltas && this.namespace == namespace
    {
      this.memory, this.namespace, this.adapter, this.references, this.deltas := memory, namespace, adapter, references, deltas;
      this.cursor, this.desired := None, map[];
    }

    /** The branch of the loop over pending changes for one identifier. */
    method ProcessOne(p: ProjectionId, x: Pending, known: Option<RetrievalRecord>, answer: Answer)
      requires p in deltas.deltas && deltas.deltas[p] == x && known == ReferenceAt(references.references, p)
      requires x.Upsert? ==> x.record.id == p
      modifies adapter, references, deltas
      ensures Holdings() == Process(old(Holdings()), p, x, known, answer)
    {
      match x
      case Delete =>
        var ok := adapter.DeleteRecord(p, answer);
        if ok {
          var _ := references.DeleteReference(p);
          var _ := deltas.DeleteDelta(p);
        }
      case Upsert(r) =>
        if known == Some(r) {
          var _ := deltas.DeleteDelta(p);
          return;
        }
        var ok := adapter.UpsertRecord(r, answer);
        if ok {
          references.UpsertReference(p, r);
          var _ := deltas.DeleteDelta(p);
        } else if known.Some? {
          var _ := references.DeleteReference(p);
        }
    }

    /** `for delta in pending`: each pending change is tried once; `answers` is how the repository
        responds to each. */
    method ProcessPending(answers: map<ProjectionId, Answer>)
      requires Tracking() && cursor.Some?
      requires forall p :: p in deltas.deltas && deltas.deltas[p].Upsert? ==> deltas.deltas[p].record.id == p
      modifies adapter, references, deltas
      ensures Tracking()
      ensures forall p :: p in deltas.deltas ==> p in old(deltas.deltas) && p in answers && answers[p].Fails?
    {
      var known, pending := references.references, deltas.deltas;
      var todo := pending.Keys;
      while todo != {}
        invariant Tracking() && todo <= pending.Keys
        invariant forall p :: p in todo ==> p in deltas.deltas && deltas.deltas[p] == pending[p]
                                            && ReferenceAt(references.references, p) == ReferenceAt(known, p)
        invariant forall p :: p in deltas.deltas ==> p in pending && (p !in todo ==> p in answers && answers[p].Fails?)
        decreases |todo|
      {
        var _ := Inhabited(todo);
        var p :| p in todo;
        var answer := if p in answers then answers[p] else Succeeds;
        ghost var before := Holdings();
        ProcessKeeps(before, desired, p, answer);
        ProcessOne(p, pending[p], ReferenceAt(known, p), answer);
        todo := todo - {p};
      }
    }

    ghost predicate RecordsNamed() reads deltas {
      forall p :: p in deltas.deltas && deltas.deltas[p].Upsert? ==> deltas.deltas[p].record.id == p
    }

    ghost predicate Following() reads this, memory, memory.store, memory.registry {
      cursor.Some? ==> Follows(cursor.value, desired, memory.Seen(), namespace)
    }

    ghost predicate Valid()
      reads this, adapter, references, deltas, memory, memory.store, memory.store.log, memory.registry, memory.materializedRegistry
    {
      memory.Valid() && memory.Readable() && Tracking() && RecordsNamed() && Following()
    }

    /** `for record in upserts` */
    method QueueUpserts(upserts: Index)
      requires RecordsNamed() && forall p :: p in upserts ==> upserts[p].id == p
      modifies deltas
      ensures Queued(deltas.deltas, old(deltas.deltas), references.references, upserts, upserts.Keys)
      ensures RecordsNamed()
    {
      ghost var before := deltas.deltas;
      var todo := upserts.Keys;
      ghost var done: set<ProjectionId> := {};
      while todo != {}
        invariant done + todo == upserts.Keys
        invariant Queued(deltas.deltas, before, references.references, upserts, done) && RecordsNamed()
        decreases |todo|
      {
        var _ := Inhabited(todo);
        var p :| p in todo;
        QueueNext(deltas.deltas, before, references.references, upserts, done, p);
        if p in references.references && references.references[p] == upserts[p] {
          var _ := deltas.DeleteDelta(p);
        } else {
          deltas.UpsertDelta(p, Upsert(upserts[p]));
        }
        done, todo := done + {p}, todo - {p};
      }
      assert done == upserts.Keys;
    }

    /** `for projection_id in deletes` */
    method QueueRemovals(removals: set<ProjectionId>)
      requires RecordsNamed()
      modifies deltas
      ensures deltas.deltas == QueueDeletes(old(deltas.deltas), removals) && RecordsNamed()
    {
      ghost var before := deltas.deltas;
      var todo := removals;
      ghost var done: set<ProjectionId> := {};
      assert QueueDeletes(before, done) == before;
      while todo != {}
        invariant done + todo == removals
        invariant deltas.deltas == QueueDeletes(before, done) && RecordsNamed()
        decreases |todo|
      {
        var _ := Inhabited(todo);
        var p :| p in todo;
        assert QueueDeletes(before, done)[p := Delete] == QueueDeletes(before, done + {p});
        deltas.UpsertDelta(p, Delete);
        done, todo := done + {p}, todo - {p};
      }
      assert done == removals;
    }

    /** What a rebuild delta makes pending: everything desired, and the removal of everything else
        that is known or pending. */
    method RefreshAll(state: MemoryState, ghost registry: Registry)
      requires Accounted(adapter.index, references.references, deltas.deltas) && RecordsNamed() && Tabled(state, registry)
      modifies this`desired, deltas
      ensures IsProjection(desired, state, namespace) && RecordsNamed()
      ensures Accounted(adapter.index, references.references, deltas.deltas) && Tracks(adapter.index, deltas.deltas, desired)
    {
      hide Tabled;
      hide ProjectedAt;
      var now := ProjectState(state, namespace);
      forall p | p in now ensures Some(now[p]) == ProjectedAt(state, namespace, p) { assert AgreesAt(now, state, namespace, p); }
      ProjectedIds(now, state, registry, namespace);
      hide IsProjection;
      ghost var before := deltas.deltas;
      var removals := (references.references.Keys + deltas.deltas.Keys) - now.Keys;
      QueueUpserts(now);
      RebuildTracked(adapter.index, references.references, before, now, deltas.deltas);
      QueueRemovals(removals);
      desired := now;
    }

    /** What any other delta makes pending: exactly the difference of the two projections. */
    method RefreshSome(s: MemoryState, d: Delta, ghost was: MemoryState, ghost registry: Registry)
      requires Tracking() && cursor.Some? && RecordsNamed() && IsProjection(desired, was, namespace)
      requires Tabled(was, registry) && Tabled(s, registry) && DeltaCovers(d, was, s, registry)
      modifies this`desired, deltas
      ensures IsProjection(desired, s, namespace) && RecordsNamed() && Tracking()
    {
      hide Tabled;
      hide DeltaCovers;
      hide IsProjection;
      var upserts, removals := ProjectSome(s, namespace, d, was, registry, desired);
      ghost var before := deltas.deltas;
      QueueUpserts(upserts);
      DeltaTracked(adapter.index, references.references, before, desired, upserts, removals, deltas.deltas);
      hide Queued;
      QueueRemovals(removals);
      desired := (desired - removals) + upserts;
    }

    /** `_refresh_pending_deltas`: afterwards what is wanted is the projection of the whole log. */
    method RefreshPendingDeltas(arrivals: seq<Op>) returns (ok: bool)
      requires Valid()
      modifies this`cursor, this`desired, deltas, memory`token, memory`state, memory`cursor, memory`materializedRegistry,
               memory`materializedRevision, memory`history, memory`sinceCheckpoint, memory`cachedRules, memory`origin,
               memory.store`order, memory.store`ends, memory.store`checkpoint,
               memory.store`written, memory.store.log
      ensures Valid()
      ensures ok <==> CollisionFree(memory.store.Contents())
      ensures ok ==> WantsAll()
    {
      hide Memory.Valid;
      hide CollisionFree;
      hide BaseAt;
      hide IsProjection;
      hide SpanSound;
      hide Memory.UpToDate;
      hide Memory.Fresh;
      hide Memory.Readable;
      hide StateOf;
      hide Tabled;
      hide DeltaCovers;
      hide Accounted;
      hide Tracks;
      hide RecordsNamed;
      hide Stays;
      hide Arrived;
      ghost var before := memory.Seen();
      var read := memory.MaterializeWithDelta(cursor, arrivals);
      if cursor.Some? { FollowsStays(cursor.value, desired, before, memory.Seen(), namespace); }
      if read.ValueError? { return false; }
      var state, d := read.value.0, read.value.1;
      UpToDateCurrent(memory);
      WholeState(memory.origin, memory.store.order, memory.store.Contents(), memory.registry.current, state);
      if d.IsEmpty() { return true; }
      if d.fullRebuild {
        RefreshAll(state, memory.registry.current);
      } else {
        SpanTabled(d, cursor.value, memory.origin, memory.store.order, memory.registry.current);
        RefreshSome(state, d, BaseAt(memory.origin, memory.store.order, cursor.value, memory.registry.current), memory.registry.current);
      }
      cursor := Some(d.cursorAfter);
      ok := true;
    }

    /** The wanted projection is that of everything the memory's store holds. */
    ghost predicate WantsAll()
      reads this, memory, memory.store, memory.store.log, memory.registry, memory.materializedRegistry
    {
      cursor == Some(|memory.store.order|)
      && IsProjection(desired, StateOf(memory.store.Contents(), memory.registry.current, UNSCOPED), namespace)
    }

    /** `synchronize`: every identifier without a pending change is in the index exactly as the
        projection wants it; when no call fails nothing stays pending and the index is the projection. */
    method Synchronize(answers: map<ProjectionId, Answer>, arrivals: seq<Op>) returns (ok: bool)
      requires Valid()
      modifies this`cursor, this`desired, adapter, references, deltas, memory`token, memory`state, memory`cursor,
               memory`materializedRegistry, memory`materializedRevision, memory`history, memory`sinceCheckpoint,
               memory`cachedRules, memory`origin, memory.store`order, memory.store`ends, memory.store`checkpoint,
               memory.store`written, memory.store.log
      ensures Valid()
      ensures ok <==> CollisionFree(memory.store.Contents())
      ensures ok ==> WantsAll() && forall p :: p !in deltas.deltas ==> SettledAt(adapter.index, desired, p)
      ensures ok && (forall p :: p in answers ==> answers[p].Succeeds?) ==>
                deltas.deltas == map[] && adapter.index == desired
    {
      hide Memory.Valid;
      hide CollisionFree;
      hide StateAt;
      hide IsProjection;
      hide StateOf;
      hide Accounted;
      ok := RefreshPendingDeltas(arrivals);
      if !ok { return; }
      ProcessPending(answers);
      if forall p :: p in answers ==> answers[p].Succeeds? {
        assert deltas.deltas.Keys == {};
        NothingPending(adapter.index, desired);
      }
    }
  }

  lemma UpToDateCurrent(m: Memory)
    requires m.UpToDate()
    ensures m.Current() && m.store.Valid() && CollisionFree(m.store.Contents()) && OriginSound(m.origin, m.store.order)
    ensures Elements(m.store.order) == m.store.Contents()
  {
    hide CheckpointSound;
    hide AtRest;
    hide StepSound;
    hide StateOf;
    hide CollisionFree;
    hide OriginSound;
  }

  lemma WholeState(origin: Origin, order: seq<Op>, contents: set<Op>, rules: Registry, state: MemoryState)
    requires Elements(order) == contents && state == StateOf(contents, rules, UNSCOPED) && CollisionFree(contents)
    requires OriginSound(origin, order)
    ensures BaseAt(origin, order, |order|, rules) == StateAt(order, |order|, rules) == state && Tabled(state, rules)
  {
    hide StateOf;
    hide CollisionFree;
    hide Tabled;
    assert order[..|order|] == order;
    assert origin.at == |order| ==> origin.held == contents;
    ReachedTabled(state, contents, rules);
  }

  lemma SpanTabled(d: Delta, since: nat, origin: Origin, order: seq<Op>, rules: Registry)
    requires SpanSound(d, since, |order|, origin, order, rules) && CollisionFree(Elements(order)) && OriginSound(origin, order)
    ensures since <= |order| && Tabled(BaseAt(origin, order, since, rules), rules)
    ensures DeltaCovers(d, BaseAt(origin, order, since, rules), StateAt(order, |order|, rules), rules)
  {
    hide DeltaCovers;
    hide StateOf;
    hide CollisionFree;
    hide Tabled;
    if since == origin.at {
      ReachedTabled(BaseAt(origin, order, since, rules), origin.held, rules);
    } else {
      PageInUpto(order, since);
      CollisionFreeSubset(Caching.Upto(order, since), Elements(order));
      ReachedTabled(BaseAt(origin, order, since, rules), Caching.Upto(order, since), rules);
    }
  }

  lemma PageInUpto(order: seq<Op>, at: nat)
    requires at <= |order|
    ensures Caching.Upto(order, at) <= Elements(order)
  {
  }

  method ProjectSome(s: MemoryState, namespace: Name, d: Delta, ghost was: MemoryState, ghost registry: Registry, ghost desired: Index)
    returns (upserts: Index, removals: set<ProjectionId>)
    requires Tabled(was, registry) && Tabled(s, registry) && DeltaCovers(d, was, s, registry)
    requires IsProjection(desired, was, namespace)
    ensures IsProjection((desired - removals) + upserts, s, namespace) && removals !! upserts.Keys
    ensures forall p :: p in upserts ==> upserts[p].id == p
  {
    TabledDirect(s, registry);
    hide Tabled;
    hide DeltaCovers;
    hide ProjectedAt;
    hide DirectTables;
    hide FindingsIn;
    hide IsProjection;
    hide ProjectsDelta;
    upserts, removals := ProjectStateDelta(s, namespace, d, FindingsIn(s, registry));
    UpsertsNamed(upserts, removals, s, d, registry, namespace);
    ProjectionDeltaExact(was, s, d, registry, namespace, desired, upserts, removals, desired);
  }

  lemma UpsertsNamed(upserts: Index, removals: set<ProjectionId>, s: MemoryState, d: Delta, registry: Registry, namespace: Name)
    requires Tabled(s, registry) && ProjectsDelta(upserts, removals, s, d, namespace)
    ensures forall p :: p in upserts ==> upserts[p].id == p
  {
    hide Tabled;
    hide ProjectedAt;
    hide Touched;
    hide Gone;
    ProjectedIds(upserts, s, registry, namespace);
  }

  lemma TabledDirect(s: MemoryState, registry: Registry)
    requires Tabled(s, registry)
    ensures DirectTables(s, FindingsIn(s, registry)) && WellFiled(s.records)
  {
    hide DirectTables;
    hide WellFiled;
    hide FindingsIn;
    hide FoldOf;
  }
}
