/** `Memory`: the cached canonical materialization kept beside a store that others append to. */
module Memories {
  import opened Basics
  import opened Model
  import opened Records
  import opened State
  import Full = Materialize
  import opened AbsorbAll
  import opened Incremental
  import opened Deltas
  import opened OpLogs
  import opened Paging
  import opened Replica
  import opened Checkpoint
  import opened Store
  import opened Registries
  import opened Caching

  /** What a reader of a memory can rely on between calls. */
  datatype Look = Look(order: seq<Op>, ends: seq<nat>, read: bool, current: bool, origin: Origin, rules: Registry)

  /** Whatever happened in between, short of a registration: the log only grew, a current cache was
      not built again, and a stale one was built again no earlier than at the end of the log. */
  ghost predicate Stays(a: Look, b: Look) {
    && Later(a.order, a.ends, b.order, b.ends) && b.rules == a.rules && (a.read ==> b.read)
    && (a.current ==> b.current && b.origin == a.origin)
    && (a.read && !a.current && b.current ==> |a.order| <= b.origin.at)
  }

  lemma StaysCompose(a: Look, b: Look, c: Look)
    requires Stays(a, b) && Stays(b, c)
    ensures Stays(a, c)
  {
  }

  /** Other writers' operations, committed as one batch or, on a collision, not at all. */
  ghost predicate Committed(before: set<Op>, arrivals: seq<Op>, after: set<Op>) {
    after == if UniqueOps(before + Elements(arrivals)) then before + Elements(arrivals) else before
  }

  class Memory {
    const store: InMemoryStore
    const replicaId: Name
    const automatic: bool

    var registry: PredicateRegistry
    var token: Option<Name>
    var state: Option<MemoryState>
    var materializedRegistry: PredicateRegistry?
    var materializedRevision: int
    var cursor: nat
    var history: seq<Delta>
    var sinceCheckpoint: nat
    /** The rules the cached state was computed under, and where it was last built. */
    ghost var cachedRules: Registry
    ghost var origin: Origin

    ghost predicate RegistryRemembered() reads this, registry, materializedRegistry {
      && registry.Valid()
      && (state.Some? ==>
            materializedRegistry != null && materializedRegistry.Valid()
            && 0 <= materializedRevision < |materializedRegistry.past|
            && materializedRegistry.past[materializedRevision] == cachedRules)
    }

    ghost predicate CacheSound() reads this, store {
      && (state.None? ==> history == [])
      && (state.Some? ==> AtRest(state.value, cursor, store.order, store.ends, cachedRules)
                          && HistorySound(history, origin, cursor, store.order, cachedRules)
                          && (origin.at == cursor ==> origin.held == Upto(store.order, cursor)))
    }

    ghost predicate Valid() reads this, store, store.log, registry, materializedRegistry {
      && store.Valid() && RegistryRemembered() && CacheSound()
      && CheckpointSound(store.checkpoint, store.written, store.order, store.ends)
    }

    /** Mid-call: the cache is of the rules registered now and holds `seen`, at least what its cursor
        says, and more only just after a rebuild that raced other writers. */
    ghost predicate Built(seen: set<Op>) reads this, store, store.log, registry, materializedRegistry {
      && store.Valid() && RegistryRemembered()
      && CheckpointSound(store.checkpoint, store.written, store.order, store.ends)
      && state.Some? && cachedRules == registry.current && IsBoundary(store.ends, cursor)
      && HoldsAtLeast(state.value, cursor, store.order, cachedRules, seen)
      && HistorySound(history, origin, cursor, store.order, cachedRules)
      && materializedRegistry == registry && materializedRevision == registry.revision
      && (origin.at == cursor ==> origin.held == seen)
      && (origin.at != cursor ==> seen == Upto(store.order, cursor))
      && (seen == Upto(store.order, cursor) || CollisionFree(Elements(store.order)))
    }

    constructor (store: InMemoryStore, replicaId: Name, registry: PredicateRegistry, automatic: bool, token: Option<Name>)
      requires store.Valid() && registry.Valid()
      requires CheckpointSound(store.checkpoint, store.written, store.order, store.ends)
      ensures Valid() && this.store == store && this.registry == registry && this.replicaId == replicaId && state == None
      ensures this.automatic == automatic && this.token == token
    {
      this.store, this.replicaId, this.automatic := store, replicaId, automatic;
      this.registry, this.token, this.state, this.cursor := registry, token, None, 0;
      this.materializedRegistry, this.materializedRevision := null, -1;
      this.history, this.sinceCheckpoint := [], 0;
      this.cachedRules, this.origin := Registry(map[]), Origin(0, {});
    }

    /** The cache was computed under the rules registered now. */
    predicate Current() reads this, registry {
      state.Some? && materializedRegistry == registry && materializedRevision == registry.revision
    }

    ghost function Seen(): Look reads this, registry, store {
      Look(store.order, store.ends, state.Some?, Current(), origin, registry.current)
    }

    /** An automatic token is given up as soon as the registry is no longer the empty default. */
    function TokenNow(): Option<Name> reads this, registry {
      if automatic && (registry.revision != 0 || (materializedRegistry != null && registry != materializedRegistry))
      then None else token
    }

    /** Whether the stored checkpoint has the version and the token a restore asks for. */
    predicate HasCheckpoint() reads this, registry, store {
      store.checkpoint.Some? && store.checkpoint.value.version == CHECKPOINT_VERSION
      && TokenNow() == Some(store.checkpoint.value.token)
    }

    /** A checkpoint that would be restored is one the rules registered now would have written. Once
        there is a cache, no checkpoint is read again. */
    ghost predicate Readable() reads this, registry, store {
      state.None? && HasCheckpoint() ==> SameCheckpoint(store.written.ops, store.written.rules, registry.current)
    }

    /** Under the rules it was written under, a checkpoint can always be restored. */
    lemma OwnRulesReadable()
      requires store.written.rules == registry.current
      ensures Readable()
    {
    }

    /** `append_op`: anybody may append; the cache simply falls behind. */
    method AppendOp(op: Op) returns (added: Result<bool>)
      requires Valid()
      modifies store`order, store`ends, store.log
      ensures Valid()
      ensures added.Ok? <==> UniqueOps(old(store.Contents()) + {op})
      ensures store.Contents() == if added.Ok? then old(store.Contents()) + {op} else old(store.Contents())
      ensures Later(old(store.order), old(store.ends), store.order, store.ends)
    {
      hide Reached;
      hide HistorySound;
      hide CheckpointSound;
      ghost var order, ends := store.order, store.ends;
      added := store.AppendOp(op);
      StoreGrew(order, ends);
    }

    /** `commit_batch` */
    method CommitBatch(ops: seq<Op>) returns (added: Result<seq<bool>>)
      requires Valid()
      modifies store`order, store`ends, store.log
      ensures Valid()
      ensures added.Ok? <==> UniqueOps(old(store.Contents()) + Elements(ops))
      ensures store.Contents() == if added.Ok? then old(store.Contents()) + Elements(ops) else old(store.Contents())
      ensures Later(old(store.order), old(store.ends), store.order, store.ends)
    {
      hide Reached;
      hide HistorySound;
      hide CheckpointSound;
      ghost var order, ends := store.order, store.ends;
      added := store.AppendMany(ops);
      StoreGrew(order, ends);
    }

    /** The first step of a canonical read. */
    method DropToken()
      requires Valid()
      modifies this`token
      ensures Valid() && token == TokenNow() == old(TokenNow())
    {
      hide AtRest;
      hide HistorySound;
      hide CheckpointSound;
      if automatic && (registry.revision != 0 || (materializedRegistry != null && registry != materializedRegistry)) {
        token := None;
      }
    }

    /** The checkpoint of the cached state, under the token. */
    ghost predicate SavedNow(seen: set<Op>) reads this, store {
      token.Some? && state.Some? ==>
        store.checkpoint == Some(SavedCheckpoint(CHECKPOINT_VERSION, token.value, cursor, MemoryStateToCheckpoint(state.value)))
        && store.written == Written(seen, cachedRules)
    }

    /** `_save_materialization_checkpoint` */
    method SaveCheckpoint(ghost seen: set<Op>)
      requires Built(seen)
      modifies this`sinceCheckpoint, store`checkpoint, store`written
      ensures Built(seen) && SavedNow(seen) && sinceCheckpoint == (if token.Some? then 0 else old(sinceCheckpoint))
    {
      hide Reached;
      hide HistorySound;
      hide MemoryStateToCheckpoint;
      hide HoldsAtLeast;
      hide StateOf;
      hide CollisionFree;
      hide IsBoundary;
      hide Upto;
      if token.None? { return; }
      var payload := MemoryStateToCheckpoint(state.value);
      SavedIsSound(CHECKPOINT_VERSION, token.value, cursor, state.value, seen, cachedRules, store.order, store.ends);
      hide CheckpointSound;
      store.SaveMaterializationCheckpoint(SavedCheckpoint(CHECKPOINT_VERSION, token.value, cursor, payload), Written(seen, cachedRules));
      sinceCheckpoint := 0;
    }

    /** `materialize(self.load_oplog())` */
    method MaterializeLog() returns (full: Result<MemoryState>)
      requires store.Valid()
      ensures full.Ok? <==> CollisionFree(store.Contents())
      ensures full.Ok? ==> full.value == StateOf(store.Contents(), registry.current, UNSCOPED)
    {
      hide StateOf;
      hide CollisionFree;
      var ops := store.log.IterOps();
      full := Full.Materialize(ops, registry.current, UNSCOPED);
    }

    /** The two reads of a rebuild: the cursor first, the log afterwards; `arrivals` are operations
        other writers commit in between. */
    method ReadThenMaterialize(arrivals: seq<Op>) returns (at: nat, full: Result<MemoryState>)
      requires Valid()
      modifies store`order, store`ends, store.log
      ensures Valid()
      ensures full.Ok? <==> CollisionFree(store.Contents())
      ensures full.Ok? ==> FreshState(full.value, store.Contents(), registry.current, at, store.order, store.ends)
      ensures at == |old(store.order)| && Committed(old(store.Contents()), arrivals, store.Contents())
      ensures Later(old(store.order), old(store.ends), store.order, store.ends)
    {
      hide Reached;
      hide HistorySound;
      hide CheckpointSound;
      hide AtRest;
      hide IsPage;
      hide StateOf;
      hide CollisionFree;
      ghost var order, ends := store.order, store.ends;
      WholePage(ends, |order|);
      var read := store.ReadAfter(0, None);
      at := read.value.cursor;
      assert at == |order|;
      var _ := CommitBatch(arrivals);
      full := MaterializeLog();
      if full.Ok? {
        FreshlyBuilt(full.value, store.Contents(), registry.current, at, order, ends, store.order, store.ends);
      }
    }

    /** The assignments that end a rebuild. */
    method Install(full: MemoryState, at: nat)
      requires Valid()
      requires FreshState(full, store.Contents(), registry.current, at, store.order, store.ends)
      modifies this`state, this`cursor, this`materializedRegistry, this`materializedRevision, this`history,
               this`cachedRules, this`origin
      ensures Built(store.Contents()) && history == [] && cursor == at && origin == Origin(at, store.Contents())
    {
      hide Reached;
      hide HistorySound;
      hide CheckpointSound;
      hide AtRest;
      hide HoldsAtLeast;
      state, cursor, history := Some(full), at, [];
      materializedRegistry, materializedRevision := registry, registry.revision;
      cachedRules, origin := registry.current, Origin(at, store.Contents());
    }

    /** A cache just built from the log: the position is the one read first, the state holds whatever
        other writers had committed by the time the log was loaded. */
    ghost predicate JustBuilt(at: nat) reads this, store, store.log {
      origin == Origin(at, store.Contents()) && history == [] && cursor == at
    }

    /** `_rebuild_materialized_state` */
    method Rebuild(arrivals: seq<Op>) returns (ok: bool)
      requires Valid()
      modifies this`state, this`cursor, this`materializedRegistry, this`materializedRevision, this`history,
               this`sinceCheckpoint, this`cachedRules, this`origin, store`order, store`ends, store`checkpoint, store`written, store.log
      ensures ok <==> CollisionFree(store.Contents())
      ensures ok ==> Built(store.Contents()) && JustBuilt(|old(store.order)|) && SavedNow(store.Contents())
      ensures !ok ==> Valid() && state == old(state) && store.checkpoint == old(store.checkpoint) && store.written == old(store.written)
                      && materializedRegistry == old(materializedRegistry) && materializedRevision == old(materializedRevision)
      ensures Committed(old(store.Contents()), arrivals, store.Contents())
      ensures Later(old(store.order), old(store.ends), store.order, store.ends)
    {
      hide Valid;
      hide Built;
      hide CollisionFree;
      hide FreshState;
      hide Committed;
      var at, full := ReadThenMaterialize(arrivals);
      if full.ValueError? { return false; }
      Install(full.value, at);
      SaveCheckpoint(store.Contents());
      ok := true;
    }

    /** The cache is exact, current, and of the rules registered now. */
    ghost predicate UpToDate() reads this, store, store.log, registry, materializedRegistry {
      && Valid() && state.Some? && cursor == |store.order|
      && materializedRegistry == registry && materializedRevision == registry.revision && cachedRules == registry.current
      && Reached(state.value, store.Contents(), registry.current)
    }

    /** The rest of the order after a cursor, folded into a state that holds at least what the
        cursor says. */
    method FoldRest(base: MemoryState, at: nat, ghost seen: set<Op>) returns (count: nat, r: Result<(MemoryState, Delta)>)
      requires store.Valid() && IsBoundary(store.ends, at) && HoldsAtLeast(base, at, store.order, registry.current, seen)
      ensures count == |store.order| - at
      ensures r.Ok? <==> CollisionFree(store.Contents())
      ensures r.Ok? ==> Folded(base, r.value, at, count, store.order, store.Contents(), registry.current, seen)
    {
      hide Reached;
      hide CollisionFree;
      hide DeltaCovers;
      RestOfOrder(store.ends, |store.order|, at);
      KeyedValues(store.log.ops);
      var read := store.ReadAfter(at, None);
      var ops := read.value.ops;
      count := |ops|;
      assert ops == store.order[at..];
      r := CatchUp(base, at, ops, registry.current, store.order, seen);
      if r.Ok? {
        Recursored(r.value.1, base, r.value.0, registry.current, at, |store.order|);
        r := Ok((r.value.0, r.value.1.(cursorBefore := at, cursorAfter := |store.order|)));
      }
    }

    /** The stored checkpoint, read back when its version and token fit. Read back, it is the state of
        the operations it was written for exactly when the rules registered now would have written
        the same; its findings are those it was written with in any case. */
    method ReadCheckpoint() returns (r: Option<(nat, MemoryState)>)
      requires Valid() && token == TokenNow()
      ensures r.Some? <==> HasCheckpoint()
      ensures r.Some? ==>
                r.value.0 == store.checkpoint.value.cursor
                && r.value.1.findings == StateOf(store.written.ops, store.written.rules, UNSCOPED).findings
                && (r.value.1 == StateOf(store.written.ops, registry.current, UNSCOPED)
                    <==> SameCheckpoint(store.written.ops, store.written.rules, registry.current))
    {
      hide HistorySound;
      hide AtRest;
      hide MemoryStateToCheckpoint;
      hide StateOf;
      hide SameCheckpoint;
      hide CollisionFree;
      hide Reached;
      if store.checkpoint.None? || token.None? { return None; }
      var saved := store.checkpoint.value;
      if saved.version != CHECKPOINT_VERSION || saved.token != token.value { return None; }
      KeyedValues(store.log.ops);
      UniqueSubset(store.written.ops, store.Contents());
      var restored := MemoryStateFromCheckpoint(saved.payload, registry.current, store.written.ops, store.written.rules);
      r := Some((saved.cursor, restored.value));
    }

    /** Restoring the stored checkpoint when its version and token fit. */
    method TryRestore() returns (ok: bool)
      requires Valid() && Readable() && state.None? && token == TokenNow()
      modifies this`state, this`cursor, this`materializedRegistry, this`materializedRevision, this`history,
               this`sinceCheckpoint, this`cachedRules, this`origin
      ensures ok <==> old(HasCheckpoint()) && CollisionFree(store.Contents())
      ensures ok ==> UpToDate() && origin == Origin(store.checkpoint.value.cursor, store.written.ops) && |history| <= 1
      ensures !ok ==> Valid() && Readable() && state.None?
    {
      hide Valid;
      hide SameCheckpoint;
      hide CollisionFree;
      hide Reached;
      hide StateOf;
      hide Folded;
      var saved := ReadCheckpoint();
      if saved.None? { return false; }
      SavedHolds();
      var count, folded := FoldRest(saved.value.1, saved.value.0, store.written.ops);
      if folded.ValueError? { return false; }
      InstallRestored(folded.value.0, saved.value.1, saved.value.0, count, folded.value.1);
      ok := true;
    }

    lemma NoCacheYet()
      requires Valid() && state.None?
      ensures history == [] && store.Valid() && registry.Valid()
      ensures CheckpointSound(store.checkpoint, store.written, store.order, store.ends)
      ensures Batched(store.ends, |store.order|) && Elements(store.order) == store.Contents()
    {
      hide CheckpointSound;
      hide AtRest;
      hide HistorySound;
    }

    lemma SavedHolds()
      requires Valid() && HasCheckpoint()
      ensures var at := store.checkpoint.value.cursor;
              store.Valid() && IsBoundary(store.ends, at) && OriginSound(Origin(at, store.written.ops), store.order)
              && HoldsAtLeast(StateOf(store.written.ops, registry.current, UNSCOPED), at, store.order, registry.current, store.written.ops)
    {
      hide CacheSound;
      hide RegistryRemembered;
      hide MemoryStateToCheckpoint;
      hide StateOf;
      hide CollisionFree;
      ReachedHere(store.written.ops, registry.current);
      hide Reached;
    }

    method InstallRestored(now: MemoryState, base: MemoryState, at: nat, count: nat, d: Delta)
      requires Valid() && HasCheckpoint() && state.None? && at == store.checkpoint.value.cursor && count + at == |store.order|
      requires base == StateOf(store.written.ops, registry.current, UNSCOPED)
      requires Folded(base, (now, d), at, count, store.order, store.Contents(), registry.current, store.written.ops)
      modifies this`state, this`cursor, this`materializedRegistry, this`materializedRevision, this`history,
               this`sinceCheckpoint, this`cachedRules, this`origin
      ensures UpToDate() && origin == Origin(at, store.written.ops) && |history| <= 1
    {
      hide Valid;
      hide Reached;
      hide CheckpointSound;
      hide AtRest;
      hide HistorySound;
      hide Folded;
      hide OriginSound;
      hide HoldsAtLeast;
      hide IsBoundary;
      hide Batched;
      hide Upto;
      NoCacheYet();
      SavedHolds();
      RestoredParts(now, base, at, count, d, store.written.ops, store.order, store.ends, registry.current);
      Adopt(now, if count > 0 then [d] else [], Origin(at, store.written.ops), count);
    }

    /** The assignments that end a restore. */
    method Adopt(now: MemoryState, remembered: seq<Delta>, ghost from: Origin, count: nat)
      requires store.Valid() && registry.Valid()
      requires CheckpointSound(store.checkpoint, store.written, store.order, store.ends)
      requires Reached(now, Elements(store.order), registry.current) && Elements(store.order) == store.Contents()
      requires AtRest(now, |store.order|, store.order, store.ends, registry.current)
      requires HistorySound(remembered, from, |store.order|, store.order, registry.current)
      requires from.at == |store.order| ==> from.held == Upto(store.order, |store.order|)
      modifies this`state, this`cursor, this`materializedRegistry, this`materializedRevision, this`history,
               this`sinceCheckpoint, this`cachedRules, this`origin
      ensures UpToDate() && history == remembered && origin == from
    {
      hide Reached;
      hide CheckpointSound;
      hide AtRest;
      hide HistorySound;
      hide Upto;
      history, state, cursor := remembered, Some(now), |store.order|;
      materializedRegistry, materializedRevision := registry, registry.revision;
      cachedRules, origin, sinceCheckpoint := registry.current, from, count;
      Restored(now);
    }

    lemma Restored(now: MemoryState)
      requires store.Valid() && registry.Valid()
      requires CheckpointSound(store.checkpoint, store.written, store.order, store.ends)
      requires state == Some(now) && cursor == |store.order| && cachedRules == registry.current
      requires materializedRegistry == registry && materializedRevision == registry.revision
      requires Reached(now, store.Contents(), registry.current)
      requires AtRest(now, cursor, store.order, store.ends, cachedRules)
      requires HistorySound(history, origin, cursor, store.order, cachedRules)
      requires origin.at == cursor ==> origin.held == Upto(store.order, cursor)
      ensures UpToDate()
    {
      hide Reached;
      hide CheckpointSound;
      hide AtRest;
      hide HistorySound;
      hide Upto;
    }

    /** `_restore_or_build_materialized_state` */
    method RestoreOrBuild(arrivals: seq<Op>) returns (ok: bool)
      requires Valid() && Readable() && state.None? && token == TokenNow()
      modifies this`state, this`cursor, this`materializedRegistry, this`materializedRevision, this`history,
               this`sinceCheckpoint, this`cachedRules, this`origin, store`order, store`ends, store`checkpoint, store`written, store.log
      ensures ok <==> CollisionFree(store.Contents())
      ensures ok ==> Built(store.Contents()) && |history| <= 1
      ensures ok && !old(HasCheckpoint()) ==> JustBuilt(|old(store.order)|)
      ensures !ok ==> Valid() && Readable() && state.None?
      ensures Arrived(old(store.Contents()), arrivals, store.Contents())
      ensures !old(HasCheckpoint()) ==> Committed(old(store.Contents()), arrivals, store.Contents())
      ensures Later(old(store.order), old(store.ends), store.order, store.ends)
    {
      hide Valid;
      hide Built;
      hide CollisionFree;
      hide UpToDate;
      hide Reached;
      hide Committed;
      hide SameCheckpoint;
      hide SavedNow;
      ok := TryRestore();
      if ok {
        UpToDateBuilt();
      } else {
        ghost var before := store.Contents();
        ok := Rebuild(arrivals);
        CommittedGrows(before, arrivals, store.Contents());
      }
    }

    lemma UpToDateBuilt()
      requires UpToDate()
      ensures Built(store.Contents()) && CollisionFree(store.Contents())
    {
      hide CheckpointSound;
      hide HistorySound;
      hide StateOf;
      hide CollisionFree;
      assert store.order[..cursor] == store.order;
    }

    /** The last part of a canonical read: fold in what was appended since the cursor. */
    method CatchUpStep(ghost seen: set<Op>) returns (ok: bool)
      requires Built(seen)
      modifies this`state, this`cursor, this`history, this`sinceCheckpoint, store`checkpoint, store`written
      ensures ok <==> CollisionFree(store.Contents())
      ensures ok ==> UpToDate() && |history| <= |old(history)| + 1
      ensures ok && old(cursor) < |store.order| ==> StepFrom(history, old(cursor))
      ensures ok && old(cursor) == |store.order| ==> history == old(history)
      ensures ok && old(cursor) < |store.order| ==>
                var count := old(sinceCheckpoint) + |store.order| - old(cursor);
                if count >= 100 then SavedNow(store.Contents()) && (token.Some? ==> sinceCheckpoint == 0)
                else store.checkpoint == old(store.checkpoint) && sinceCheckpoint == count
      ensures !ok ==> Valid() && state == old(state)
    {
      hide Reached;
      hide HistorySound;
      hide CheckpointSound;
      hide Folded;
      hide CollisionFree;
      var count, folded := FoldRest(state.value, cursor, seen);
      if folded.ValueError? { return false; }
      if count == 0 {
        BuiltAtEnd(seen);
        return true;
      }
      Advance(seen, folded.value.0, count, folded.value.1);
      if sinceCheckpoint >= CHECKPOINT_INTERVAL_OPS {
        SaveCheckpoint(store.Contents());
      }
      BuiltAtEnd(store.Contents());
      ok := true;
    }

    /** Nothing lies beyond the cursor: the cache is exact. */
    lemma BuiltAtEnd(seen: set<Op>)
      requires Built(seen) && cursor == |store.order|
      ensures UpToDate() && CollisionFree(store.Contents())
    {
      hide HistorySound;
      hide CheckpointSound;
      hide StateOf;
      hide CollisionFree;
      assert store.order[..cursor] == store.order;
      assert seen == Elements(store.order);
      AtRestAtEnd(state.value, store.order, store.ends, cachedRules);
    }

    method Advance(ghost seen: set<Op>, now: MemoryState, count: nat, d: Delta)
      requires Built(seen) && count > 0 && count == |store.order| - cursor
      requires Folded(state.value, (now, d), cursor, count, store.order, store.Contents(), registry.current, seen)
      modifies this`state, this`cursor, this`history, this`sinceCheckpoint
      ensures Built(store.Contents()) && cursor == |store.order| && StepFrom(history, old(cursor))
      ensures |history| <= |old(history)| + 1 && sinceCheckpoint == old(sinceCheckpoint) + count
    {
      hide Built;
      hide Reached;
      hide Folded;
      hide CheckpointSound;
      hide StepFrom;
      hide StepSound;
      hide AtRest;
      hide HistorySound;
      hide HoldsAtLeast;
      hide IsBoundary;
      hide Batched;
      hide Upto;
      ExactStep(seen, now, count, d);
      NewestStep(history, d);
      BuiltParts(seen);
      NextParts(history, d, origin, store.order, store.ends, registry.current, now, store.Contents());
      state, cursor, history := Some(now), |store.order|, Remember(history, d);
      sinceCheckpoint := sinceCheckpoint + count;
      BuiltNow(now);
    }

    lemma BuiltParts(seen: set<Op>)
      requires Built(seen)
      ensures store.Valid() && registry.Valid() && CheckpointSound(store.checkpoint, store.written, store.order, store.ends)
      ensures HistorySound(history, origin, cursor, store.order, registry.current) && cachedRules == registry.current
      ensures materializedRegistry == registry && materializedRevision == registry.revision
      ensures Batched(store.ends, |store.order|) && Elements(store.order) == store.Contents()
    {
      hide HoldsAtLeast;
      hide IsBoundary;
      hide CheckpointSound;
      hide HistorySound;
      hide CollisionFree;
    }

    lemma BuiltNow(now: MemoryState)
      requires store.Valid() && registry.Valid()
      requires CheckpointSound(store.checkpoint, store.written, store.order, store.ends)
      requires state == Some(now) && cursor == |store.order| && origin.at < cursor && cachedRules == registry.current
      requires materializedRegistry == registry && materializedRevision == registry.revision
      requires IsBoundary(store.ends, cursor) && HoldsAtLeast(now, cursor, store.order, cachedRules, store.Contents())
      requires HistorySound(history, origin, cursor, store.order, cachedRules) && store.Contents() == Upto(store.order, cursor)
      ensures Built(store.Contents())
    {
      hide HoldsAtLeast;
      hide IsBoundary;
      hide CheckpointSound;
      hide HistorySound;
    }

    lemma ExactStep(seen: set<Op>, now: MemoryState, count: nat, d: Delta)
      requires Built(seen) && count > 0 && count == |store.order| - cursor
      requires Folded(state.value, (now, d), cursor, count, store.order, store.Contents(), registry.current, seen)
      ensures Reached(now, store.Contents(), registry.current) && StepSound(d, origin, store.order, registry.current)
      ensures d.cursorBefore == cursor && d.cursorAfter == |store.order| && !d.fullRebuild && d.processed != []
    {
      hide CheckpointSound;
      hide HistorySound;
      hide DeltaCovers;
      hide CollisionFree;
      hide StepSound;
      hide StateOf;
      hide IsBoundary;
      assert store.order[cursor..|store.order|] == store.order[cursor..];
      StepOfCatchUp(state.value, now, d, origin, cursor, store.order, registry.current);
    }

    lemma CurrentBuilt()
      requires Valid() && Current()
      ensures cursor <= |store.order| && Built(Upto(store.order, cursor))
    {
      hide Reached;
      hide CheckpointSound;
      hide HistorySound;
    }

    /** Before reading the suffix: rebuild a stale cache, restore or build a missing one. */
    method EnsureBuilt(arrivals: seq<Op>) returns (ok: bool, ghost seen: set<Op>)
      requires Valid() && Readable()
      modifies this`token, this`state, this`cursor, this`materializedRegistry, this`materializedRevision, this`history,
               this`sinceCheckpoint, this`cachedRules, this`origin, store`order, store`ends, store`checkpoint, store`written, store.log
      ensures ok ==> Built(seen)
      ensures !ok ==> Valid() && Readable() && !CollisionFree(store.Contents()) && state == old(state) && !Current()
      ensures old(Current()) ==> ok && Current() && origin == old(origin) && store.Contents() == old(store.Contents())
                                 && cursor == old(cursor)
                                 && store.order == old(store.order) && store.ends == old(store.ends)
      ensures ok && !old(Current()) && (old(state.None? && HasCheckpoint()) || JustBuilt(|old(store.order)|)) ==> |history| <= 1
      ensures ok && !old(Current()) && !old(state.None? && HasCheckpoint()) ==> JustBuilt(|old(store.order)|)
      ensures !old(Current()) && !old(state.None? && HasCheckpoint()) ==> Committed(old(store.Contents()), arrivals, store.Contents())
      ensures Arrived(old(store.Contents()), arrivals, store.Contents())
      ensures Later(old(store.order), old(store.ends), store.order, store.ends)
    {
      hide Valid;
      hide Built;
      hide CollisionFree;
      hide Committed;
      hide SameCheckpoint;
      hide SavedNow;
      DropToken();
      if Current() {
        CurrentBuilt();
        return true, Upto(store.order, cursor);
      }
      if state.Some? {
        ok := Rebuild(arrivals);
      } else {
        ok := RestoreOrBuild(arrivals);
      }
      seen := store.Contents();
    }

    /** A read that found no current cache and no checkpoint to restore built one from the log. */
    ghost predicate Fresh(at: nat, before: set<Op>, arrivals: seq<Op>) reads this, store, store.log {
      origin == Origin(at, store.Contents()) && |history| <= 1 && (at < |store.order| ==> StepFrom(history, at))
      && Committed(before, arrivals, store.Contents())
    }

    /** Whether the next read builds the cache from the log. */
    ghost predicate MustBuild() reads this, registry, store { !Current() && !(state.None? && HasCheckpoint()) }

    /** `_materialize_canonical_incrementally`: whatever the cache was, and whatever other writers
        commit while it is rebuilt, the result is full materialization of the store's log. */
    method MaterializeCanonicalIncrementally(arrivals: seq<Op>) returns (r: Result<MemoryState>)
      requires Valid() && Readable()
      modifies this`token, this`state, this`cursor, this`materializedRegistry, this`materializedRevision, this`history,
               this`sinceCheckpoint, this`cachedRules, this`origin, store`order, store`ends, store`checkpoint, store`written, store.log
      ensures Valid() && Readable() && Stays(old(Seen()), Seen())
      ensures r.Ok? <==> CollisionFree(store.Contents())
      ensures r.Ok? ==> UpToDate() && r.value == state.value
      ensures r.Ok? ==> r.value == StateOf(store.Contents(), registry.current, UNSCOPED)
      ensures old(Current()) ==> store.order == old(store.order)
      ensures old(Current()) && r.Ok? && old(cursor) < |store.order| ==> StepFrom(history, old(cursor))
      ensures r.Ok? && old(MustBuild()) ==> Fresh(|old(store.order)|, old(store.Contents()), arrivals)
      ensures Arrived(old(store.Contents()), arrivals, store.Contents())
    {
      hide Built;
      hide CollisionFree;
      hide Valid;
      hide StateOf;
      hide Committed;
      hide SameCheckpoint;
      hide StepFrom;
      ghost var before := Seen();
      var ok, seen := EnsureBuilt(arrivals);
      if !ok { return ValueError; }
      BuiltCurrent(seen);
      ok := CatchUpStep(seen);
      if !ok { return ValueError; }
      UpToDateIs();
      r := Ok(state.value);
    }

    lemma BuiltCurrent(seen: set<Op>)
      requires Built(seen)
      ensures Current() && cursor <= |store.order| && origin.at <= cursor
    {
      hide HoldsAtLeast;
      hide IsBoundary;
      hide CheckpointSound;
      hide StepSound;
      hide OriginSound;
      hide CollisionFree;
    }

    lemma UpToDateIs()
      requires UpToDate()
      ensures Valid() && Current() && state.value == StateOf(store.Contents(), registry.current, UNSCOPED)
    {
      hide Valid;
      hide Reached;
      ReachedIs(state.value, store.Contents(), registry.current);
    }

    /** `materialize`: the canonical read without arguments, otherwise full materialization. */
    method Materialize(rules: Option<Registry>, w: Window, arrivals: seq<Op>) returns (r: Result<MemoryState>)
      requires Valid() && Readable()
      modifies this`token, this`state, this`cursor, this`materializedRegistry, this`materializedRevision, this`history,
               this`sinceCheckpoint, this`cachedRules, this`origin, store`order, store`ends, store`checkpoint, store`written, store.log
      ensures Valid() && Readable() && Stays(old(Seen()), Seen())
      ensures r.Ok? <==> CollisionFree(store.Contents())
      ensures r.Ok? ==> r.value == StateOf(store.Contents(), if rules.Some? then rules.value else registry.current, w)
    {
      hide Valid;
      hide CollisionFree;
      hide StateOf;
      hide UpToDate;
      hide SameCheckpoint;
      if rules.None? && w == UNSCOPED {
        r := MaterializeCanonicalIncrementally(arrivals);
      } else {
        StoreOfValid();
        var ops := store.log.IterOps();
        r := Full.Materialize(ops, if rules.Some? then rules.value else registry.current, w);
      }
    }

    lemma StoreOfValid()
      requires Valid()
      ensures store.Valid()
    {
      hide CacheSound;
      hide CheckpointSound;
    }

    /** `materialize_with_delta`: unless a full rebuild is reported, the delta names every change
        since the state that what is remembered from the position on was folded from: the state at
        that position, or, where the cache was last built, the state it was built with. */
    method MaterializeWithDelta(since: Option<nat>, arrivals: seq<Op>) returns (r: Result<(MemoryState, Delta)>)
      requires Valid() && Readable()
      modifies this`token, this`state, this`cursor, this`materializedRegistry, this`materializedRevision, this`history,
               this`sinceCheckpoint, this`cachedRules, this`origin, store`order, store`ends, store`checkpoint, store`written, store.log
      ensures Valid() && Readable() && Stays(old(Seen()), Seen())
      ensures r.Ok? <==> CollisionFree(store.Contents())
      ensures r.Ok? ==> r.value.0 == StateOf(store.Contents(), registry.current, UNSCOPED)
      ensures r.Ok? ==> UpToDate() && r.value.1.cursorAfter == |store.order|
      ensures r.Ok? ==> r.value.1.cursorBefore == if since.Some? then since.value else 0
      ensures r.Ok? && !r.value.1.fullRebuild ==>
                since.Some? && SpanSound(r.value.1, since.value, |store.order|, origin, store.order, registry.current)
      ensures r.Ok? ==> (r.value.1.fullRebuild <==>
                since.None? || (since.value != |store.order| && !StepFrom(history, since.value)))
      ensures r.Ok? && since.Some? && since.value < origin.at ==> r.value.1.fullRebuild
      ensures r.Ok? && since == Some(|store.order|) ==> r.value.1.IsEmpty() && r.value.1.Silent()
      ensures r.Ok? && r.value.1.IsEmpty() ==> since == Some(|store.order|)
      ensures r.Ok? && since == Some(origin.at) && |history| <= 1 && origin.at <= |store.order| ==>
                (AllRedelivered(store.order[origin.at..], origin.held) ==> r.value.1.Silent())
      ensures old(Current()) ==> store.order == old(store.order)
      ensures old(Current()) && r.Ok? && since == Some(old(cursor)) && old(cursor) <= |store.order| ==> !r.value.1.fullRebuild
      ensures r.Ok? && old(MustBuild()) ==> Fresh(|old(store.order)|, old(store.Contents()), arrivals)
      ensures Arrived(old(store.Contents()), arrivals, store.Contents())
    {
      hide Valid;
      hide CollisionFree;
      hide StateOf;
      hide SpanSound;
      hide SameCheckpoint;
      hide Committed;
      hide AllRedelivered;
      var read := MaterializeCanonicalIncrementally(arrivals);
      if read.ValueError? { return ValueError; }
      UpToDateParts();
      var current := cursor;
      var rebuild := EMPTY_DELTA.(cursorBefore := if since.Some? then since.value else 0, cursorAfter := current, fullRebuild := true);
      if since.None? { return Ok((read.value, rebuild)); }
      if since.value == current {
        NoSpan(origin, store.order, registry.current);
        return Ok((read.value, EMPTY_DELTA.(cursorBefore := current, cursorAfter := current)));
      }
      var deltas := DeltasSince(history, since.value, current);
      if deltas.None? { return Ok((read.value, rebuild)); }
      CombinedSince(since.value, deltas.value);
      r := Ok((read.value, CombineAll(deltas.value)));
    }

    lemma UpToDateParts()
      requires UpToDate()
      ensures Valid() && origin.at <= cursor == |store.order| && Chained(history, cursor) && OriginSound(origin, store.order)
      ensures forall i :: 0 <= i < |history| ==> origin.at <= history[i].cursorBefore
    {
      hide CheckpointSound;
      hide AtRest;
      hide Reached;
      hide StepSound;
      hide OriginSound;
    }

    lemma CombinedSince(since: nat, deltas: seq<Delta>)
      requires UpToDate() && since != cursor
      requires exists k: nat :: k < |history| && deltas == history[k..] && history[k].cursorBefore == since
      ensures deltas != [] && CombineAll(deltas).cursorAfter == cursor && !CombineAll(deltas).fullRebuild
      ensures CombineAll(deltas).cursorBefore == since
      ensures CombineAll(deltas).processed != [] && origin.at <= since
      ensures SpanSound(CombineAll(deltas), since, cursor, origin, store.order, registry.current)
      ensures since == origin.at && |history| <= 1 && AllRedelivered(store.order[origin.at..], origin.held) ==> CombineAll(deltas).Silent()
    {
      hide Valid;
      hide UpToDate;
      hide HistorySound;
      hide CollisionFree;
      hide SpanSound;
      UpToDateHistory();
      CombineFrom(history, origin, cursor, store.order, registry.current, since, deltas);
    }

    lemma UpToDateHistory()
      requires UpToDate()
      ensures HistorySound(history, origin, cursor, store.order, registry.current) && cursor == |store.order|
      ensures CollisionFree(Elements(store.order))
    {
      hide CheckpointSound;
      hide StepSound;
      hide StateOf;
      hide CollisionFree;
      hide OriginSound;
    }

    /** Registering a rule on the registry in use: the cache stays a sound memory of the old rules, and
        is recognised as stale. */
    method RegisterRule(predicateName: Name, rule: Rule)
      requires Valid()
      modifies registry
      ensures Valid() && registry.current == Registry(old(registry.current).rules[predicateName := rule])
      ensures !Current() && (state.Some? ==> Readable())
    {
      hide AtRest;
      hide HistorySound;
      hide CheckpointSound;
      hide SameCheckpoint;
      registry.Register(predicateName, rule);
    }

    /** Assigning another registry object. */
    method ReplaceRegistry(other: PredicateRegistry)
      requires Valid() && other.Valid()
      modifies this`registry
      ensures Valid() && registry == other && (state.Some? ==> Readable())
    {
      hide AtRest;
      hide HistorySound;
      hide CheckpointSound;
      hide SameCheckpoint;
      registry := other;
    }

    /** Receive progress is kept in the same store, apart from everything the cache depends on. */
    method SaveProgress(p: Progress)
      requires Valid()
      modifies store`progress
      ensures Valid() && store.progress == old(store.progress)[p.peer := p]
    {
      hide AtRest;
      hide HistorySound;
      hide CheckpointSound;
      store.SaveReplicaProgress(p);
    }

    /** Later appends, whoever makes them, keep the cache sound. */
    lemma StoreGrew(order: seq<Op>, ends: seq<nat>)
      requires store.Valid() && RegistryRemembered() && Later(order, ends, store.order, store.ends)
      requires state.Some? ==> AtRest(state.value, cursor, order, ends, cachedRules)
                               && HistorySound(history, origin, cursor, order, cachedRules)
                               && (origin.at == cursor ==> origin.held == Upto(order, cursor))
      requires state.None? ==> history == []
      requires CheckpointSound(store.checkpoint, store.written, order, ends)
      ensures Valid()
    {
      hide AtRest;
      hide HistorySound;
      hide CheckpointSound;
      hide OriginSound;
      CheckpointLater(store.checkpoint, store.written, order, ends, store.order, store.ends);
      if state.Some? {
        AtRestLater(state.value, cursor, order, ends, store.order, store.ends, cachedRules);
        AtRestOrder(state.value, cursor, order, ends, cachedRules);
        HistoryLater(history, origin, cursor, order, store.order, cachedRules);
        UptoLater(order, store.order, cursor);
      }
    }
  }

  /** Either no batch of other writers came in between, or theirs did. */
  ghost predicate Arrived(before: set<Op>, arrivals: seq<Op>, after: set<Op>) {
    after == before || Committed(before, arrivals, after)
  }

  lemma CommittedGrows(before: set<Op>, arrivals: seq<Op>, after: set<Op>)
    requires Committed(before, arrivals, after)
    ensures before <= after && (!CollisionFree(before) ==> !CollisionFree(after))
  {
    if CollisionFree(after) { CollisionFreeSubset(before, after); }
  }

  /** What folding the rest of the order into a state gives. */
  ghost predicate Folded(base: MemoryState, x: (MemoryState, Delta), at: nat, count: nat, order: seq<Op>, contents: set<Op>,
                         rules: Registry, seen: set<Op>)
  {
    && Reached(x.0, contents, rules) && DeltaCovers(x.1, base, x.0, rules) && !x.1.fullRebuild
    && x.1.cursorBefore == at && x.1.cursorAfter == |order| && (x.1.processed != [] <==> count > 0) && at <= |order|
    && (AllRedelivered(order[at..], seen) ==> x.1.Silent())
  }

  /** A restored cache: built where its checkpoint was saved, with at most the step from there. */
  lemma RestoredParts(now: MemoryState, base: MemoryState, at: nat, count: nat, d: Delta, held: set<Op>, order: seq<Op>, ends: seq<nat>,
                      rules: Registry)
    requires Batched(ends, |order|) && count + at == |order| && base == StateOf(held, rules, UNSCOPED)
    requires OriginSound(Origin(at, held), order) && Folded(base, (now, d), at, count, order, Elements(order), rules, held)
    ensures Reached(now, Elements(order), rules) && AtRest(now, |order|, order, ends, rules)
    ensures HistorySound(if count > 0 then [d] else [], Origin(at, held), |order|, order, rules)
    ensures at == |order| ==> held == Upto(order, |order|)
  {
    hide Reached;
    hide DeltaCovers;
    hide StateOf;
    hide CollisionFree;
    AtRestAtEnd(now, order, ends, rules);
    assert order[..|order|] == order && order[at..|order|] == order[at..];
    if count > 0 {
      StepOfCatchUp(base, now, d, Origin(at, held), at, order, rules);
    }
    hide StepSound;
  }

  lemma AtRestOrder(state: MemoryState, cursor: nat, order: seq<Op>, ends: seq<nat>, rules: Registry)
    requires AtRest(state, cursor, order, ends, rules)
    ensures cursor <= |order|
  {
    hide Reached;
  }

  lemma SavedIsSound(version: Name, token: Name, cursor: nat, state: MemoryState, seen: set<Op>, rules: Registry,
                     order: seq<Op>, ends: seq<nat>)
    requires IsBoundary(ends, cursor) && HoldsAtLeast(state, cursor, order, rules, seen)
    ensures CheckpointSound(Some(SavedCheckpoint(version, token, cursor, MemoryStateToCheckpoint(state))), Written(seen, rules), order, ends)
  {
    hide StateOf;
    hide CollisionFree;
    hide MemoryStateToCheckpoint;
  }

  /** A state just materialized from the whole log, beside a cursor read before that. */
  ghost predicate FreshState(state: MemoryState, ops: set<Op>, rules: Registry, cursor: nat, order: seq<Op>, ends: seq<nat>) {
    && Reached(state, ops, rules) && IsBoundary(ends, cursor) && HoldsAtLeast(state, cursor, order, rules, ops)
    && HistorySound([], Origin(cursor, ops), cursor, order, rules) && Elements(order) == ops && CollisionFree(ops)
  }

  lemma WholePage(ends: seq<nat>, n: nat)
    requires Batched(ends, n)
    ensures IsBoundary(ends, 0)
    ensures forall after :: IsPage(ends, n, 0, None, after) ==> after == n
  {
  }

  lemma FreshlyBuilt(state: MemoryState, ops: set<Op>, rules: Registry, cursor: nat, order: seq<Op>, ends: seq<nat>,
                     order': seq<Op>, ends': seq<nat>)
    requires CollisionFree(ops) && state == StateOf(ops, rules, UNSCOPED)
    requires cursor == |order| && Later(order, ends, order', ends') && Elements(order') == ops && Batched(ends, |order|)
    ensures FreshState(state, ops, rules, cursor, order', ends')
  {
    hide StateOf;
    hide CollisionFree;
    assert order'[..cursor] == order;
    assert order' == order + order'[cursor..];
    ElementsConcat(order, order'[cursor..]);
    if cursor != 0 { assert ends[|ends| - 1] == cursor; assert ends'[|ends| - 1] == cursor; }
  }

  lemma RestOfOrder(ends: seq<nat>, n: nat, at: nat)
    requires Batched(ends, n)
    ensures forall after :: IsPage(ends, n, at, None, after) ==> after == n
  {
  }

  lemma AtRestAtEnd(state: MemoryState, order: seq<Op>, ends: seq<nat>, rules: Registry)
    requires Batched(ends, |order|) && Reached(state, Elements(order), rules)
    ensures AtRest(state, |order|, order, ends, rules)
  {
    hide Reached;
    assert order[..|order|] == order;
    if order != [] { assert ends[|ends| - 1] == |order|; }
  }

  lemma NextParts(history: seq<Delta>, d: Delta, origin: Origin, order: seq<Op>, ends: seq<nat>, rules: Registry, now: MemoryState,
                  contents: set<Op>)
    requires Batched(ends, |order|) && contents == Elements(order) && Reached(now, contents, rules)
    requires HistorySound(history, origin, d.cursorBefore, order, rules)
    requires d.cursorBefore < d.cursorAfter == |order| && d.processed != [] && !d.fullRebuild
    requires StepSound(d, origin, order, rules)
    ensures HistorySound(Remember(history, d), origin, |order|, order, rules) && origin.at < |order|
    ensures IsBoundary(ends, |order|) && contents == Upto(order, |order|)
    ensures HoldsAtLeast(now, |order|, order, rules, contents)
    ensures |Remember(history, d)| <= |history| + 1
  {
    hide Reached;
    hide StepSound;
    hide OriginSound;
    Remembered(history, d, origin, order, rules);
    AtRestAtEnd(now, order, ends, rules);
    assert order[..|order|] == order;
  }

  lemma NoSpan(origin: Origin, order: seq<Op>, rules: Registry)
    requires OriginSound(origin, order)
    ensures SpanSound(EMPTY_DELTA.(cursorBefore := |order|, cursorAfter := |order|), |order|, |order|, origin, order, rules)
  {
    var at := |order|;
    hide StateOf;
    hide DeltaCovers;
    hide CollisionFree;
    assert order[..at] == order;
    assert origin.at == at ==> origin.held == Upto(order, at);
    EmptyDeltaCovers(StateAt(order, at, rules), rules);
    Recursored(EMPTY_DELTA, StateAt(order, at, rules), StateAt(order, at, rules), rules, at, at);
  }

  lemma {:induction false} CombinedEnds(history: seq<Delta>, cursor: nat, k: nat, j: nat)
    requires Chained(history, cursor) && k < j <= |history|
    ensures CombineAll(history[k..j]).cursorBefore == history[k].cursorBefore
    ensures CombineAll(history[k..j]).cursorAfter == history[j - 1].cursorAfter
    ensures !CombineAll(history[k..j]).fullRebuild && CombineAll(history[k..j]).processed != []
    decreases j
  {
    if j == k + 1 {
      assert history[k..j] == [history[k]];
    } else {
      CombinedEnds(history, cursor, k, j - 1);
      assert history[k..j][..j - 1 - k] == history[k..j - 1];
    }
  }

  lemma CombineFrom(history: seq<Delta>, origin: Origin, cursor: nat, order: seq<Op>, rules: Registry, since: nat, deltas: seq<Delta>)
    requires cursor == |order| && HistorySound(history, origin, cursor, order, rules) && CollisionFree(Elements(order))
    requires exists k: nat :: k < |history| && deltas == history[k..] && history[k].cursorBefore == since
    ensures deltas != [] && CombineAll(deltas).cursorAfter == cursor && !CombineAll(deltas).fullRebuild
    ensures CombineAll(deltas).cursorBefore == since
    ensures CombineAll(deltas).processed != [] && origin.at <= since
    ensures SpanSound(CombineAll(deltas), since, cursor, origin, order, rules)
    ensures since == origin.at && |history| <= 1 && AllRedelivered(order[origin.at..], origin.held) ==> CombineAll(deltas).Silent()
  {
    hide SpanSound;
    hide CollisionFree;
    hide HistorySound;
    hide CombineAll;
    hide AllRedelivered;
    var k: nat :| k < |history| && deltas == history[k..] && history[k].cursorBefore == since;
    CombinePart(history, origin, cursor, order, rules, k);
  }

  lemma CombinePart(history: seq<Delta>, origin: Origin, cursor: nat, order: seq<Op>, rules: Registry, k: nat)
    requires cursor == |order| && HistorySound(history, origin, cursor, order, rules) && CollisionFree(Elements(order))
    requires k < |history|
    ensures history[k..] != [] && CombineAll(history[k..]).cursorBefore == history[k].cursorBefore
    ensures CombineAll(history[k..]).cursorAfter == cursor && !CombineAll(history[k..]).fullRebuild
    ensures CombineAll(history[k..]).processed != [] && origin.at <= history[k].cursorBefore
    ensures SpanSound(CombineAll(history[k..]), history[k].cursorBefore, cursor, origin, order, rules)
    ensures history[k].cursorBefore == origin.at && |history| <= 1 && AllRedelivered(order[origin.at..], origin.held)
            ==> CombineAll(history[k..]).Silent()
  {
    hide SpanSound;
    hide CollisionFree;
    hide OriginSound;
    hide AllRedelivered;
    assert history[k..|history|] == history[k..] && order[origin.at..|order|] == order[origin.at..];
    CombinedEnds(history, cursor, k, |history|);
    CombinedSound(history, origin, cursor, order, rules, k, |history|);
    if |history| == 1 {
      assert StepSound(history[0], origin, order, rules);
      assert history[k..] == [history[0]];
    }
  }
}
