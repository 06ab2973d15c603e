/** Whole runs of a projection service and the memory it follows: synchronizing, appending, reading,
    pulling from a peer and registering rules, in any order. */
module ServiceRuns {
  import opened Basics
  import opened Model
  import opened Records
  import opened State
  import Checkpoint
  import opened Memories
  import opened Projection
  import opened ReplicaSync
  import opened IndexSync
  import opened Service

  datatype Action =
    | Synchronize(answers: map<ProjectionId, Answer>, arrivals: seq<Op>)
    | Append(op: Op)
    | Commit(ops: seq<Op>)
    | Read(rules: Option<Registry>, window: Window, arrivals: seq<Op>)
    | Receive(delta: ReplicaDelta, arrivals: seq<Op>)
    | Pull(limit: Option<nat>, meanwhile: seq<Op>, arrivals: seq<Op>)
    | Register(predicateName: Name, rule: Rule)

  ghost predicate Apart(s: ProjectionService, peer: Memory) reads s, peer, s.memory {
    && peer != s.memory && peer.store != s.memory.store && peer.store.log != s.memory.store.log
    && peer.registry != s.memory.registry && peer.materializedRegistry != s.memory.registry
  }

  /** Every identifier without a pending change is in the index exactly as the service wants it. */
  lemma UnpendingSettled(s: ProjectionService)
    requires s.Valid() && s.cursor.Some?
    ensures forall p :: p !in s.deltas.deltas ==> SettledAt(s.adapter.index, s.desired, p)
  {
    hide Memory.Valid;
    hide Memory.Readable;
    hide Follows;
  }

  method DoAppend(s: ProjectionService, op: Op)
    requires s.Valid()
    modifies s.memory.store`order, s.memory.store`ends, s.memory.store.log
    ensures s.Valid()
  {
    hide Memory.Valid;
    hide Follows;
    hide Accounted;
    hide Tracks;
    hide Checkpoint.SameCheckpoint;
    hide UniqueOps;
    ghost var before := s.memory.Seen();
    var _ := s.memory.AppendOp(op);
    StillFollowing(s, before);
  }

  method DoCommit(s: ProjectionService, ops: seq<Op>)
    requires s.Valid()
    modifies s.memory.store`order, s.memory.store`ends, s.memory.store.log
    ensures s.Valid()
  {
    hide Memory.Valid;
    hide Follows;
    hide Accounted;
    hide Tracks;
    hide Checkpoint.SameCheckpoint;
    hide UniqueOps;
    ghost var before := s.memory.Seen();
    var _ := s.memory.CommitBatch(ops);
    StillFollowing(s, before);
  }

  lemma StillFollowing(s: ProjectionService, before: Look)
    requires s.cursor.Some? ==> Follows(s.cursor.value, s.desired, before, s.namespace)
    requires Stays(before, s.memory.Seen())
    ensures s.Following()
  {
    hide Follows;
    hide Stays;
    if s.cursor.Some? { FollowsStays(s.cursor.value, s.desired, before, s.memory.Seen(), s.namespace); }
  }

  method DoRead(s: ProjectionService, rules: Option<Registry>, w: Window, arrivals: seq<Op>)
    requires s.Valid()
    modifies s.memory`token, s.memory`state, s.memory`cursor, s.memory`materializedRegistry, s.memory`materializedRevision,
             s.memory`history, s.memory`sinceCheckpoint, s.memory`cachedRules, s.memory`origin, s.memory.store`order,
             s.memory.store`ends, s.memory.store`checkpoint, s.memory.store`written, s.memory.store.log
    ensures s.Valid()
  {
    hide Memory.Valid;
    hide Memory.Readable;
    hide Follows;
    hide Stays;
    hide Accounted;
    hide Tracks;
    ghost var before := s.memory.Seen();
    var _ := s.memory.Materialize(rules, w, arrivals);
    StillFollowing(s, before);
  }

  method DoReceive(s: ProjectionService, d: ReplicaDelta, arrivals: seq<Op>)
    requires s.Valid() && WellFormed(d)
    modifies s.memory`token, s.memory`state, s.memory`cursor, s.memory`materializedRegistry, s.memory`materializedRevision,
             s.memory`history, s.memory`sinceCheckpoint, s.memory`cachedRules, s.memory`origin, s.memory.store`order,
             s.memory.store`ends, s.memory.store`checkpoint, s.memory.store`written, s.memory.store`progress, s.memory.store.log
    ensures s.Valid()
  {
    hide Memory.Valid;
    hide Memory.Readable;
    hide Follows;
    hide Stays;
    hide Accounted;
    hide Tracks;
    ghost var before := s.memory.Seen();
    var _ := ApplyReplicaDelta(s.memory, d, arrivals);
    StillFollowing(s, before);
  }

  method DoPull(s: ProjectionService, peer: Memory, limit: Option<nat>, meanwhile: seq<Op>, arrivals: seq<Op>)
    requires s.Valid() && peer.Valid() && Apart(s, peer)
    modifies s.memory`token, s.memory`state, s.memory`cursor, s.memory`materializedRegistry, s.memory`materializedRevision,
             s.memory`history, s.memory`sinceCheckpoint, s.memory`cachedRules, s.memory`origin, s.memory.store`order,
             s.memory.store`ends, s.memory.store`checkpoint, s.memory.store`written, s.memory.store`progress, s.memory.store.log,
             peer.store`order, peer.store`ends, peer.store.log
    ensures s.Valid() && peer.Valid()
  {
    hide Memory.Valid;
    hide Memory.Readable;
    hide Follows;
    hide Stays;
    hide Accounted;
    hide Tracks;
    hide Pulled;
    hide CanPull;
    ghost var before := s.memory.Seen();
    var _, _ := SyncFrom(s.memory, peer, limit, meanwhile, arrivals);
    StillFollowing(s, before);
  }

  /** A registration the service has not read up to is met by a full rebuild later. */
  method DoRegister(s: ProjectionService, predicateName: Name, rule: Rule)
    requires s.Valid() && s.memory.state.Some? && s.cursor != Some(|s.memory.store.order|)
    modifies s.memory.registry
    ensures s.Valid()
  {
    hide Memory.Valid;
    hide Memory.Readable;
    hide Accounted;
    hide Tracks;
    hide IsProjection;
    s.memory.RegisterRule(predicateName, rule);
  }

  /** What holds of the service between any two actions. */
  ghost predicate Sound(s: ProjectionService, peer: Memory)
    reads s, s.adapter, s.references, s.deltas, s.memory, s.memory.store, s.memory.store.log, s.memory.registry,
          s.memory.materializedRegistry, peer, peer.store, peer.store.log, peer.registry, peer.materializedRegistry
  {
    s.Valid() && peer.Valid() && Apart(s, peer)
  }

  /** A registration is met by a rebuild unless the service has read everything; before the first
      read it could put a stored checkpoint out of date. */
  predicate MayRegister(s: ProjectionService) reads s, s.memory, s.memory.store {
    s.memory.state.Some? && s.cursor != Some(|s.memory.store.order|)
  }

  /** What synchronizing achieves: everything the log says is wanted, and what is not pending is in the
      index as wanted; when no call failed nothing is pending and the index is the projection. */
  ghost predicate Synchronized(s: ProjectionService, answers: map<ProjectionId, Answer>)
    reads s, s.adapter, s.deltas, s.memory, s.memory.store, s.memory.store.log, s.memory.registry, s.memory.materializedRegistry
  {
    && s.WantsAll() && (forall p :: p !in s.deltas.deltas ==> SettledAt(s.adapter.index, s.desired, p))
    && ((forall p :: p in answers ==> answers[p].Succeeds?) ==> s.deltas.deltas == map[] && s.adapter.index == s.desired)
  }

  method DoSynchronize(s: ProjectionService, answers: map<ProjectionId, Answer>, arrivals: seq<Op>)
    requires s.Valid()
    modifies s`cursor, s`desired, s.adapter, s.references, s.deltas, s.memory`token, s.memory`state, s.memory`cursor,
             s.memory`materializedRegistry, s.memory`materializedRevision, s.memory`history, s.memory`sinceCheckpoint,
             s.memory`cachedRules, s.memory`origin, s.memory.store`order, s.memory.store`ends, s.memory.store`checkpoint,
             s.memory.store`written, s.memory.store.log
    ensures s.Valid()
    ensures CollisionFree(s.memory.store.Contents()) ==> Synchronized(s, answers)
  {
    hide ProjectionService.Valid;
    hide ProjectionService.WantsAll;
    hide CollisionFree;
    var _ := s.Synchronize(answers, arrivals);
  }

  /** One action. Only a registration can be turned down: one that no later report would make up for. */
  method Take(s: ProjectionService, peer: Memory, a: Action) returns (done: bool)
    requires Sound(s, peer) && (a.Receive? ==> WellFormed(a.delta))
    modifies s`cursor, s`desired, s.adapter, s.references, s.deltas, s.memory, s.memory.registry, s.memory.store,
             s.memory.store.log, peer.store`order, peer.store`ends, peer.store.log
    ensures Sound(s, peer) && s.memory.registry == old(s.memory.registry)
    ensures done <==> !(a.Register? && !old(MayRegister(s)))
    ensures a.Synchronize? && CollisionFree(s.memory.store.Contents()) ==> Synchronized(s, a.answers)
  {
    hide ProjectionService.Valid;
    hide Memory.Valid;
    hide CollisionFree;
    hide Synchronized;
    done := true;
    match a
    case Synchronize(answers, arrivals) => DoSynchronize(s, answers, arrivals);
    case Append(op) => DoAppend(s, op);
    case Commit(ops) => DoCommit(s, ops);
    case Read(rules, w, arrivals) => DoRead(s, rules, w, arrivals);
    case Receive(d, arrivals) => DoReceive(s, d, arrivals);
    case Pull(limit, meanwhile, arrivals) => DoPull(s, peer, limit, meanwhile, arrivals);
    case Register(predicateName, rule) =>
      if !MayRegister(s) { return false; }
      DoRegister(s, predicateName, rule);
  }

  /** Every run keeps the service sound, however the memory is appended to, read, rebuilt, synced and
      re-ruled between its calls, and ends as its last action leaves it. A run is cut short only
      before a registration that no later report would make up for. */
  method Run(s: ProjectionService, peer: Memory, actions: seq<Action>) returns (taken: nat)
    requires Sound(s, peer) && forall i :: 0 <= i < |actions| && actions[i].Receive? ==> WellFormed(actions[i].delta)
    modifies s`cursor, s`desired, s.adapter, s.references, s.deltas, s.memory, s.memory.registry, s.memory.store,
             s.memory.store.log, peer.store`order, peer.store`ends, peer.store.log
    ensures Sound(s, peer) && taken <= |actions|
    ensures taken < |actions| ==> actions[taken].Register? && !MayRegister(s)
    ensures s.cursor.Some? ==> forall p :: p !in s.deltas.deltas ==> SettledAt(s.adapter.index, s.desired, p)
    ensures taken > 0 && actions[taken - 1].Synchronize? && CollisionFree(s.memory.store.Contents()) ==>
              Synchronized(s, actions[taken - 1].answers)
  {
    hide ProjectionService.Valid;
    hide Memory.Valid;
    hide CollisionFree;
    hide Synchronized;
    hide WellFormed;
    taken := 0;
    while taken < |actions|
      invariant taken <= |actions| && Sound(s, peer) && s.memory.registry == old(s.memory.registry)
      invariant taken > 0 && actions[taken - 1].Synchronize? && CollisionFree(s.memory.store.Contents()) ==>
                  Synchronized(s, actions[taken - 1].answers)
    {
      if actions[taken].Register? && !MayRegister(s) { break; }
      var _ := Take(s, peer, actions[taken]);
      taken := taken + 1;
    }
    if s.cursor.Some? { UnpendingSettled(s); }
  }
}
