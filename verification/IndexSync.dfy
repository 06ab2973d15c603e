/** Driving an unreliable external index to a desired projection: the references, the pending
    changes and the index itself, and what relates them. */
module IndexSync {
  import opened Basics
  import opened Model
  import opened Projection

  /** A fingerprint digests everything a record says, so it stands for the record. */
  type References = map<ProjectionId, RetrievalRecord>

  datatype Pending = Upsert(record: RetrievalRecord) | Delete

  type Index = map<ProjectionId, RetrievalRecord>

  /** How the external repository answers one call. A failed upsert may leave anything at its own
      identifier; a failed delete leaves the index as it was. */
  datatype Answer = Succeeds | Fails(left: Option<RetrievalRecord>)

  // ---------------------------------------------------------------- what is kept

  /** Whatever the index holds is referenced or pending, and a reference names what is there. */
  ghost predicate Accounted(index: Index, refs: References, pending: map<ProjectionId, Pending>) {
    && (forall p :: p in index ==> p in refs || p in pending)
    && (forall p :: p in refs ==> p in index && index[p] == refs[p])
  }

  ghost predicate SettledAt(index: Index, desired: Index, p: ProjectionId) {
    (p in index <==> p in desired) && (p in index ==> index[p] == desired[p])
  }

  ghost predicate PendingFits(x: Pending, desired: Index, p: ProjectionId) {
    match x
    case Upsert(r) => p in desired && desired[p] == r
    case Delete => p !in desired
  }

  /** Every identifier is either settled or has the right change pending. */
  ghost predicate Tracks(index: Index, pending: map<ProjectionId, Pending>, desired: Index) {
    && (forall p :: p !in pending ==> SettledAt(index, desired, p))
    && (forall p :: p in pending ==> PendingFits(pending[p], desired, p))
  }

  lemma NothingPending(index: Index, desired: Index)
    requires Tracks(index, map[], desired)
    ensures index == desired
  {
    var none: map<ProjectionId, Pending> := map[];
    forall p ensures (p in index <==> p in desired) && (p in index ==> index[p] == desired[p]) {
      assert p !in none && SettledAt(index, desired, p);
    }
    assert index.Keys == desired.Keys;
  }

  // ---------------------------------------------------------------- refreshing what is pending

  /** `for record in upserts`: a record the index already has needs nothing. */
  function QueueUpsert(pending: map<ProjectionId, Pending>, refs: References, p: ProjectionId, r: RetrievalRecord)
    : map<ProjectionId, Pending>
  {
    if p in refs && refs[p] == r then pending - {p} else pending[p := Upsert(r)]
  }

  ghost predicate Queued(pending': map<ProjectionId, Pending>, pending: map<ProjectionId, Pending>, refs: References,
                         upserts: Index, done: set<ProjectionId>)
  {
    forall p :: QueuedAt(pending', pending, refs, upserts, done, p)
  }

  ghost predicate QueuedAt(pending': map<ProjectionId, Pending>, pending: map<ProjectionId, Pending>, refs: References,
                           upserts: Index, done: set<ProjectionId>, p: ProjectionId)
  {
    if p in done && p in upserts then
      if p in refs && refs[p] == upserts[p] then p !in pending' else p in pending' && pending'[p] == Upsert(upserts[p])
    else (p in pending' <==> p in pending) && (p in pending ==> pending'[p] == pending[p])
  }

  lemma QueueNext(pending': map<ProjectionId, Pending>, pending: map<ProjectionId, Pending>, refs: References, upserts: Index,
                  done: set<ProjectionId>, p: ProjectionId)
    requires Queued(pending', pending, refs, upserts, done) && p in upserts
    ensures Queued(QueueUpsert(pending', refs, p, upserts[p]), pending, refs, upserts, done + {p})
  {
    forall q ensures QueuedAt(QueueUpsert(pending', refs, p, upserts[p]), pending, refs, upserts, done + {p}, q) {
      assert QueuedAt(pending', pending, refs, upserts, done, q);
    }
  }

  /** `for projection_id in deletes` */
  function QueueDeletes(pending: map<ProjectionId, Pending>, deletes: set<ProjectionId>): map<ProjectionId, Pending> {
    pending + map p | p in deletes :: Delete
  }

  /** The desired projection moves by a delta: what was tracked stays tracked. */
  lemma DeltaTracked(index: Index, refs: References, pending: map<ProjectionId, Pending>, was: Index,
                     upserts: Index, deletes: set<ProjectionId>, queued: map<ProjectionId, Pending>)
    requires Accounted(index, refs, pending) && Tracks(index, pending, was)
    requires Queued(queued, pending, refs, upserts, upserts.Keys) && deletes !! upserts.Keys
    ensures var now := (was - deletes) + upserts;
            Accounted(index, refs, QueueDeletes(queued, deletes)) && Tracks(index, QueueDeletes(queued, deletes), now)
  {
    var now, pending' := (was - deletes) + upserts, QueueDeletes(queued, deletes);
    forall p ensures (p in index ==> p in refs || p in pending')
                     && (p !in pending' ==> SettledAt(index, now, p))
                     && (p in pending' ==> PendingFits(pending'[p], now, p))
    {
      assert QueuedAt(queued, pending, refs, upserts, upserts.Keys, p);
      assert p !in pending ==> SettledAt(index, was, p);
      assert p in pending ==> PendingFits(pending[p], was, p);
    }
  }

  /** A full rebuild starts from any index that is accounted for. */
  lemma RebuildTracked(index: Index, refs: References, pending: map<ProjectionId, Pending>, now: Index,
                       queued: map<ProjectionId, Pending>)
    requires Accounted(index, refs, pending) && Queued(queued, pending, refs, now, now.Keys)
    ensures var pending' := QueueDeletes(queued, (refs.Keys + pending.Keys) - now.Keys);
            Accounted(index, refs, pending') && Tracks(index, pending', now)
  {
    var pending' := QueueDeletes(queued, (refs.Keys + pending.Keys) - now.Keys);
    forall p ensures (p in index ==> p in refs || p in pending')
                     && (p !in pending' ==> SettledAt(index, now, p))
                     && (p in pending' ==> PendingFits(pending'[p], now, p))
    {
      assert QueuedAt(queued, pending, refs, now, now.Keys, p);
    }
  }

  // ---------------------------------------------------------------- processing what is pending

  datatype Held = Held(index: Index, refs: References, pending: map<ProjectionId, Pending>)

  ghost predicate Consistent(h: Held, desired: Index) {
    Accounted(h.index, h.refs, h.pending) && Tracks(h.index, h.pending, desired)
  }

  function WithAnswer(index: Index, p: ProjectionId, left: Option<RetrievalRecord>): Index {
    if left.Some? then index[p := left.value] else index - {p}
  }

  /** One pending change. `known` is the reference listed before the loop. */
  function Process(h: Held, p: ProjectionId, x: Pending, known: Option<RetrievalRecord>, answer: Answer): Held {
    match x
    case Delete =>
      if answer.Succeeds? then Held(h.index - {p}, h.refs - {p}, h.pending - {p}) else h
    case Upsert(r) =>
      if known == Some(r) then h.(pending := h.pending - {p})
      else if answer.Succeeds? then Held(h.index[p := r], h.refs[p := r], h.pending - {p})
      else Held(WithAnswer(h.index, p, answer.left), if known.Some? then h.refs - {p} else h.refs, h.pending)
  }

  function ReferenceAt(refs: References, p: ProjectionId): Option<RetrievalRecord> { if p in refs then Some(refs[p]) else None }

  /** Whatever the repository answers, the accounting survives; an answered change is settled. */
  lemma ProcessKeeps(h: Held, desired: Index, p: ProjectionId, answer: Answer)
    requires Consistent(h, desired) && p in h.pending
    ensures var h' := Process(h, p, h.pending[p], ReferenceAt(h.refs, p), answer);
            Consistent(h', desired)
            && (h'.pending == h.pending - {p} || (h'.pending == h.pending && answer.Fails?))
            && forall q :: q != p ==> ReferenceAt(h'.refs, q) == ReferenceAt(h.refs, q)
  {
    var h' := Process(h, p, h.pending[p], ReferenceAt(h.refs, p), answer);
    assert PendingFits(h.pending[p], desired, p);
    forall q | q != p ensures (q in h'.index <==> q in h.index) && (q in h.index ==> h'.index[q] == h.index[q]) {}
    assert Accounted(h'.index, h'.refs, h'.pending);
    assert Tracks(h'.index, h'.pending, desired) by {
      forall q | q !in h'.pending ensures SettledAt(h'.index, desired, q) {
        if q != p { assert SettledAt(h.index, desired, q); }
      }
      forall q | q in h'.pending ensures PendingFits(h'.pending[q], desired, q) {
        assert PendingFits(h.pending[q], desired, q);
      }
    }
  }

  /** When a delete is reported as failed, whatever it did to its record, the accounting survives
      exactly if the record was not referenced or is still as it was. */
  lemma FailedDeleteExactly(h: Held, desired: Index, p: ProjectionId, index': Index)
    requires Consistent(h, desired) && p in h.pending && h.pending[p].Delete?
    requires index' - {p} == h.index - {p}
    ensures Consistent(Held(index', h.refs, h.pending), desired) <==> p !in h.refs || index' == h.index
  {
    forall q | q != p ensures (q in index' <==> q in h.index) && (q in index' ==> index'[q] == h.index[q]) {
      assert q in index' <==> q in index' - {p};
      assert q in h.index <==> q in h.index - {p};
      assert q in index' ==> (index' - {p})[q] == index'[q];
      assert q in h.index ==> (h.index - {p})[q] == h.index[q];
    }
    if p !in h.refs || index' == h.index {
      forall q | q !in h.pending ensures SettledAt(index', desired, q) { assert SettledAt(h.index, desired, q); }
    }
    if Consistent(Held(index', h.refs, h.pending), desired) && p in h.refs {
      assert index'.Keys == h.index.Keys;
    }
  }

  /** Why failed deletes must leave the index alone: if one takes effect although it is reported as
      failed, the reference outlives the record, and when the same record is wanted again the
      service believes it is already there. */
  lemma FailedDeleteWithEffectGoesStale(p: ProjectionId, r: RetrievalRecord)
    ensures var was, gone := Held(map[p := r], map[p := r], map[p := Delete]), Held(map[], map[p := r], map[p := Delete]);
            Consistent(was, map[]) && !Accounted(gone.index, gone.refs, gone.pending)
            && QueueUpsert(gone.pending, gone.refs, p, r) == map[]
            && !Tracks(gone.index, QueueUpsert(gone.pending, gone.refs, p, r), map[p := r])
  {
    var was := Held(map[p := r], map[p := r], map[p := Delete]);
    assert forall q :: q !in was.pending ==> SettledAt(was.index, map[], q);
    assert !SettledAt(map[], map[p := r], p);
    assert map[p := Delete] - {p} == map[];
  }
}
