/** The record tables a set of operations denotes, and when two payloads of one identifier collide. */
module Records {
  import opened Basics
  import opened Model

  datatype Records = Records(
    sources: map<Id, Source>,
    evidence: map<Id, Evidence>,
    claims: map<Id, Claim>,
    decisions: map<Id, Decision>,
    derivations: map<Id, Derivation>,
    resolutions: map<Id, Resolution>,
    events: map<Id, Event>)

  const EMPTY_RECORDS := Records(map[], map[], map[], map[], map[], map[], map[])

  function SourceId(s: Source): Id { s.id }
  function EvidenceId(e: Evidence): Id { e.id }
  function ClaimId(c: Claim): Id { c.id }
  function DecisionId(d: Decision): Id { d.id }
  function DerivationId(d: Derivation): Id { d.id }
  function ResolutionId(r: Resolution): Id { r.id }
  function EventId(e: Event): Id { e.id }

  // ---------------------------------------------------------------- what a log holds

  function SourcesIn(ops: set<Op>): set<Source> { set op | op in ops && op.SourceAdded? :: op.source }
  function EvidenceIn(ops: set<Op>): set<Evidence> { set op | op in ops && op.EvidenceAdded? :: op.evidence }
  function ClaimsIn(ops: set<Op>): set<Claim> { set op | op in ops && op.ClaimAdded? :: op.claim }
  function DecisionsIn(ops: set<Op>): set<Decision> { set op | op in ops && op.DecisionAdded? :: op.decision }
  function DerivationsIn(ops: set<Op>): set<Derivation> { set op | op in ops && op.DerivationAdded? :: op.derivation }
  function ResolutionsIn(ops: set<Op>): set<Resolution> { set op | op in ops && op.ResolutionAdded? :: op.resolution }
  function EventsIn(ops: set<Op>): set<Event> { set op | op in ops && op.LifecycleEventAdded? :: op.event }
  function RetractionsIn(ops: set<Op>): set<Op> { set op | op in ops && op.ClaimRetracted? }

  /** No record identifier carries two payloads: exactly when materialization does not raise. */
  ghost predicate CollisionFree(ops: set<Op>) {
    && Injective(SourcesIn(ops), SourceId)
    && Injective(EvidenceIn(ops), EvidenceId)
    && Injective(ClaimsIn(ops), ClaimId)
    && Injective(DecisionsIn(ops), DecisionId)
    && Injective(DerivationsIn(ops), DerivationId)
    && Injective(ResolutionsIn(ops), ResolutionId)
    && Injective(EventsIn(ops), EventId)
  }

  /** A log keys its operations by identifier, so no operation identifier carries two payloads. */
  ghost predicate UniqueOps(ops: set<Op>) {
    forall a, b :: a in ops && b in ops && a.opId == b.opId ==> a == b
  }

  ghost function RecordsOf(ops: set<Op>): Records {
    Records(
      ById(SourcesIn(ops), SourceId), ById(EvidenceIn(ops), EvidenceId), ById(ClaimsIn(ops), ClaimId),
      ById(DecisionsIn(ops), DecisionId), ById(DerivationsIn(ops), DerivationId),
      ById(ResolutionsIn(ops), ResolutionId), ById(EventsIn(ops), EventId))
  }

  // ---------------------------------------------------------------- inserting one record

  /** The full path: raise when the stored payload differs, otherwise store. */
  function SetRecord<T(==)>(m: map<Id, T>, id: Id, x: T): Result<map<Id, T>> {
    if id in m && m[id] != x then ValueError else Ok(m[id := x])
  }

  /** `_insert_immutable`: the incremental path also reports whether the record is new. */
  function InsertImmutable<T(==)>(m: map<Id, T>, id: Id, x: T): Result<(map<Id, T>, bool)> {
    if id !in m then Ok((m[id := x], true))
    else if m[id] != x then ValueError
    else Ok((m, false))
  }

  lemma RecordInserted<T(!new)>(s: set<T>, id: T -> Id, x: T)
    requires Injective(s, id)
    ensures Injective(s + {x}, id) <==> !(id(x) in ById(s, id) && ById(s, id)[id(x)] != x)
    ensures Injective(s + {x}, id) ==> ById(s + {x}, id) == ById(s, id)[id(x) := x]
    ensures Injective(s + {x}, id) ==> (id(x) in ById(s, id) <==> x in s)
  {
    if id(x) in ById(s, id) {
      ByIdValues(s, id, id(x));
      assert ById(s, id)[id(x)] in s + {x} && x in s + {x};
    } else {
      forall y | y in s ensures id(y) != id(x) { ByIdLookup(s, id, y); }
    }
    if Injective(s + {x}, id) {
      ByIdAdd(s, id, x);
    }
  }

  /** Storing one record, on either path, against the set of records stored so far. */
  lemma InsertAgrees<T(!new)>(s: set<T>, id: T -> Id, x: T)
    requires Injective(s, id)
    ensures SetRecord(ById(s, id), id(x), x).Ok? <==> Injective(s + {x}, id)
    ensures InsertImmutable(ById(s, id), id(x), x).Ok? <==> Injective(s + {x}, id)
    ensures Injective(s + {x}, id) ==>
              SetRecord(ById(s, id), id(x), x) == Ok(ById(s + {x}, id))
              && InsertImmutable(ById(s, id), id(x), x) == Ok((ById(s + {x}, id), x !in s))
  {
    RecordInserted(s, id, x);
    if Injective(s + {x}, id) && x in s {
      assert s + {x} == s;
    }
  }

  /** The branches of the loop over the log that store a record. */
  function RecordOp(r: Records, op: Op): Result<Records> {
    match op
    case SourceAdded(_, _, _, x) =>
      var m := SetRecord(r.sources, x.id, x);
      if m.Ok? then Ok(r.(sources := m.value)) else ValueError
    case EvidenceAdded(_, _, _, x) =>
      var m := SetRecord(r.evidence, x.id, x);
      if m.Ok? then Ok(r.(evidence := m.value)) else ValueError
    case ClaimAdded(_, _, _, x) =>
      var m := SetRecord(r.claims, x.id, x);
      if m.Ok? then Ok(r.(claims := m.value)) else ValueError
    case DecisionAdded(_, _, _, x) =>
      var m := SetRecord(r.decisions, x.id, x);
      if m.Ok? then Ok(r.(decisions := m.value)) else ValueError
    case DerivationAdded(_, _, _, x) =>
      var m := SetRecord(r.derivations, x.id, x);
      if m.Ok? then Ok(r.(derivations := m.value)) else ValueError
    case ResolutionAdded(_, _, _, x) =>
      var m := SetRecord(r.resolutions, x.id, x);
      if m.Ok? then Ok(r.(resolutions := m.value)) else ValueError
    case LifecycleEventAdded(_, _, _, x) =>
      var m := SetRecord(r.events, x.id, x);
      if m.Ok? then Ok(r.(events := m.value)) else ValueError
    case ClaimRetracted(_, _, _, _, _, _, _, _, _) => Ok(r)
  }

  // ---------------------------------------------------------------- one more operation

  lemma SourcesStep(ops: set<Op>, op: Op)
    ensures SourcesIn(ops + {op}) == if op.SourceAdded? then SourcesIn(ops) + {op.source} else SourcesIn(ops)
  {
    Members(ops, op);
  }

  lemma EvidenceStep(ops: set<Op>, op: Op)
    ensures EvidenceIn(ops + {op}) == if op.EvidenceAdded? then EvidenceIn(ops) + {op.evidence} else EvidenceIn(ops)
  {
    Members(ops, op);
  }

  lemma ClaimsStep(ops: set<Op>, op: Op)
    ensures ClaimsIn(ops + {op}) == if op.ClaimAdded? then ClaimsIn(ops) + {op.claim} else ClaimsIn(ops)
  {
    Members(ops, op);
  }

  lemma DecisionsStep(ops: set<Op>, op: Op)
    ensures DecisionsIn(ops + {op}) == if op.DecisionAdded? then DecisionsIn(ops) + {op.decision} else DecisionsIn(ops)
  {
    Members(ops, op);
  }

  lemma DerivationsStep(ops: set<Op>, op: Op)
    ensures DerivationsIn(ops + {op}) == if op.DerivationAdded? then DerivationsIn(ops) + {op.derivation} else DerivationsIn(ops)
  {
    Members(ops, op);
  }

  lemma ResolutionsStep(ops: set<Op>, op: Op)
    ensures ResolutionsIn(ops + {op}) == if op.ResolutionAdded? then ResolutionsIn(ops) + {op.resolution} else ResolutionsIn(ops)
  {
    Members(ops, op);
  }

  lemma EventsStep(ops: set<Op>, op: Op)
    ensures EventsIn(ops + {op}) == if op.LifecycleEventAdded? then EventsIn(ops) + {op.event} else EventsIn(ops)
  {
    Members(ops, op);
  }

  lemma RetractionsStep(ops: set<Op>, op: Op)
    ensures RetractionsIn(ops + {op}) == if op.ClaimRetracted? then RetractionsIn(ops) + {op} else RetractionsIn(ops)
  {
  }

  lemma Members(ops: set<Op>, op: Op)
    ensures forall x :: x in ops + {op} <==> x in ops || x == op
  {
  }

  lemma KindsStep(ops: set<Op>, op: Op)
    ensures SourcesIn(ops + {op}) == if op.SourceAdded? then SourcesIn(ops) + {op.source} else SourcesIn(ops)
    ensures EvidenceIn(ops + {op}) == if op.EvidenceAdded? then EvidenceIn(ops) + {op.evidence} else EvidenceIn(ops)
    ensures ClaimsIn(ops + {op}) == if op.ClaimAdded? then ClaimsIn(ops) + {op.claim} else ClaimsIn(ops)
    ensures DecisionsIn(ops + {op}) == if op.DecisionAdded? then DecisionsIn(ops) + {op.decision} else DecisionsIn(ops)
    ensures DerivationsIn(ops + {op}) == if op.DerivationAdded? then DerivationsIn(ops) + {op.derivation} else DerivationsIn(ops)
    ensures ResolutionsIn(ops + {op}) == if op.ResolutionAdded? then ResolutionsIn(ops) + {op.resolution} else ResolutionsIn(ops)
    ensures EventsIn(ops + {op}) == if op.LifecycleEventAdded? then EventsIn(ops) + {op.event} else EventsIn(ops)
    ensures RetractionsIn(ops + {op}) == if op.ClaimRetracted? then RetractionsIn(ops) + {op} else RetractionsIn(ops)
  {
    hide *;
    SourcesStep(ops, op);
    EvidenceStep(ops, op);
    ClaimsStep(ops, op);
    DecisionsStep(ops, op);
    DerivationsStep(ops, op);
    ResolutionsStep(ops, op);
    EventsStep(ops, op);
    RetractionsStep(ops, op);
  }

  /** One operation of the loop over the log: it raises exactly when a payload collides. */
  lemma RecordStep(ops: set<Op>, op: Op)
    requires CollisionFree(ops)
    ensures RecordOp(RecordsOf(ops), op).Ok? <==> CollisionFree(ops + {op})
    ensures CollisionFree(ops + {op}) ==> RecordOp(RecordsOf(ops), op) == Ok(RecordsOf(ops + {op}))
  {
    KindsStep(ops, op);
    hide SourcesIn;
    hide EvidenceIn;
    hide ClaimsIn;
    hide DecisionsIn;
    hide DerivationsIn;
    hide ResolutionsIn;
    hide EventsIn;
    hide ById;
    hide Injective;
    hide SetRecord;
    match op
    case SourceAdded(_, _, _, x) => InsertAgrees(SourcesIn(ops), SourceId, x);
    case EvidenceAdded(_, _, _, x) => InsertAgrees(EvidenceIn(ops), EvidenceId, x);
    case ClaimAdded(_, _, _, x) => InsertAgrees(ClaimsIn(ops), ClaimId, x);
    case DecisionAdded(_, _, _, x) => InsertAgrees(DecisionsIn(ops), DecisionId, x);
    case DerivationAdded(_, _, _, x) => InsertAgrees(DerivationsIn(ops), DerivationId, x);
    case ResolutionAdded(_, _, _, x) => InsertAgrees(ResolutionsIn(ops), ResolutionId, x);
    case LifecycleEventAdded(_, _, _, x) => InsertAgrees(EventsIn(ops), EventId, x);
    case ClaimRetracted(_, _, _, _, _, _, _, _, _) =>
  }

  lemma NoRecords()
    ensures RecordsOf({}) == EMPTY_RECORDS && CollisionFree({}) && RetractionsIn({}) == {}
  {
    assert SourcesIn({}) == {} && EvidenceIn({}) == {} && ClaimsIn({}) == {} && DecisionsIn({}) == {}
           && DerivationsIn({}) == {} && ResolutionsIn({}) == {} && EventsIn({}) == {};
  }

  /** Fewer operations collide less. */
  lemma CollisionFreeSubset(small: set<Op>, large: set<Op>)
    requires small <= large && CollisionFree(large)
    ensures CollisionFree(small)
  {
    assert SourcesIn(small) <= SourcesIn(large);
    assert EvidenceIn(small) <= EvidenceIn(large);
    assert ClaimsIn(small) <= ClaimsIn(large);
    assert DecisionsIn(small) <= DecisionsIn(large);
    assert DerivationsIn(small) <= DerivationsIn(large);
    assert ResolutionsIn(small) <= ResolutionsIn(large);
    assert EventsIn(small) <= EventsIn(large);
  }

  /** Every table entry is filed under its own identifier and stems from an operation of the log. */
  lemma ClaimEntry(ops: set<Op>, id: Id)
    requires CollisionFree(ops)
    ensures id in RecordsOf(ops).claims ==> RecordsOf(ops).claims[id].id == id && RecordsOf(ops).claims[id] in ClaimsIn(ops)
    ensures forall c :: c in ClaimsIn(ops) && c.id == id ==> id in RecordsOf(ops).claims && RecordsOf(ops).claims[id] == c
  {
    if id in RecordsOf(ops).claims {
      ByIdValues(ClaimsIn(ops), ClaimId, id);
    }
  }
}
