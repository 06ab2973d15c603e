/** The records of the operation log and the identities derived from them.

    Digests are injective, so a digest is modelled by the payload it is taken of; identifiers
    written by a caller that digest nothing are the `Other` constructors. Fields the modelled
    code only carries along are collected in a `body`. */
module Model {
  import opened Basics

  type Name = string

  datatype Json =
    | Null
    | Bool(b: bool)
    | Number(n: real)
    | Text(s: string)
    | List(items: seq<Json>)
    | Object(fields: map<string, Json>)

  type Context = map<string, Json>

  datatype ClaimKey = ClaimKey(namespace: Name, subject: Name, predicateName: Name)

  datatype Interval = Interval(from: Option<Time>, until: Option<Time>) {
    predicate Ordered() {
      from.Some? && until.Some? ==> from.value <= until.value
    }
  }

  /** The constructor refuses an interval that ends before it starts. */
  type Validity = v: Interval | v.Ordered() witness Interval(None, None)

  datatype ClaimRef =
    | RefOf(key: ClaimKey, value: Json, kind: Name, context: Context)
    | OtherClaimRef(tag: int)

  datatype Claim = Claim(
    id: Id,
    key: ClaimKey,
    value: Json,
    confidence: real,
    timestamp: Time,
    declaredRef: ClaimRef,
    evidenceIds: seq<Id>,
    provenance: Context,
    validity: Option<Validity>,
    derivationId: Option<Id>,
    kind: Name,
    context: Context)

  datatype Source = Source(id: Id, sourceType: Name, body: Json)

  datatype Evidence = Evidence(id: Id, sourceId: Option<Id>, body: Json)

  datatype Derivation = Derivation(id: Id, inputClaimIds: seq<Id>, body: Json)

  datatype Decision = Decision(id: Id, timestamp: Option<Time>, body: Json)

  datatype ConflictRef =
    | DirectRef(conflictType: Name, key: ClaimKey)
    | DetectorRef(conflictType: Name, key: ClaimKey, detector: Name)
    | OtherConflictRef(tag: int)

  datatype ConflictId =
    | KeyedId(key: ClaimKey, claimIds: set<Id>)
    | RefId(ref: ConflictRef, claimIds: set<Id>)
    | OtherConflictId(tag: int)

  datatype Outcome = Select | Replace | Preserve | Merge | Abstain

  datatype Resolution = Resolution(
    id: Id,
    conflictRef: ConflictRef,
    observedConflictId: ConflictId,
    selected: set<Id>,
    rejected: set<Id>,
    retained: set<Id>,
    evidenceIds: seq<Id>,
    timestamp: Time,
    scope: Option<Name>,
    validFrom: Option<Time>,
    validUntil: Option<Time>,
    outcome: Outcome,
    body: Json)
  {
    function Classified(): set<Id> { selected + rejected + retained }
  }

  datatype Status = Open | Deferred | Resolved | Reopened | Invalidated

  datatype Event = Event(
    id: Id,
    conflictRef: ConflictRef,
    observedConflictId: ConflictId,
    status: Status,
    timestamp: Time,
    scope: Option<Name>,
    resolutionId: Option<Id>,
    body: Json)

  /** One lifecycle lane: a conflict reference and a scope; `None` is the global scope. */
  datatype Lane = Lane(ref: ConflictRef, scope: Option<Name>)

  function LaneOfResolution(r: Resolution): Lane { Lane(r.conflictRef, r.scope) }

  function LaneOfEvent(e: Event): Lane { Lane(e.conflictRef, e.scope) }

  /** An absent or empty target string is `None`: the code tests the string for truth. */
  datatype Op =
    | SourceAdded(opId: Id, timestamp: Time, replicaId: Name, source: Source)
    | EvidenceAdded(opId: Id, timestamp: Time, replicaId: Name, evidence: Evidence)
    | ClaimAdded(opId: Id, timestamp: Time, replicaId: Name, claim: Claim)
    | ClaimRetracted(opId: Id, timestamp: Time, replicaId: Name,
                     target: Option<Id>, targetRef: Option<ClaimRef>,
                     superseder: Option<Id>, supersederRef: Option<ClaimRef>,
                     evidenceIds: seq<Id>, body: Json)
    | DecisionAdded(opId: Id, timestamp: Time, replicaId: Name, decision: Decision)
    | DerivationAdded(opId: Id, timestamp: Time, replicaId: Name, derivation: Derivation)
    | ResolutionAdded(opId: Id, timestamp: Time, replicaId: Name, resolution: Resolution)
    | LifecycleEventAdded(opId: Id, timestamp: Time, replicaId: Name, event: Event)

  function OpId(op: Op): Id { op.opId }

  // ---------------------------------------------------------------- sort keys

  function ClaimRank(c: Claim): Rank { Rank(c.id.n, 0, 0) }

  function ResolutionRank(r: Resolution): Rank { Rank(r.timestamp, r.id.n, 0) }

  function EventRank(e: Event): Rank { Rank(e.timestamp, e.id.n, 0) }

  function RetractionRank(op: Op): Rank { Rank(op.timestamp, op.opId.n, 0) }

  // ---------------------------------------------------------------- conflicts

  const DIRECT_CONFLICT_TYPE: Name := "same_key_distinct_value"
  const DIRECT_DETECTOR: Name := "direct"

  datatype PairWitness = PairWitness(
    left: Id, right: Id, from: Option<Time>, until: Option<Time>, context: Context)

  datatype Representation = Numeric | Categorical | Structured

  datatype Annotations = Annotations(
    representation: Representation, multiHop: bool, provenance: set<Name>, aggregate: bool)

  datatype ConflictSet = ConflictSet(
    id: ConflictId,
    ref: ConflictRef,
    conflictType: Name,
    key: ClaimKey,
    keys: set<ClaimKey>,
    candidates: seq<Claim>,
    distinctValues: seq<Json>,
    conflictClass: Name,
    conflictSubclass: Name,
    detector: Name,
    annotations: Annotations,
    pairs: seq<PairWitness>)
  {
    function CandidateIds(): set<Id> { set c | c in candidates :: c.id }
  }

  /** Single-key direct findings keep the identity payload without a detector. */
  predicate IsLegacyIdentity(key: ClaimKey, conflictType: Name, keys: set<ClaimKey>, detector: Name) {
    conflictType == DIRECT_CONFLICT_TYPE && detector == DIRECT_DETECTOR && keys <= {key}
  }

  function DeriveConflictRef(key: ClaimKey, conflictType: Name, keys: set<ClaimKey>, detector: Name): ConflictRef {
    if IsLegacyIdentity(key, conflictType, keys, detector) then DirectRef(conflictType, key)
    else DetectorRef(conflictType, key, detector)
  }

  function DeriveConflictId(
    key: ClaimKey, claimIds: set<Id>, conflictType: Name, keys: set<ClaimKey>, detector: Name): ConflictId
  {
    if IsLegacyIdentity(key, conflictType, keys, detector) then KeyedId(key, claimIds)
    else RefId(DeriveConflictRef(key, conflictType, keys, detector), claimIds)
  }

  // ---------------------------------------------------------------- predicate registry

  datatype Rule = Rule(
    multiValued: bool,
    normalize: Option<Json -> Json>,
    equal: Option<(Json, Json) -> bool>,
    normalizeForRef: bool)

  datatype Registry = Registry(rules: map<Name, Rule>) {
    function RuleFor(predicateName: Name): Rule {
      if predicateName in rules then rules[predicateName] else Rule(false, None, None, false)
    }

    function NormalizeValue(predicateName: Name, value: Json): Json {
      match RuleFor(predicateName).normalize
      case None => value
      case Some(normalize) => normalize(value)
    }

    predicate ValuesEqual(predicateName: Name, left: Json, right: Json) {
      match RuleFor(predicateName).equal
      case Some(equal) => equal(left, right)
      case None => NormalizeValue(predicateName, left) == NormalizeValue(predicateName, right)
    }

    function ClaimRefFor(claim: Claim): ClaimRef {
      var rule := RuleFor(claim.key.predicateName);
      var value :=
        if rule.normalize.None? || !rule.normalizeForRef then claim.value else rule.normalize.value(claim.value);
      RefOf(claim.key, value, claim.kind, claim.context)
    }
  }
}
