/** The per-key direct-conflict index and its incremental maintenance.

    `IndexOf` is the quadratic definition: every pair of active claims whose values differ and
    whose context and validity overlap, with the symmetric neighbour map. */
module ConflictIndex {
  import opened Basics
  import opened Model
  import opened Applicability

  datatype IdPair = IdPair(left: Id, right: Id)

  datatype Index = Index(
    claims: map<Id, Claim>,
    normalized: map<Id, Json>,
    contexts: map<Id, Context>,
    validity: map<Id, Bounds>,
    pairs: map<IdPair, PairWitness>,
    adjacent: map<Id, set<Id>>)

  // ---------------------------------------------------------------- definition by pair scan

  /** Values are compared with the smaller identifier on the left: `equal` may be asymmetric. */
  predicate Conflicting(left: Claim, right: Claim, registry: Registry) {
    !registry.RuleFor(left.key.predicateName).multiValued
    && !registry.ValuesEqual(left.key.predicateName, left.value, right.value)
    && PairOverlaps(left, right)
  }

  function LatestStart(left: Bounds, right: Bounds): Option<Time> {
    if left.from.Some? && right.from.Some? then Some(Max(left.from.value, right.from.value))
    else if left.from.Some? then left.from else right.from
  }

  function EarliestEnd(left: Bounds, right: Bounds): Option<Time> {
    if left.until.Some? && right.until.Some? then Some(Min(left.until.value, right.until.value))
    else if left.until.Some? then left.until else right.until
  }

  function OverlapWitness(left: Claim, right: Claim): PairWitness {
    var l, r := ValidityBounds(left.validity), ValidityBounds(right.validity);
    PairWitness(left.id, right.id, LatestStart(l, r), EarliestEnd(l, r), left.context + right.context)
  }

  function NormalizedValue(claim: Claim, registry: Registry): Json {
    if registry.RuleFor(claim.key.predicateName).equal.None?
    then registry.NormalizeValue(claim.key.predicateName, claim.value)
    else claim.value
  }

  /** The claims one index holds: keyed by their own identifier, all on one claim key. */
  ghost predicate OnKey(claims: map<Id, Claim>, key: ClaimKey) {
    forall id :: id in claims ==> claims[id].id == id && claims[id].key == key
  }

  ghost predicate PairOf(claims: map<Id, Claim>, registry: Registry, l: Id, r: Id) {
    l in claims && r in claims && l.n < r.n && Conflicting(claims[l], claims[r], registry)
  }

  ghost function PairSet(claims: map<Id, Claim>, registry: Registry): set<IdPair> {
    set l, r | l in claims && r in claims && PairOf(claims, registry, l, r) :: IdPair(l, r)
  }

  ghost function Neighbours(claims: map<Id, Claim>, registry: Registry, id: Id): set<Id> {
    set o | o in claims && (PairOf(claims, registry, id, o) || PairOf(claims, registry, o, id))
  }

  ghost function NormalizedMap(claims: map<Id, Claim>, registry: Registry): map<Id, Json> {
    map id | id in claims :: NormalizedValue(claims[id], registry)
  }

  ghost function ContextMap(claims: map<Id, Claim>): map<Id, Context> {
    map id | id in claims :: claims[id].context
  }

  ghost function ValidityMap(claims: map<Id, Claim>): map<Id, Bounds> {
    map id | id in claims :: ValidityBounds(claims[id].validity)
  }

  ghost predicate Known(claims: map<Id, Claim>, p: IdPair) { p.left in claims && p.right in claims }

  ghost function WitnessOf(claims: map<Id, Claim>, p: IdPair): PairWitness
    requires Known(claims, p)
  {
    OverlapWitness(claims[p.left], claims[p.right])
  }

  /** The witness of every pair in `ps` whose two claims are known. */
  ghost function WitnessMap(claims: map<Id, Claim>, ps: set<IdPair>): map<IdPair, PairWitness> {
    map p | p in ps && Known(claims, p) :: WitnessOf(claims, p)
  }

  ghost function AdjacencyMap(claims: map<Id, Claim>, registry: Registry): map<Id, set<Id>> {
    map id | id in claims :: Neighbours(claims, registry, id)
  }

  ghost function IndexOf(claims: map<Id, Claim>, registry: Registry): Index {
    Index(claims, NormalizedMap(claims, registry), ContextMap(claims), ValidityMap(claims),
          WitnessMap(claims, PairSet(claims, registry)), AdjacencyMap(claims, registry))
  }

  function PairKey(a: Id, b: Id): IdPair { if a.n <= b.n then IdPair(a, b) else IdPair(b, a) }

  /** `{claim.claim_id: claim for claim in claims}` */
  function ByClaimId(claims: seq<Claim>): map<Id, Claim> {
    if claims == [] then map[]
    else ByClaimId(claims[..|claims| - 1])[claims[|claims| - 1].id := claims[|claims| - 1]]
  }

  lemma {:induction false} ByClaimIdProperties(claims: seq<Claim>)
    requires StrictlySorted(claims, ClaimRank)
    ensures forall c :: c in claims ==> c.id in ByClaimId(claims) && ByClaimId(claims)[c.id] == c
    ensures forall id :: id in ByClaimId(claims) ==> ByClaimId(claims)[id] in claims && ByClaimId(claims)[id].id == id
  {
    if claims != [] {
      var front, last := claims[..|claims| - 1], claims[|claims| - 1];
      assert claims == front + [last];
      ByClaimIdProperties(front);
      forall c | c in front ensures c.id != last.id {
        var i :| 0 <= i < |front| && front[i] == c;
        assert claims[i] == c && Below(ClaimRank(claims[i]), ClaimRank(last));
      }
    }
  }

  // ---------------------------------------------------------------- removal

  ghost function IncidentPairs(id: Id, others: set<Id>): set<IdPair> {
    set o | o in others :: PairKey(id, o)
  }

  lemma PairSetMember(claims: map<Id, Claim>, registry: Registry, p: IdPair)
    ensures p in PairSet(claims, registry) <==> PairOf(claims, registry, p.left, p.right)
  {
    if PairOf(claims, registry, p.left, p.right) {
      assert p == IdPair(p.left, p.right);
    }
  }

  lemma PairKeyMember(id: Id, others: set<Id>, p: IdPair)
    ensures p in IncidentPairs(id, others) <==>
              p.left.n <= p.right.n && ((p.left == id && p.right in others) || (p.right == id && p.left in others))
  {
    if p.left.n <= p.right.n && p.left == id && p.right in others { assert p == PairKey(id, p.right); }
    if p.left.n <= p.right.n && p.right == id && p.left in others { assert p == PairKey(id, p.left); }
  }

  lemma DropPairs(claims: map<Id, Claim>, registry: Registry, id: Id)
    requires id in claims
    ensures PairSet(claims - {id}, registry)
            == PairSet(claims, registry) - IncidentPairs(id, Neighbours(claims, registry, id))
  {
    forall p ensures p in PairSet(claims - {id}, registry)
                     <==> p in PairSet(claims, registry)
                          && p !in IncidentPairs(id, Neighbours(claims, registry, id))
    {
      PairSetMember(claims - {id}, registry, p);
      PairSetMember(claims, registry, p);
      PairKeyMember(id, Neighbours(claims, registry, id), p);
    }
  }

  lemma DropNeighbour(claims: map<Id, Claim>, registry: Registry, id: Id, o: Id)
    requires id in claims && o in claims && o != id
    ensures Neighbours(claims - {id}, registry, o) == Neighbours(claims, registry, o) - {id}
    ensures id in Neighbours(claims, registry, o) <==> o in Neighbours(claims, registry, id)
  {
  }

  /** The inner removal loop: pops every incident pair and discards the claim from each neighbour. */
  method Detach(pairs: map<IdPair, PairWitness>, adjacent: map<Id, set<Id>>, id: Id)
    returns (pairs': map<IdPair, PairWitness>, adjacent': map<Id, set<Id>>)
    requires id in adjacent && adjacent[id] <= adjacent.Keys - {id}
    ensures pairs' == pairs - IncidentPairs(id, adjacent[id])
    ensures adjacent' == Detached(adjacent, id, adjacent[id])
  {
    hide IncidentPairs;
    hide Detached;
    DetachNone(pairs, adjacent, id);
    pairs', adjacent' := pairs, adjacent;
    var todo := adjacent[id];
    ghost var done: set<Id> := {};
    while todo != {}
      invariant todo == adjacent[id] - done && done <= adjacent[id]
      invariant pairs' == pairs - IncidentPairs(id, done)
      invariant adjacent' == Detached(adjacent, id, done)
      decreases |todo|
    {
      var _ := Inhabited(todo);
      var other :| other in todo;
      DetachOne(pairs, adjacent, id, done, other);
      todo, done := todo - {other}, done + {other};
      pairs' := pairs' - {PairKey(id, other)};
      if other in adjacent' {
        adjacent' := adjacent'[other := adjacent'[other] - {id}];
      }
    }
    assert done == adjacent[id];
  }

  lemma DetachNone(pairs: map<IdPair, PairWitness>, adjacent: map<Id, set<Id>>, id: Id)
    ensures pairs - IncidentPairs(id, {}) == pairs
    ensures Detached(adjacent, id, {}) == adjacent
  {
    assert IncidentPairs(id, {}) == {};
  }

  lemma DetachOne(pairs: map<IdPair, PairWitness>, adjacent: map<Id, set<Id>>, id: Id, done: set<Id>, o: Id)
    requires o in adjacent && o !in done
    ensures pairs - IncidentPairs(id, done + {o}) == pairs - IncidentPairs(id, done) - {PairKey(id, o)}
    ensures o in Detached(adjacent, id, done)
    ensures Detached(adjacent, id, done + {o}) == Detached(adjacent, id, done)[o := Detached(adjacent, id, done)[o] - {id}]
  {
    assert IncidentPairs(id, done + {o}) == IncidentPairs(id, done) + {PairKey(id, o)};
    var a, b := Detached(adjacent, id, done + {o}), Detached(adjacent, id, done)[o := Detached(adjacent, id, done)[o] - {id}];
    assert a.Keys == b.Keys;
  }

  ghost function Detached(adjacent: map<Id, set<Id>>, id: Id, others: set<Id>): map<Id, set<Id>> {
    map o | o in adjacent :: if o in others then adjacent[o] - {id} else adjacent[o]
  }

  lemma DroppedAdjacency(claims: map<Id, Claim>, registry: Registry, id: Id)
    requires id in claims
    ensures Detached(AdjacencyMap(claims, registry), id, Neighbours(claims, registry, id)) - {id}
            == AdjacencyMap(claims - {id}, registry)
  {
    forall o | o in claims && o != id
      ensures Neighbours(claims - {id}, registry, o)
              == Detached(AdjacencyMap(claims, registry), id, Neighbours(claims, registry, id))[o]
    {
      DropNeighbour(claims, registry, id, o);
    }
  }

  lemma WitnessMapDrop(claims: map<Id, Claim>, ps: set<IdPair>, qs: set<IdPair>, id: Id)
    requires forall p :: p in ps && p !in qs ==> p.left != id && p.right != id
    ensures WitnessMap(claims, ps) - qs == WitnessMap(claims - {id}, ps - qs)
  {
    var a, b := WitnessMap(claims, ps) - qs, WitnessMap(claims - {id}, ps - qs);
    forall p ensures p in a <==> p in b {
      assert p in ps && p !in qs ==> (Known(claims, p) <==> Known(claims - {id}, p));
    }
    forall p | p in a ensures a[p] == b[p] {
      assert WitnessOf(claims, p) == WitnessOf(claims - {id}, p);
    }
    assert a.Keys == b.Keys;
  }

  lemma DroppedPairs(claims: map<Id, Claim>, registry: Registry, id: Id)
    requires id in claims
    ensures WitnessMap(claims, PairSet(claims, registry)) - IncidentPairs(id, Neighbours(claims, registry, id))
            == WitnessMap(claims - {id}, PairSet(claims - {id}, registry))
  {
    DropPairs(claims, registry, id);
    var ps, qs := PairSet(claims, registry), IncidentPairs(id, Neighbours(claims, registry, id));
    forall p | p in ps && p !in qs ensures p.left != id && p.right != id {
      PairSetMember(claims - {id}, registry, p);
    }
    WitnessMapDrop(claims, ps, qs, id);
  }

  lemma DroppedCaches(claims: map<Id, Claim>, registry: Registry, id: Id)
    ensures NormalizedMap(claims, registry) - {id} == NormalizedMap(claims - {id}, registry)
    ensures ContextMap(claims) - {id} == ContextMap(claims - {id})
    ensures ValidityMap(claims) - {id} == ValidityMap(claims - {id})
  {
  }

  /** Removes one claim and only its incident edges; compares no values. */
  method DropClaim(index: Index, id: Id, ghost registry: Registry) returns (index': Index)
    requires index == IndexOf(index.claims, registry) && id in index.claims
    ensures index' == IndexOf(index.claims - {id}, registry)
  {
    var pairs, adjacent := Detach(index.pairs, index.adjacent, id);
    DroppedPairs(index.claims, registry, id);
    DroppedAdjacency(index.claims, registry, id);
    DroppedCaches(index.claims, registry, id);
    index' := Index(
      index.claims - {id}, index.normalized - {id}, index.contexts - {id}, index.validity - {id},
      pairs, adjacent - {id});
  }

  // ---------------------------------------------------------------- addition

  lemma AddPairs(claims: map<Id, Claim>, registry: Registry, c: Claim)
    requires c.id !in claims
    ensures PairSet(claims[c.id := c], registry)
            == PairSet(claims, registry) + IncidentPairs(c.id, Neighbours(claims[c.id := c], registry, c.id))
  {
    var after := claims[c.id := c];
    forall p ensures p in PairSet(after, registry)
                     <==> p in PairSet(claims, registry)
                          || p in IncidentPairs(c.id, Neighbours(after, registry, c.id))
    {
      PairSetMember(claims, registry, p);
      PairSetMember(after, registry, p);
      PairKeyMember(c.id, Neighbours(after, registry, c.id), p);
    }
  }

  lemma AddNeighbour(claims: map<Id, Claim>, registry: Registry, c: Claim, o: Id)
    requires c.id !in claims && o in claims
    ensures Neighbours(claims[c.id := c], registry, o)
            == if o in Neighbours(claims[c.id := c], registry, c.id) then Neighbours(claims, registry, o) + {c.id}
               else Neighbours(claims, registry, o)
  {
  }

  /** The test the incremental loop applies to the new claim and one claim already indexed, with
      the number of semantic comparisons it makes. */
  method ComparePair(claim: Claim, other: Claim, index: Index, registry: Registry) returns (hit: bool, cost: nat)
    requires other.id in index.claims && index.claims[other.id] == other && claim.id != other.id
    requires claim.key == other.key && !registry.RuleFor(claim.key.predicateName).multiValued
    requires index == IndexOf(index.claims, registry)
    ensures cost <= 1
    ensures hit <==> if claim.id.n < other.id.n then Conflicting(claim, other, registry)
                     else Conflicting(other, claim, registry)
  {
    var rule := registry.RuleFor(claim.key.predicateName);
    PairOverlapMeaning(claim, other);
    if !ContextsOverlap(claim.context, index.contexts[other.id]) { return false, 0; }
    if !BoundsOverlap(ValidityBounds(claim.validity), index.validity[other.id]) { return false, 0; }
    var left, right := if claim.id.n < other.id.n then claim else other, if claim.id.n < other.id.n then other else claim;
    if rule.equal.None? {
      if NormalizedValue(claim, registry) == index.normalized[other.id] { return false, 0; }
    }
    return !registry.ValuesEqual(claim.key.predicateName, left.value, right.value), 1;
  }

  lemma WitnessMapGrow(claims: map<Id, Claim>, ps: set<IdPair>, qs: set<IdPair>, c: Claim)
    requires c.id !in claims
    requires forall p :: p in ps ==> Known(claims, p)
    ensures WitnessMap(claims[c.id := c], ps + qs) == WitnessMap(claims, ps) + WitnessMap(claims[c.id := c], qs)
  {
    var after := claims[c.id := c];
    var a, b := WitnessMap(after, ps + qs), WitnessMap(claims, ps) + WitnessMap(after, qs);
    forall p ensures p in a <==> p in b {
      assert Known(claims, p) ==> Known(after, p);
    }
    forall p | p in a ensures a[p] == b[p] {
      assert Known(claims, p) ==> WitnessOf(claims, p) == WitnessOf(after, p);
    }
    assert a.Keys == b.Keys;
  }

  lemma AddedPairs(claims: map<Id, Claim>, registry: Registry, c: Claim)
    requires c.id !in claims
    ensures var after := claims[c.id := c];
            WitnessMap(after, PairSet(after, registry))
            == LinkedPairs(WitnessMap(claims, PairSet(claims, registry)), after, c.id, Neighbours(after, registry, c.id))
  {
    AddPairs(claims, registry, c);
    forall p | p in PairSet(claims, registry) ensures Known(claims, p) {
      PairSetMember(claims, registry, p);
    }
    WitnessMapGrow(claims, PairSet(claims, registry),
                   IncidentPairs(c.id, Neighbours(claims[c.id := c], registry, c.id)), c);
  }

  ghost function Attached(adjacent: map<Id, set<Id>>, id: Id, found: set<Id>): map<Id, set<Id>> {
    map o | o in adjacent :: if o in found then adjacent[o] + {id} else adjacent[o]
  }

  lemma AddedAdjacency(claims: map<Id, Claim>, registry: Registry, c: Claim)
    requires c.id !in claims
    ensures var after := claims[c.id := c];
            var found := Neighbours(after, registry, c.id);
            AdjacencyMap(after, registry) == Attached(AdjacencyMap(claims, registry), c.id, found)[c.id := found]
  {
    var after := claims[c.id := c];
    forall o | o in claims
      ensures Neighbours(after, registry, o)
              == Attached(AdjacencyMap(claims, registry), c.id, Neighbours(after, registry, c.id))[o]
    {
      AddNeighbour(claims, registry, c, o);
    }
  }

  lemma AddedCaches(claims: map<Id, Claim>, registry: Registry, c: Claim)
    ensures var after := claims[c.id := c];
            NormalizedMap(after, registry) == NormalizedMap(claims, registry)[c.id := NormalizedValue(c, registry)]
            && ContextMap(after) == ContextMap(claims)[c.id := c.context]
            && ValidityMap(after) == ValidityMap(claims)[c.id := ValidityBounds(c.validity)]
  {
    var after := claims[c.id := c];
    assert NormalizedMap(after, registry) == NormalizedMap(claims, registry)[c.id := NormalizedValue(c, registry)];
    assert ContextMap(after) == ContextMap(claims)[c.id := c.context];
    assert ValidityMap(after) == ValidityMap(claims)[c.id := ValidityBounds(c.validity)];
  }

  lemma WitnessMapAdd(claims: map<Id, Claim>, id: Id, found: set<Id>, o: Id)
    requires id in claims && o in claims
    ensures var p := PairKey(id, o);
            WitnessMap(claims, IncidentPairs(id, found + {o}))
            == WitnessMap(claims, IncidentPairs(id, found))[p := WitnessOf(claims, p)]
  {
    var p := PairKey(id, o);
    assert IncidentPairs(id, found + {o}) == IncidentPairs(id, found) + {p};
    assert Known(claims, p);
    assert WitnessMap(claims, IncidentPairs(id, found + {o})).Keys == WitnessMap(claims, IncidentPairs(id, found)).Keys + {p};
  }

  lemma NeighbourByComparison(claims: map<Id, Claim>, claim: Claim, registry: Registry, other: Claim)
    requires claim.id !in claims && other.id in claims && claims[other.id] == other
    ensures other.id in Neighbours(claims[claim.id := claim], registry, claim.id) <==>
              if claim.id.n < other.id.n then Conflicting(claim, other, registry) else Conflicting(other, claim, registry)
  {
  }

  /** The pairs and neighbour sets once the new claim is linked to the claims in `found`. */
  ghost function LinkedPairs(pairs: map<IdPair, PairWitness>, after: map<Id, Claim>, id: Id, found: set<Id>)
    : map<IdPair, PairWitness>
  {
    pairs + WitnessMap(after, IncidentPairs(id, found))
  }

  lemma LinkNone(index: Index, after: map<Id, Claim>, id: Id)
    ensures LinkedPairs(index.pairs, after, id, {}) == index.pairs
    ensures Attached(index.adjacent, id, {}) == index.adjacent
  {
    assert IncidentPairs(id, {}) == {};
  }

  lemma LinkOne(index: Index, after: map<Id, Claim>, id: Id, found: set<Id>, o: Id)
    requires o in index.adjacent && id in after && o in after
    ensures var p := PairKey(id, o);
            LinkedPairs(index.pairs, after, id, found + {o})
            == LinkedPairs(index.pairs, after, id, found)[p := WitnessOf(after, p)]
    ensures Attached(index.adjacent, id, found + {o}) == AddTo(Attached(index.adjacent, id, found), o, id)
  {
    hide IncidentPairs;
    hide WitnessMap;
    hide WitnessOf;
    WitnessMapAdd(after, id, found, o);
    assert Attached(index.adjacent, id, found + {o}).Keys == AddTo(Attached(index.adjacent, id, found), o, id).Keys;
  }

  /** The members of `among` met in the first `i` steps of a scan. */
  ghost function Met(order: seq<Id>, i: nat, among: set<Id>): set<Id>
    requires i <= |order|
  {
    if i == 0 then {}
    else Met(order, i - 1, among) + if order[i - 1] in among then {order[i - 1]} else {}
  }

  lemma {:induction false} MetMembers(order: seq<Id>, i: nat, among: set<Id>)
    requires i <= |order|
    ensures Met(order, i, among) <= among
    ensures forall j :: 0 <= j < i && order[j] in among ==> order[j] in Met(order, i, among)
  {
    if i > 0 {
      MetMembers(order, i - 1, among);
    }
  }

  lemma AllMet(order: seq<Id>, claims: map<Id, Claim>, registry: Registry, c: Claim)
    requires c.id !in claims && Elements(order) == claims.Keys
    ensures var neighbours := Neighbours(claims[c.id := c], registry, c.id);
            Met(order, |order|, neighbours) == neighbours
  {
    var neighbours := Neighbours(claims[c.id := c], registry, c.id);
    MetMembers(order, |order|, neighbours);
    forall x | x in neighbours ensures x in Met(order, |order|, neighbours) {
      assert x in Elements(order);
    }
  }

  /** One step of the inner addition loop. */
  method AttachOne(
    index: Index, claim: Claim, other: Claim, registry: Registry, ghost own: set<Id>,
    pairs: map<IdPair, PairWitness>, adjacent: map<Id, set<Id>>)
    returns (pairs': map<IdPair, PairWitness>, adjacent': map<Id, set<Id>>, hit: bool, cost: nat)
    requires index == IndexOf(index.claims, registry)
    requires other.id in index.claims && index.claims[other.id] == other
    requires claim.id !in index.claims && claim.key == other.key
    requires !registry.RuleFor(claim.key.predicateName).multiValued
    requires pairs == LinkedPairs(index.pairs, index.claims[claim.id := claim], claim.id, own)
    requires adjacent == Attached(index.adjacent, claim.id, own)
    ensures cost <= 1
    ensures hit <==> other.id in Neighbours(index.claims[claim.id := claim], registry, claim.id)
    ensures var own' := own + if hit then {other.id} else {};
            pairs' == LinkedPairs(index.pairs, index.claims[claim.id := claim], claim.id, own')
            && adjacent' == Attached(index.adjacent, claim.id, own')
  {
    ghost var after := index.claims[claim.id := claim];
    assert other.id in index.adjacent;
    hide IndexOf;
    hide LinkedPairs;
    hide Attached;
    pairs', adjacent' := pairs, adjacent;
    hit, cost := ComparePair(claim, other, index, registry);
    NeighbourByComparison(index.claims, claim, registry, other);
    if hit {
      var pair := PairKey(claim.id, other.id);
      LinkOne(index, after, claim.id, own, other.id);
      pairs' := pairs[pair := OverlapWitness(
        if pair.left == claim.id then claim else other, if pair.right == other.id then other else claim)];
      adjacent' := AddTo(adjacent, other.id, claim.id);
    } else {
      assert own + {} == own;
    }
  }

  /** The inner addition loop: one comparison with each claim already indexed. */
  method Attach(index: Index, claim: Claim, registry: Registry, order: seq<Id>, ghost key: ClaimKey)
    returns (pairs: map<IdPair, PairWitness>, adjacent: map<Id, set<Id>>, own: set<Id>, comparisons: nat)
    requires index == IndexOf(index.claims, registry) && OnKey(index.claims, key)
    requires claim.id !in index.claims && claim.key == key
    requires !registry.RuleFor(claim.key.predicateName).multiValued
    requires Elements(order) == index.claims.Keys
    ensures comparisons <= |order|
    ensures own == Neighbours(index.claims[claim.id := claim], registry, claim.id)
    ensures pairs == LinkedPairs(index.pairs, index.claims[claim.id := claim], claim.id, own)
    ensures adjacent == Attached(index.adjacent, claim.id, own)
  {
    hide IndexOf;
    hide Neighbours;
    hide LinkedPairs;
    hide Attached;
    pairs, adjacent, own, comparisons := index.pairs, index.adjacent, {}, 0;
    ghost var after := index.claims[claim.id := claim];
    LinkNone(index, after, claim.id);
    for i := 0 to |order|
      invariant comparisons <= i
      invariant own == Met(order, i, Neighbours(after, registry, claim.id))
      invariant pairs == LinkedPairs(index.pairs, after, claim.id, own)
      invariant adjacent == Attached(index.adjacent, claim.id, own)
    {
      assert order[i] in Elements(order);
      var hit, cost;
      pairs, adjacent, hit, cost := AttachOne(index, claim, index.claims[order[i]], registry, own, pairs, adjacent);
      comparisons := comparisons + cost;
      own := own + if hit then {order[i]} else {};
    }
    AllMet(order, index.claims, registry, claim);
  }

  /** Indexes one more claim by comparing it with the claims already indexed. */
  method AddClaim(index: Index, claim: Claim, registry: Registry, ghost key: ClaimKey)
    returns (index': Index, comparisons: nat)
    requires index == IndexOf(index.claims, registry) && OnKey(index.claims, key)
    requires claim.id !in index.claims && claim.key == key
    ensures index' == IndexOf(index.claims[claim.id := claim], registry)
    ensures comparisons <= |index.claims|
  {
    var pairs, adjacent, own: set<Id> := index.pairs, index.adjacent, {};
    comparisons := 0;
    ghost var after := index.claims[claim.id := claim];
    if !registry.RuleFor(claim.key.predicateName).multiValued {
      assert |index.claims.Keys| == |index.claims|;
      pairs, adjacent, own, comparisons := Attach(index, claim, registry, SortedIds(index.claims.Keys), key);
    } else {
      assert Neighbours(after, registry, claim.id) == {};
      LinkNone(index, after, claim.id);
    }
    AddedPairs(index.claims, registry, claim);
    AddedAdjacency(index.claims, registry, claim);
    AddedCaches(index.claims, registry, claim);
    index' := Index(
      index.claims[claim.id := claim], index.normalized[claim.id := NormalizedValue(claim, registry)],
      index.contexts[claim.id := claim.context], index.validity[claim.id := ValidityBounds(claim.validity)],
      pairs, adjacent[claim.id := own]);
  }

  // ---------------------------------------------------------------- update

  /** The removal loop: drops, in identifier order, the claims no longer wanted. */
  method DropAll(index: Index, unwanted: set<Id>, ghost registry: Registry) returns (index': Index)
    requires index == IndexOf(index.claims, registry) && unwanted <= index.claims.Keys
    ensures index' == IndexOf(index.claims - unwanted, registry)
  {
    hide IndexOf;
    assert IndexOf(index.claims, registry).claims == index.claims by { IndexClaims(index.claims, registry); }
    index' := index;
    var todo := unwanted;
    while todo != {}
      invariant todo <= unwanted
      invariant index'.claims == index.claims - (unwanted - todo)
      invariant index' == IndexOf(index'.claims, registry)
      decreases |todo|
    {
      var id := Minimum(todo);
      index' := DropClaim(index', id, registry);
      IndexClaims(index.claims - (unwanted - todo) - {id}, registry);
      todo := todo - {id};
      assert index.claims - (unwanted - todo) == index.claims - (unwanted - todo - {id}) - {id};
    }
    assert unwanted - {} == unwanted;
  }

  lemma IndexClaims(claims: map<Id, Claim>, registry: Registry)
    ensures IndexOf(claims, registry).claims == claims
  {
  }

  /** The comparisons that adding `k` claims to `n` retained ones may cost: the i-th new claim
      meets the retained ones and the i claims added before it. */
  ghost function Budget(n: nat, k: nat): nat {
    if k == 0 then 0 else Budget(n, k - 1) + n + k - 1
  }

  lemma BudgetStep(n: nat, k: nat)
    ensures Budget(n, k + 1) == Budget(n, k) + n + k
    ensures Budget(n, 0) == 0
  {
  }

  ghost function Without(desired: map<Id, Claim>, todo: set<Id>): map<Id, Claim> {
    map id | id in desired && id !in todo :: desired[id]
  }

  lemma WithoutStep(desired: map<Id, Claim>, todo: set<Id>, id: Id, key: ClaimKey)
    requires id in todo && id in desired && OnKey(desired, key)
    ensures Without(desired, todo)[id := desired[id]] == Without(desired, todo - {id})
    ensures id !in Without(desired, todo)
    ensures OnKey(Without(desired, todo), key)
  {
    assert Without(desired, todo)[id := desired[id]].Keys == Without(desired, todo - {id}).Keys;
  }

  lemma WithoutEnds(index: map<Id, Claim>, desired: map<Id, Claim>)
    requires forall id :: id in index ==> id in desired && desired[id] == index[id]
    ensures Without(desired, desired.Keys - index.Keys) == index
    ensures Without(desired, {}) == desired
  {
  }

  /** Part way through the addition loop: `k` claims added to the `n` that stay. */
  ghost predicate AddedSoFar(index: Index, desired: map<Id, Claim>, todo: set<Id>, registry: Registry, n: nat, k: nat, comparisons: nat) {
    index == IndexOf(Without(desired, todo), registry) && |Without(desired, todo)| == n + k && comparisons <= Budget(n, k)
  }

  /** One step of the addition loop. */
  method AddNext(index: Index, desired: map<Id, Claim>, todo: set<Id>, id: Id, registry: Registry, comparisons: nat,
                 ghost key: ClaimKey, ghost n: nat, ghost k: nat)
    returns (index': Index, comparisons': nat)
    requires id in todo && id in desired && OnKey(desired, key)
    requires AddedSoFar(index, desired, todo, registry, n, k, comparisons)
    ensures AddedSoFar(index', desired, todo - {id}, registry, n, k + 1, comparisons')
  {
    IndexClaims(Without(desired, todo), registry);
    WithoutStep(desired, todo, id, key);
    BudgetStep(n, k);
    hide IndexOf;
    hide Without;
    hide Budget;
    var cost;
    index', cost := AddClaim(index, desired[id], registry, key);
    comparisons' := comparisons + cost;
  }

  /** The addition loop over the claims still missing, in identifier order. */
  method AddEach(index: Index, desired: map<Id, Claim>, missing: set<Id>, registry: Registry, ghost key: ClaimKey, ghost n: nat)
    returns (index': Index, comparisons: nat)
    requires missing <= desired.Keys && OnKey(desired, key)
    requires AddedSoFar(index, desired, missing, registry, n, 0, 0)
    ensures AddedSoFar(index', desired, {}, registry, n, |missing|, comparisons)
  {
    hide AddedSoFar;
    hide OnKey;
    index', comparisons := index, 0;
    var todo := missing;
    ghost var k: nat := 0;
    while todo != {}
      invariant todo <= desired.Keys && |todo| + k == |missing|
      invariant AddedSoFar(index', desired, todo, registry, n, k, comparisons)
      decreases |todo|
    {
      var id := Minimum(todo);
      index', comparisons := AddNext(index', desired, todo, id, registry, comparisons, key, n, k);
      todo, k := todo - {id}, k + 1;
    }
  }

  /** Indexes the wanted claims that are still missing. */
  method AddAll(index: Index, desired: map<Id, Claim>, registry: Registry, ghost key: ClaimKey)
    returns (index': Index, comparisons: nat)
    requires index == IndexOf(index.claims, registry) && OnKey(desired, key)
    requires forall id :: id in index.claims ==> id in desired && desired[id] == index.claims[id]
    ensures index' == IndexOf(desired, registry)
    ensures |index.claims| <= |desired|
    ensures comparisons <= Budget(|index.claims|, |desired| - |index.claims|)
  {
    WithoutEnds(index.claims, desired);
    BudgetStep(|index.claims|, 0);
    hide IndexOf;
    hide OnKey;
    hide Without;
    hide Budget;
    index', comparisons := AddEach(index, desired, desired.Keys - index.claims.Keys, registry, key, |index.claims|);
  }

  /** `update_direct_conflict_index`: reaches the index of any wanted claim set. Adding k claims to
      the n that stay costs at most k*n + k*(k-1)/2 comparisons; removals cost none. */
  method UpdateDirectConflictIndex(index: Index, claims: seq<Claim>, registry: Registry, ghost key: ClaimKey)
    returns (index': Index, comparisons: nat)
    requires index == IndexOf(index.claims, registry)
    requires OnKey(ByClaimId(claims), key)
    requires forall id :: id in index.claims && id in ByClaimId(claims) ==> index.claims[id] == ByClaimId(claims)[id]
    ensures index' == IndexOf(ByClaimId(claims), registry)
    ensures var retained := |index.claims.Keys * ByClaimId(claims).Keys|;
            retained <= |ByClaimId(claims)|
            && comparisons <= Budget(retained, |ByClaimId(claims)| - retained)
  {
    hide IndexOf;
    hide ByClaimId;
    var desired := ByClaimId(claims);
    var unwanted := index.claims.Keys - desired.Keys;
    var kept := DropAll(index, unwanted, registry);
    IndexClaims(index.claims - unwanted, registry);
    assert kept.claims.Keys == index.claims.Keys * desired.Keys;
    assert |kept.claims.Keys| == |kept.claims|;
    index', comparisons := AddAll(kept, desired, registry, key);
  }

  /** The closed form of the bound: with nothing added, nothing is compared. */
  lemma {:induction false} BudgetClosedForm(n: nat, k: nat)
    ensures Budget(n, k) == k * n + k * (k - 1) / 2
    ensures Budget(n, 0) == 0
  {
    if k > 0 {
      BudgetClosedForm(n, k - 1);
      assert k * n == (k - 1) * n + n;
      assert k * (k - 1) == (k - 1) * (k - 2) + 2 * (k - 1);
    }
  }
}
