/** The two branches that change which claims are active: a claim arriving, possibly after its
    retraction, and a retraction arriving, possibly before its claim. */
module Retire {
  import opened Basics
  import opened Model
  import opened Records
  import opened State
  import opened Tables
  import opened Affected
  import opened Absorb

  lemma LooseAppend<K(!new), V(!new)>(m: map<K, seq<V>>, r: set<(K, V)>, k: K, v: V)
    requires LooseBag(m, r) && (k, v) !in r
    ensures LooseBag(Append(m, k, v), r + {(k, v)})
  {
    var m' := Append(m, k, v);
    FirstsAdd(r, k, v);
    ImageOutside(r, k);
    forall x | x in m' ensures NoDuplicates(m'[x]) && Elements(m'[x]) == Image(r + {(k, v)}, x) {
      ImageAdd(r, k, v, x);
      if x == k {
        ImageMember(r, k, v);
        var front := if k in m then m[k] else [];
        assert Elements(front) == Image(r, k);
        assert v !in Elements(front);
        ElementsConcat(front, [v]);
      }
    }
  }

  // ---------------------------------------------------------------- a claim arrives

  method LinkDerivation(byDerivation: map<Id, set<Id>>, c: Claim, ghost claims: map<Id, Claim>)
    returns (byDerivation': map<Id, set<Id>>)
    requires byDerivation == Group(DerivationPairs(claims)) && c.id !in claims
    ensures byDerivation' == Group(DerivationPairs(claims[c.id := c]))
  {
    DerivationStepPairs(claims, c);
    hide DerivationPairs;
    hide Group;
    byDerivation' := byDerivation;
    if c.derivationId.Some? {
      GroupAdd(DerivationPairs(claims), c.derivationId.value, c.id);
      byDerivation' := AddTo(byDerivation, c.derivationId.value, c.id);
    } else {
      assert DerivationPairs(claims) + {} == DerivationPairs(claims);
    }
  }

  method LinkClaim(r: Records, links: Links, c: Claim, registry: Registry) returns (links': Links)
    requires links == LinksOf(r, registry) && c.id !in r.claims
    ensures links' == LinksOf(r.(claims := r.claims[c.id := c]), registry)
  {
    RefStep(r.claims, c, registry);
    EvidenceStepPairs(r.claims, c);
    hide RefMap;
    hide RefPairs;
    hide EvidencePairs;
    hide DerivationPairs;
    hide Group;
    hide AddTo;
    var ref := registry.ClaimRefFor(c);
    var byEvidence := AddToEach(links.claimsByEvidence, c.evidenceIds, c.id, EvidencePairs(r.claims));
    var byDerivation := LinkDerivation(links.claimsByDerivation, c, r.claims);
    links' := links.(claimRefs := links.claimRefs[c.id := ref], idsByRef := AddTo(links.idsByRef, ref, c.id),
                     claimsByEvidence := byEvidence, claimsByDerivation := byDerivation);
  }

  lemma Arrival(claims: map<Id, Claim>, c: Claim, rs: set<Op>, registry: Registry)
    requires c.id !in claims && ClaimsFiled(claims)
    ensures var before, after := InactiveIds(claims, rs, registry), InactiveIds(claims[c.id := c], rs, registry);
            var retracted := c.id in Firsts(TargetPairs(rs)) || registry.ClaimRefFor(c) in Firsts(TargetRefPairs(rs));
            (c.id in after <==> retracted) && after == (if retracted then before + {c.id} else before)
            && (c.key, c) !in ActivePairs(claims, before, UNSCOPED)
            && ActivePairs(claims[c.id := c], after, UNSCOPED)
               == ActivePairs(claims, before, UNSCOPED) + if retracted then {} else {(c.key, c)}
  {
    InactiveStep(claims, c, rs, registry);
    var before, after := InactiveIds(claims, rs, registry), InactiveIds(claims[c.id := c], rs, registry);
    ActiveUnknown(claims, before, UNSCOPED, c.id);
    ActiveStep(claims, c, after, UNSCOPED);
    ActiveStep(claims, c, before, UNSCOPED);
    hide ActivePairs;
    assert before + {} == before;
  }

  /** Whether the claim is active is decided by the retractions already known. */
  method PlaceArrival(wk: Work, c: Claim, ref: ClaimRef, ghost rs: set<Op>, ghost registry: Registry)
    returns (raw: map<ClaimKey, seq<Claim>>, inactive: set<Id>)
    requires InStep(wk, rs, registry) && ClaimsFiled(wk.records.claims) && c.id !in wk.records.claims
    requires ref == registry.ClaimRefFor(c)
    ensures inactive == InactiveIds(wk.records.claims[c.id := c], rs, registry)
    ensures LooseBag(raw, ActivePairs(wk.records.claims[c.id := c], inactive, UNSCOPED))
    ensures wk.inactive <= inactive <= wk.inactive + {c.id}
  {
    Arrival(wk.records.claims, c, rs, registry);
    assert wk.retractions.byTarget.Keys == Firsts(TargetPairs(rs));
    assert wk.retractions.byTargetRef.Keys == Firsts(TargetRefPairs(rs));
    hide InactiveIds;
    hide LooseBag;
    hide ActivePairs;
    if c.id in wk.retractions.byTarget || ref in wk.retractions.byTargetRef {
      raw, inactive := wk.raw, wk.inactive + {c.id};
      assert ActivePairs(wk.records.claims, wk.inactive, UNSCOPED) + {} == ActivePairs(wk.records.claims, wk.inactive, UNSCOPED);
    } else {
      LooseAppend(wk.raw, ActivePairs(wk.records.claims, wk.inactive, UNSCOPED), c.key, c);
      raw, inactive := Append(wk.raw, c.key, c), wk.inactive;
    }
  }

  lemma ArrivalCovered(wk: Work, after: Work, c: Claim, waiting: set<Id>)
    requires c.id !in wk.records.claims
    requires after.records == wk.records.(claims := wk.records.claims[c.id := c])
    requires wk.inactive <= after.inactive <= wk.inactive + {c.id}
    requires waiting == Lookup(Group(ClassifiedPairs(wk.records.resolutions)), c.id)
    ensures Covered(BaseOf(wk), BaseOf(after), Marks({c.key}, {c.id}, {}, waiting))
  {
    assert KeysCovered(BaseOf(wk), BaseOf(after), {c.key});
    assert ClaimsCovered(BaseOf(wk), BaseOf(after), {c.id});
    assert RefsCovered(wk.records, after.records, {});
    assert Grows(BaseOf(wk), BaseOf(after));
    assert ResolutionsCovered(wk.records, after.records, waiting) by {
      forall id | id in wk.records.resolutions && id !in waiting ensures c.id !in wk.records.resolutions[id].Classified() {
        GroupLookup(ClassifiedPairs(wk.records.resolutions), c.id, id);
        assert c.id in wk.records.resolutions[id].Classified() ==> (c.id, id) in ClassifiedPairs(wk.records.resolutions);
      }
    }
  }

  lemma ArrivalAdvanced(wk: Work, after: Work, c: Claim, waiting: set<Id>, rs: set<Op>, registry: Registry)
    requires InStep(after, rs, registry) && c.id !in wk.records.claims
    requires after.records == wk.records.(claims := wk.records.claims[c.id := c])
    requires wk.inactive <= after.inactive <= wk.inactive + {c.id}
    requires waiting == Lookup(Group(ClassifiedPairs(wk.records.resolutions)), c.id)
    requires after.marks == Marks(wk.marks.keys + {c.key}, wk.marks.claims + {c.id}, wk.marks.refs,
                                  wk.marks.resolutions + waiting)
    ensures Advanced(wk, after, rs, registry)
  {
    hide InStep;
    hide Covered;
    ArrivalCovered(wk, after, c, waiting);
    assert after.marks == Join(wk.marks, Marks({c.key}, {c.id}, {}, waiting));
  }

  /** A claim seen for the first time. */
  method FileClaim(wk: Work, c: Claim, ghost rs: set<Op>, registry: Registry) returns (after: Work)
    requires InStep(wk, rs, registry) && ClaimsFiled(wk.records.claims) && c.id !in wk.records.claims
    ensures Advanced(wk, after, rs, registry)
    ensures after.records == wk.records.(claims := wk.records.claims[c.id := c])
  {
    var links := LinkClaim(wk.records, wk.links, c, registry);
    var raw, inactive := PlaceArrival(wk, c, registry.ClaimRefFor(c), rs, registry);
    var waiting := Lookup(wk.links.resolutionsByClaim, c.id);
    hide LinksOf;
    hide LooseBag;
    hide ActivePairs;
    hide InactiveIds;
    hide HistoriesOf;
    hide RetractionsOf;
    hide Group;
    after := wk.(records := wk.records.(claims := wk.records.claims[c.id := c]), links := links, raw := raw,
                 inactive := inactive,
                 marks := wk.marks.(keys := wk.marks.keys + {c.key}, claims := wk.marks.claims + {c.id},
                                    resolutions := wk.marks.resolutions + waiting));
    ArrivalAdvanced(wk, after, c, waiting, rs, registry);
  }

  method ApplyClaim(wk: Work, c: Claim, ghost rs: set<Op>, registry: Registry) returns (r: Result<Work>)
    requires InStep(wk, rs, registry) && ClaimsFiled(wk.records.claims)
    ensures r.Ok? <==> SetRecord(wk.records.claims, c.id, c).Ok?
    ensures r.Ok? ==> Advanced(wk, r.value, rs, registry)
                      && r.value.records == wk.records.(claims := wk.records.claims[c.id := c])
    ensures r.Ok? && r.value.records == wk.records ==> r.value.marks == wk.marks
  {
    hide Advanced;
    hide InStep;
    hide ClaimsFiled;
    var inserted := InsertImmutable(wk.records.claims, c.id, c);
    if inserted.ValueError? { return ValueError; }
    Unchanged(wk, rs, registry);
    assert c.id in wk.records.claims ==> wk.records.claims[c.id := c] == wk.records.claims;
    if !inserted.value.1 { return Ok(wk); }
    var after := FileClaim(wk, c, rs, registry);
    r := Ok(after);
  }

  // ---------------------------------------------------------------- a retraction arrives

  function OpsAt<K>(m: map<K, seq<Op>>, k: K): seq<Op> { if k in m then m[k] else [] }

  /** `_append_sorted_retraction`, for a key that may be absent. */
  function AppendOnce<K>(m: map<K, seq<Op>>, k: Option<K>, op: Op): map<K, seq<Op>> {
    if k.None? then m
    else
      var items := OpsAt(m, k.value);
      if exists i :: 0 <= i < |items| && items[i].opId == op.opId then m[k.value := items]
      else AppendSorted(m, k.value, op, RetractionRank)
  }

  /** The list of one key, as the relation gives it. */
  lemma ListedOps<K(!new)>(pairs: set<(K, Op)>, k: K, op: Op)
    requires UniqueOps(Seconds(pairs) + {op})
    ensures var items := OpsAt(Listings(pairs, RetractionRank), k);
            ((exists i :: 0 <= i < |items| && items[i].opId == op.opId) <==> (k, op) in pairs)
            && (forall x :: x in items <==> (k, x) in pairs)
  {
    var items := OpsAt(Listings(pairs, RetractionRank), k);
    assert Distinct(Seconds(pairs), RetractionRank);
    ImageDistinct(pairs, k, RetractionRank);
    ListingProperties(Image(pairs, k), RetractionRank);
    ImageOutside(pairs, k);
    assert Elements(items) == Image(pairs, k);
    hide Listings;
    forall x ensures x in items <==> (k, x) in pairs {
      ImageMember(pairs, k, x);
      assert x in items <==> x in Elements(items);
    }
    forall i | 0 <= i < |items| && items[i].opId == op.opId ensures items[i] == op {
      assert items[i] in items;
      assert (k, items[i]).1 in Seconds(pairs);
    }
  }

  lemma AppendOnceListing<K(!new)>(pairs: set<(K, Op)>, k: Option<K>, op: Op)
    requires UniqueOps(Seconds(pairs) + {op})
    ensures AppendOnce(Listings(pairs, RetractionRank), k, op) == Listings(With(pairs, k, op), RetractionRank)
  {
    if k.Some? {
      var m, items := Listings(pairs, RetractionRank), OpsAt(Listings(pairs, RetractionRank), k.value);
      ListedOps(pairs, k.value, op);
      hide UniqueOps;
      if (k.value, op) in pairs {
        assert pairs + {(k.value, op)} == pairs;
        assert (k.value, op).0 in Firsts(pairs);
        assert m[k.value := items] == m;
      } else {
        assert Seconds(pairs + {(k.value, op)}) <= Seconds(pairs) + {op};
        ListingsAppend(pairs, k.value, op, RetractionRank);
      }
    }
  }

  function AddRetraction(r: Retractions, op: Op): Retractions
    requires op.ClaimRetracted?
  {
    Retractions(AppendOnce(r.byTarget, op.target, op), AppendOnce(r.byTargetRef, op.targetRef, op),
                AppendOnce(r.bySuperseder, op.superseder, op), AppendOnce(r.bySupersederRef, op.supersederRef, op))
  }

  lemma RetractionPairs(rs: set<Op>, op: Op)
    requires op.ClaimRetracted?
    ensures TargetPairs(rs + {op}) == With(TargetPairs(rs), op.target, op)
    ensures TargetRefPairs(rs + {op}) == With(TargetRefPairs(rs), op.targetRef, op)
    ensures SupersederPairs(rs + {op}) == With(SupersederPairs(rs), op.superseder, op)
    ensures SupersederRefPairs(rs + {op}) == With(SupersederRefPairs(rs), op.supersederRef, op)
  {
  }

  lemma UniqueSeconds<K(!new)>(pairs: set<(K, Op)>, rs: set<Op>, op: Op)
    requires UniqueOps(rs + {op}) && forall p: (K, Op) :: p in pairs ==> p.1 in rs
    ensures UniqueOps(Seconds(pairs) + {op})
  {
    assert Seconds(pairs) + {op} <= rs + {op};
  }

  /** A retraction seen before leaves the lists alone; a new one takes its place in them. */
  lemma RetractionsGrow(rs: set<Op>, op: Op)
    requires op.ClaimRetracted? && UniqueOps(rs + {op})
    ensures AddRetraction(RetractionsOf(rs), op) == RetractionsOf(rs + {op})
  {
    RetractionPairs(rs, op);
    UniqueSeconds(TargetPairs(rs), rs, op);
    UniqueSeconds(TargetRefPairs(rs), rs, op);
    UniqueSeconds(SupersederPairs(rs), rs, op);
    UniqueSeconds(SupersederRefPairs(rs), rs, op);
    hide AppendOnce;
    hide With;
    hide Listings;
    AppendOnceListing(TargetPairs(rs), op.target, op);
    AppendOnceListing(TargetRefPairs(rs), op.targetRef, op);
    AppendOnceListing(SupersederPairs(rs), op.superseder, op);
    AppendOnceListing(SupersederRefPairs(rs), op.supersederRef, op);
  }

  /** The claims a retraction names: directly, or through the reference they carry. */
  function Named(op: Op, idsByRef: map<ClaimRef, set<Id>>): set<Id>
    requires op.ClaimRetracted?
  {
    (if op.target.Some? then {op.target.value} else {})
    + if op.targetRef.Some? then Lookup(idsByRef, op.targetRef.value) else {}
  }

  lemma InactiveGrow(claims: map<Id, Claim>, rs: set<Op>, op: Op, registry: Registry)
    requires op.ClaimRetracted?
    ensures InactiveIds(claims, rs + {op}, registry)
            == InactiveIds(claims, rs, registry) + Named(op, Group(RefPairs(claims, registry)))
    ensures op.targetRef.Some? ==> Lookup(Group(RefPairs(claims, registry)), op.targetRef.value) <= claims.Keys
  {
    RetractionPairs(rs, op);
    if op.target.Some? { FirstsAdd(TargetPairs(rs), op.target.value, op); }
    if op.targetRef.Some? {
      FirstsAdd(TargetRefPairs(rs), op.targetRef.value, op);
      IdsOfRef(claims, registry, {}, Firsts(TargetRefPairs(rs)), op.targetRef.value);
      forall id | id in Lookup(Group(RefPairs(claims, registry)), op.targetRef.value) ensures id in claims {
        GroupLookup(RefPairs(claims, registry), op.targetRef.value, id);
      }
    }
  }

  /** `[item for item in items if item.claim_id != claim_id]` */
  function DropId(items: seq<Claim>, id: Id): seq<Claim> {
    if items == [] then []
    else DropId(items[..|items| - 1], id)
         + if items[|items| - 1].id != id then [items[|items| - 1]] else []
  }

  lemma {:induction false} DropIdMembers(items: seq<Claim>, id: Id)
    requires NoDuplicates(items)
    ensures forall c :: c in DropId(items, id) <==> c in items && c.id != id
    ensures NoDuplicates(DropId(items, id))
  {
    if items != [] {
      DropIdMembers(items[..|items| - 1], id);
      assert items == items[..|items| - 1] + [items[|items| - 1]];
    }
  }

  function ClaimsUnder(raw: map<ClaimKey, seq<Claim>>, key: ClaimKey): seq<Claim> { if key in raw then raw[key] else [] }

  lemma LooseDrop(raw: map<ClaimKey, seq<Claim>>, claims: map<Id, Claim>, inactive: set<Id>, id: Id)
    requires ClaimsFiled(claims) && id in claims && LooseBag(raw, ActivePairs(claims, inactive, UNSCOPED))
    ensures LooseBag(raw[claims[id].key := DropId(ClaimsUnder(raw, claims[id].key), id)],
                     ActivePairs(claims, inactive + {id}, UNSCOPED))
  {
    var r, r', key := ActivePairs(claims, inactive, UNSCOPED), ActivePairs(claims, inactive + {id}, UNSCOPED), claims[id].key;
    ActiveDropped(claims, inactive, UNSCOPED, id);
    var raw' := raw[key := DropId(ClaimsUnder(raw, key), id)];
    ImageOutside(r, key);
    DropIdMembers(ClaimsUnder(raw, key), id);
    assert Elements(ClaimsUnder(raw, key)) == Image(r, key);
    forall x, c: Claim ensures c in Image(r', x) <==> c in Image(r, x) && (x == key ==> c.id != id) {
      ImageMember(r, x, c);
      ImageMember(r', x, c);
      ActivePairMember(claims, inactive, UNSCOPED, x, c);
    }
    hide ActivePairs;
    hide Image;
    hide DropId;
    forall x | x in raw' ensures NoDuplicates(raw'[x]) && Elements(raw'[x]) == Image(r', x) {}
    assert Firsts(r') <= Firsts(r);
  }

  datatype Retired = Retired(raw: map<ClaimKey, seq<Claim>>, inactive: set<Id>, keys: set<ClaimKey>, claims: set<Id>)

  ghost predicate RetiredSoFar(x: Retired, wk: Work, direct: set<Id>, done: set<Id>) {
    && LooseBag(x.raw, ActivePairs(wk.records.claims, wk.inactive + done, UNSCOPED))
    && x.inactive == wk.inactive + direct + done * wk.records.claims.Keys
    && x.keys == wk.marks.keys + KeysOfIds(done, wk.records.claims)
    && x.claims == wk.marks.claims + direct + done * wk.records.claims.Keys
  }

  /** The body of `for claim_id in targets`. */
  method RetireOne(x: Retired, id: Id, claims: map<Id, Claim>, ghost wk: Work, ghost direct: set<Id>, ghost done: set<Id>)
    returns (x': Retired)
    requires claims == wk.records.claims && ClaimsFiled(claims) && RetiredSoFar(x, wk, direct, done)
    ensures RetiredSoFar(x', wk, direct, done + {id})
  {
    assert wk.inactive + (done + {id}) == (wk.inactive + done) + {id};
    if id !in claims {
      ActiveUnknown(claims, wk.inactive + done, UNSCOPED, id);
      assert (done + {id}) * claims.Keys == done * claims.Keys;
      assert KeysOfIds(done + {id}, claims) == KeysOfIds(done, claims);
      return x;
    }
    LooseDrop(x.raw, claims, wk.inactive + done, id);
    hide LooseBag;
    hide ActivePairs;
    assert (done + {id}) * claims.Keys == done * claims.Keys + {id};
    assert KeysOfIds(done + {id}, claims) == KeysOfIds(done, claims) + {claims[id].key};
    var key := claims[id].key;
    x' := Retired(x.raw[key := DropId(ClaimsUnder(x.raw, key), id)], x.inactive + {id}, x.keys + {key}, x.claims + {id});
  }

  lemma NoneRetired(x: Retired, wk: Work, direct: set<Id>)
    requires LooseBag(wk.raw, ActivePairs(wk.records.claims, wk.inactive, UNSCOPED))
    requires x == Retired(wk.raw, wk.inactive + direct, wk.marks.keys, wk.marks.claims + direct)
    ensures RetiredSoFar(x, wk, direct, {})
  {
    hide LooseBag;
    hide ActivePairs;
    var none: set<Id> := {};
    assert wk.inactive + none == wk.inactive;
    assert none * wk.records.claims.Keys == {};
    assert KeysOfIds(none, wk.records.claims) == {};
  }

  method RetireAll(targets: set<Id>, direct: set<Id>, wk: Work) returns (x: Retired)
    requires ClaimsFiled(wk.records.claims) && LooseBag(wk.raw, ActivePairs(wk.records.claims, wk.inactive, UNSCOPED))
    ensures RetiredSoFar(x, wk, direct, targets)
  {
    x := Retired(wk.raw, wk.inactive + direct, wk.marks.keys, wk.marks.claims + direct);
    var todo := targets;
    ghost var done: set<Id> := {};
    NoneRetired(x, wk, direct);
    hide RetiredSoFar;
    while todo != {}
      invariant done + todo == targets
      invariant RetiredSoFar(x, wk, direct, done)
      decreases |todo|
    {
      var _ := Inhabited(todo);
      var id :| id in todo;
      x := RetireOne(x, id, wk.records.claims, wk, direct, done);
      done, todo := done + {id}, todo - {id};
    }
    assert done == targets;
  }

  lemma RetiredInStep(wk: Work, after: Work, op: Op, rs: set<Op>, registry: Registry, x: Retired, direct: set<Id>)
    requires op.ClaimRetracted? && InStep(wk, rs, registry) && UniqueOps(rs + {op})
    requires direct == (if op.target.Some? then {op.target.value} else {})
    requires RetiredSoFar(x, wk, direct, Named(op, wk.links.idsByRef))
    requires after == wk.(retractions := AddRetraction(wk.retractions, op), raw := x.raw, inactive := x.inactive,
                          marks := wk.marks.(keys := x.keys, claims := x.claims))
    ensures InStep(after, rs + {op}, registry) && after.inactive == wk.inactive + Named(op, wk.links.idsByRef)
  {
    RetractionsGrow(rs, op);
    InactiveGrow(wk.records.claims, rs, op, registry);
    var targets := Named(op, wk.links.idsByRef);
    assert x.inactive == wk.inactive + targets;
    hide LooseBag;
    hide ActivePairs;
    hide RetractionsOf;
    hide InactiveIds;
    hide HistoriesOf;
    hide AddRetraction;
    hide Named;
  }

  lemma KeyMarked(ids: set<Id>, claims: map<Id, Claim>, id: Id)
    requires id in claims
    ensures id in ids ==> claims[id].key in KeysOfIds(ids, claims)
  {
  }

  lemma RetiredCovered(wk: Work, after: Work, direct: set<Id>, targets: set<Id>)
    requires ClaimsFiled(wk.records.claims) && after.records == wk.records && after.inactive == wk.inactive + targets
    ensures Covered(BaseOf(wk), BaseOf(after),
                    Marks(KeysOfIds(targets, wk.records.claims), direct + targets * wk.records.claims.Keys, {}, {}))
  {
    forall id | id in wk.records.claims && wk.records.claims[id].key !in KeysOfIds(targets, wk.records.claims)
      ensures id !in targets
    {
      KeyMarked(targets, wk.records.claims, id);
    }
  }

  lemma RetiredAdvanced(wk: Work, after: Work, x: Retired, direct: set<Id>, targets: set<Id>, rs: set<Op>, registry: Registry)
    requires ClaimsFiled(wk.records.claims) && InStep(after, rs, registry)
    requires after.records == wk.records && after.inactive == wk.inactive + targets
    requires RetiredSoFar(x, wk, direct, targets)
    requires after.marks == wk.marks.(keys := x.keys, claims := x.claims)
    ensures Advanced(wk, after, rs, registry)
  {
    RetiredCovered(wk, after, direct, targets);
    var added := Marks(KeysOfIds(targets, wk.records.claims), direct + targets * wk.records.claims.Keys, {}, {});
    assert x.claims == wk.marks.claims + added.claims;
    hide LooseBag;
    hide InStep;
    hide Covered;
    hide KeysOfIds;
    assert after.marks == Join(wk.marks, added);
  }

  method ApplyRetraction(wk: Work, op: Op, ghost rs: set<Op>, registry: Registry) returns (after: Work)
    requires op.ClaimRetracted? && UniqueOps(rs + {op})
    requires InStep(wk, rs, registry) && ClaimsFiled(wk.records.claims)
    ensures Advanced(wk, after, rs + {op}, registry) && after.records == wk.records
  {
    var direct := if op.target.Some? then {op.target.value} else {};
    var targets := Named(op, wk.links.idsByRef);
    var x := RetireAll(targets, direct, wk);
    after := wk.(retractions := AddRetraction(wk.retractions, op), raw := x.raw, inactive := x.inactive,
                 marks := wk.marks.(keys := x.keys, claims := x.claims));
    hide RetiredSoFar;
    hide InStep;
    hide Advanced;
    hide AddRetraction;
    RetiredInStep(wk, after, op, rs, registry, x, direct);
    RetiredAdvanced(wk, after, x, direct, targets, rs + {op}, registry);
  }
}
