/** The tables of a state, told by the operations of the log and by the fields of the rules. */
module LogTables {
  import opened Basics
  import opened Model
  import opened Records
  import opened State
  import opened Tables

  // ---------------------------------------------------------------- records

  ghost predicate Added(log: set<Op>, c: Claim) { exists op :: op in log && op.ClaimAdded? && op.claim == c }

  lemma ClaimStored(log: set<Op>, c: Claim)
    requires CollisionFree(log)
    ensures c.id in RecordsOf(log).claims && RecordsOf(log).claims[c.id] == c <==> Added(log, c)
  {
    ByIdEntry(ClaimsIn(log), ClaimId, c.id);
    if Added(log, c) {
      var op :| op in log && op.ClaimAdded? && op.claim == c;
      assert c in ClaimsIn(log);
    }
  }

  // ---------------------------------------------------------------- retired claims

  /** The value a claim is referred to by: normalized when the rule of its predicate says so. */
  ghost function ReferredValue(c: Claim, rules: map<Name, Rule>): Json {
    if c.key.predicateName in rules && rules[c.key.predicateName].normalize.Some? && rules[c.key.predicateName].normalizeForRef
    then rules[c.key.predicateName].normalize.value(c.value) else c.value
  }

  /** A retraction names a claim, or the reference made of its key, value, kind and context. */
  ghost predicate Retires(op: Op, c: Claim, rules: map<Name, Rule>) {
    op.ClaimRetracted?
    && (op.target == Some(c.id) || op.targetRef == Some(RefOf(c.key, ReferredValue(c, rules), c.kind, c.context)))
  }

  ghost predicate Retired(log: set<Op>, c: Claim, rules: map<Name, Rule>) { exists op :: op in log && Retires(op, c, rules) }

  lemma RefExactly(c: Claim, registry: Registry)
    ensures registry.ClaimRefFor(c) == RefOf(c.key, ReferredValue(c, registry.rules), c.kind, c.context)
  {
  }

  lemma InactiveExactly(log: set<Op>, claims: map<Id, Claim>, registry: Registry, c: Claim)
    requires c.id in claims && claims[c.id] == c
    ensures c.id in InactiveIds(claims, RetractionsIn(log), registry) <==> Retired(log, c, registry.rules)
  {
    RefExactly(c, registry);
    hide Registry.ClaimRefFor;
    hide ReferredValue;
    var rs := RetractionsIn(log);
    if c.id in InactiveIds(claims, rs, registry) {
      if c.id in Firsts(TargetPairs(rs)) {
        var p :| p in TargetPairs(rs) && p.0 == c.id;
        assert Retires(p.1, c, registry.rules);
      } else {
        var p :| p in TargetRefPairs(rs) && p.0 == registry.ClaimRefFor(c);
        assert Retires(p.1, c, registry.rules);
      }
    }
    if Retired(log, c, registry.rules) {
      var op :| op in log && Retires(op, c, registry.rules);
      assert op in rs;
      if op.target == Some(c.id) { assert (op.target.value, op) in TargetPairs(rs) && (op.target.value, op).0 == c.id; }
      else { assert (op.targetRef.value, op) in TargetRefPairs(rs) && (op.targetRef.value, op).0 == registry.ClaimRefFor(c); }
    }
  }

  lemma ActivityParts(log: set<Op>, registry: Registry, w: Window)
    ensures var s := StateOf(log, registry, w);
            s.records == RecordsOf(log)
            && s.activity == ActivityOf(RecordsOf(log).claims, InactiveIds(RecordsOf(log).claims, RetractionsIn(log), registry), w)
            && s.links == LinksOf(RecordsOf(log), registry) && s.retractions == RetractionsOf(RetractionsIn(log))
            && s.histories == HistoriesOf(RecordsOf(log))
  {
    hide RecordsOf;
    hide InactiveIds;
    hide ActivityOf;
    hide LinksOf;
    hide RetractionsOf;
    hide HistoriesOf;
  }

  /** A claim of the log is retired exactly when some retraction in the log names it, or names the
      reference made of its key, kind, context and value, normalized if its rule says so. */
  lemma RetiredExactly(log: set<Op>, registry: Registry, w: Window, c: Claim)
    requires CollisionFree(log) && Added(log, c)
    ensures c.id in StateOf(log, registry, w).activity.inactive <==> Retired(log, c, registry.rules)
  {
    ActivityParts(log, registry, w);
    ClaimStored(log, c);
    InactiveExactly(log, RecordsOf(log).claims, registry, c);
    hide StateOf;
    hide RecordsOf;
    hide InactiveIds;
    hide Retired;
    hide Added;
    hide CollisionFree;
  }

  // ---------------------------------------------------------------- claims of one reference

  ghost predicate SameReference(a: Claim, b: Claim, rules: map<Name, Rule>) {
    a.key == b.key && a.kind == b.kind && a.context == b.context && ReferredValue(a, rules) == ReferredValue(b, rules)
  }

  ghost predicate FiledTogether(idsByRef: map<ClaimRef, set<Id>>, a: Claim, b: Claim) {
    exists ref :: ref in idsByRef && a.id in idsByRef[ref] && b.id in idsByRef[ref]
  }

  lemma RefFiles(claims: map<Id, Claim>, registry: Registry, c: Claim, ref: ClaimRef)
    requires c.id in claims && claims[c.id] == c
    ensures c.id in Lookup(Group(RefPairs(claims, registry)), ref)
            <==> ref == RefOf(c.key, ReferredValue(c, registry.rules), c.kind, c.context)
  {
    RefExactly(c, registry);
    GroupLookup(RefPairs(claims, registry), ref, c.id);
    hide Registry.ClaimRefFor;
    hide ReferredValue;
    if (ref, c.id) in RefPairs(claims, registry) {
      var id :| id in claims && (registry.ClaimRefFor(claims[id]), id) == (ref, c.id);
    }
    assert (registry.ClaimRefFor(claims[c.id]), c.id) in RefPairs(claims, registry);
  }

  lemma TogetherExactly(claims: map<Id, Claim>, registry: Registry, a: Claim, b: Claim)
    requires a.id in claims && claims[a.id] == a && b.id in claims && claims[b.id] == b
    ensures FiledTogether(Group(RefPairs(claims, registry)), a, b) <==> SameReference(a, b, registry.rules)
  {
    var m := Group(RefPairs(claims, registry));
    hide RefPairs;
    hide Group;
    hide ReferredValue;
    var refA := RefOf(a.key, ReferredValue(a, registry.rules), a.kind, a.context);
    RefFiles(claims, registry, a, refA);
    RefFiles(claims, registry, b, refA);
    if FiledTogether(m, a, b) {
      var ref :| ref in m && a.id in m[ref] && b.id in m[ref];
      RefFiles(claims, registry, a, ref);
      RefFiles(claims, registry, b, ref);
    }
  }

  /** Two claims of the log are filed under one reference exactly when key, kind, context and referred
      value agree. */
  lemma FiledTogetherExactly(log: set<Op>, registry: Registry, w: Window, a: Claim, b: Claim)
    requires CollisionFree(log) && Added(log, a) && Added(log, b)
    ensures FiledTogether(StateOf(log, registry, w).links.idsByRef, a, b) <==> SameReference(a, b, registry.rules)
  {
    hide CollisionFree;
    hide Added;
    hide FiledTogether;
    hide SameReference;
    LinksParts(log, registry, w);
    ClaimStored(log, a);
    ClaimStored(log, b);
    hide StateOf;
    hide RecordsOf;
    TogetherExactly(RecordsOf(log).claims, registry, a, b);
  }

  lemma LinksParts(log: set<Op>, registry: Registry, w: Window)
    ensures StateOf(log, registry, w).links.idsByRef == Group(RefPairs(RecordsOf(log).claims, registry))
  {
    ActivityParts(log, registry, w);
    hide StateOf;
    hide RecordsOf;
    hide RefMap;
    hide RefPairs;
    hide EvidencePairs;
    hide DerivationPairs;
    hide SourcePairs;
    hide ClassifiedPairs;
    hide Group;
  }

  // ---------------------------------------------------------------- active claims

  /** The claim holds at the instant and in the context asked for; a dimension it does not name, or
      that is not asked about, does not matter. */
  ghost predicate HoldsIn(c: Claim, w: Window) {
    && (w.at.Some? && c.validity.Some? && c.validity.value.from.Some? ==> c.validity.value.from.value <= w.at.value)
    && (w.at.Some? && c.validity.Some? && c.validity.value.until.Some? ==> w.at.value < c.validity.value.until.value)
    && (w.context.Some? ==> forall k :: k in w.context.value && k in c.context ==> c.context[k] == w.context.value[k])
  }

  ghost predicate ListedOn(byKey: map<ClaimKey, seq<Claim>>, key: ClaimKey, c: Claim) { key in byKey && c in byKey[key] }

  lemma AppliesExactly(c: Claim, w: Window)
    ensures Applies(c, w) <==> HoldsIn(c, w)
  {
  }

  /** A key's list in identifier order; a key with no claims has no list. */
  ghost predicate InOrder(byKey: map<ClaimKey, seq<Claim>>, key: ClaimKey) {
    key in byKey ==> byKey[key] != [] && forall i, j :: 0 <= i < j < |byKey[key]| ==> byKey[key][i].id.n < byKey[key][j].id.n
  }

  lemma ListInOrder(claims: map<Id, Claim>, inactive: set<Id>, w: Window, key: ClaimKey)
    requires ClaimsFiled(claims)
    ensures InOrder(ActivityOf(claims, inactive, w).byKey, key)
  {
    var byKey: map<ClaimKey, seq<Claim>> := ActivityOf(claims, inactive, w).byKey;
    ClaimsAtKey(claims, inactive, w, key);
    if key in byKey {
      KeyListNotEmpty(claims, inactive, w, key);
      hide ActivityOf;
      forall i, j | 0 <= i < j < |byKey[key]| ensures byKey[key][i].id.n < byKey[key][j].id.n {
        assert Below(ClaimRank(byKey[key][i]), ClaimRank(byKey[key][j]));
      }
    }
  }

  lemma ListedExactly(log: set<Op>, claims: map<Id, Claim>, registry: Registry, w: Window, key: ClaimKey, c: Claim)
    requires ClaimsFiled(claims) && (c.id in claims && claims[c.id] == c <==> Added(log, c))
    ensures var byKey := ActivityOf(claims, InactiveIds(claims, RetractionsIn(log), registry), w).byKey;
            ListedOn(byKey, key, c) <==> Added(log, c) && c.key == key && !Retired(log, c, registry.rules) && HoldsIn(c, w)
  {
    hide ActivityOf;
    hide InactiveIds;
    hide HoldsIn;
    hide Retired;
    hide Added;
    ListedClaim(claims, InactiveIds(claims, RetractionsIn(log), registry), w, key, c);
    AppliesExactly(c, w);
    hide Applies;
    if Added(log, c) { InactiveExactly(log, claims, registry, c); }
  }

  /** A key's list holds exactly the claims of the log on that key that nothing retires and that hold
      in the window, in identifier order. */
  lemma ActiveExactly(log: set<Op>, registry: Registry, w: Window, key: ClaimKey)
    requires CollisionFree(log)
    ensures var byKey := StateOf(log, registry, w).activity.byKey;
            InOrder(byKey, key)
            && forall c :: ListedOn(byKey, key, c) <==> Added(log, c) && c.key == key && !Retired(log, c, registry.rules) && HoldsIn(c, w)
  {
    ActivityParts(log, registry, w);
    RecordsWellFiled(log);
    var claims, byKey := RecordsOf(log).claims, StateOf(log, registry, w).activity.byKey;
    hide StateOf;
    hide RecordsOf;
    hide CollisionFree;
    hide InactiveIds;
    hide ActivityOf;
    hide HoldsIn;
    hide Retired;
    hide Added;
    hide ListedOn;
    hide InOrder;
    ListInOrder(claims, InactiveIds(claims, RetractionsIn(log), registry), w, key);
    forall c ensures ListedOn(byKey, key, c) <==> Added(log, c) && c.key == key && !Retired(log, c, registry.rules) && HoldsIn(c, w) {
      ClaimStored(log, c);
      ListedExactly(log, claims, registry, w, key, c);
    }
  }

  lemma KeyListNotEmpty(claims: map<Id, Claim>, inactive: set<Id>, w: Window, key: ClaimKey)
    requires ClaimsFiled(claims) && key in ActivityOf(claims, inactive, w).byKey
    ensures ActivityOf(claims, inactive, w).byKey[key] != []
  {
    var pairs := ActivePairs(claims, inactive, w);
    ClaimsAtKey(claims, inactive, w, key);
    var p :| p in pairs && p.0 == key;
    assert (key, p.1) in pairs;
    assert p.1 in ClaimsAt(ActivityOf(claims, inactive, w).byKey, key);
  }
}
