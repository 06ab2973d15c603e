/** The loop over affected keys: each key's finding and index are replaced by those of the new
    active claims, while every other key keeps what it had. */
module Refresh {
  import opened Basics
  import opened Model
  import opened ConflictIndex
  import opened Findings
  import opened State
  import opened Tables
  import opened Affected

  /** The active claims before or after a batch, with the records their findings are labelled from. */
  datatype Side = Side(byKey: map<ClaimKey, seq<Claim>>, facts: Facts)

  ghost function SideFindings(s: Side, registry: Registry): set<ConflictSet> {
    FindingSet(s.byKey, s.facts, registry)
  }

  ghost function SideFinding(s: Side, key: ClaimKey, registry: Registry): Option<ConflictSet> {
    FindingAt(s.byKey, key, s.facts, registry)
  }

  // ---------------------------------------------------------------- sets of findings, one per key

  /** At most one direct finding per key. */
  ghost predicate OnePerKey(cs: set<ConflictSet>) {
    && (forall c :: c in cs ==> DirectOn(c, c.key))
    && Injective(cs, ConflictKeyOf)
  }

  lemma OnePerKeyInjective(cs: set<ConflictSet>)
    requires OnePerKey(cs)
    ensures Injective(cs, ConflictIdOf) && Injective(cs, ConflictRefOf) && Injective(cs, ConflictKeyOf)
  {
  }

  /** The finding of a key, if the set holds one. */
  ghost predicate IsFindingOf(cs: set<ConflictSet>, key: ClaimKey, found: Option<ConflictSet>) {
    && (found.Some? ==> found.value in cs && found.value.key == key)
    && (found.None? ==> forall c :: c in cs ==> c.key != key)
  }

  ghost function Replaced(cs: set<ConflictSet>, key: ClaimKey, current: Option<ConflictSet>): set<ConflictSet> {
    (set c | c in cs && c.key != key) + if current.Some? then {current.value} else {}
  }

  lemma SideOnePerKey(s: Side, registry: Registry, key: ClaimKey)
    requires ListsByKey(s.byKey)
    ensures OnePerKey(SideFindings(s, registry))
    ensures IsFindingOf(SideFindings(s, registry), key, SideFinding(s, key, registry))
    ensures SideFinding(s, key, registry).Some? ==> DirectOn(SideFinding(s, key, registry).value, key)
  {
    FindingsInjective(s.byKey, s.byKey.Keys, s.facts, registry);
    if HasFinding(s.byKey, key, s.facts, registry) {
      FindingAtIdentity(s.byKey, key, s.facts, registry);
    }
  }

  // ---------------------------------------------------------------- replacing one key's finding

  /** `conflict.detector_id == "direct" and conflict.keys == (key,)` */
  predicate IsOwn(c: ConflictSet, key: ClaimKey) { c.detector == DIRECT_DETECTOR && c.keys == {key} }

  function OwnFindings(cs: seq<ConflictSet>, key: ClaimKey): seq<ConflictSet> {
    if cs == [] then []
    else OwnFindings(cs[..|cs| - 1], key) + if IsOwn(cs[|cs| - 1], key) then [cs[|cs| - 1]] else []
  }

  function FindingsUnder(t: FindingTables, key: ClaimKey): seq<ConflictSet> { if key in t.byKey then t.byKey[key] else [] }

  lemma OwnFinding(cs: set<ConflictSet>, key: ClaimKey) returns (previous: Option<ConflictSet>)
    requires OnePerKey(cs)
    ensures IsFindingOf(cs, key, previous)
    ensures OwnFindings(FindingsUnder(TablesOf(cs), key), key) == if previous.Some? then [previous.value] else []
  {
    ByIdEntry(cs, ConflictKeyOf, key);
    var m := ById(cs, ConflictKeyOf);
    hide ById;
    previous := if key in m then Some(m[key]) else None;
    if previous.Some? {
      var own := [m[key]];
      assert own[..0] == [];
      assert IsOwn(own[0], key);
      assert OwnFindings(own, key) == own;
    }
  }

  /** Dropping a finding from the tables by identifier and by reference. */
  lemma Dropped(cs: set<ConflictSet>, key: ClaimKey, previous: Option<ConflictSet>)
    requires OnePerKey(cs) && IsFindingOf(cs, key, previous)
    ensures var kept := set c | c in cs && c.key != key;
            previous.None? ==> kept == cs
    ensures previous.Some? ==> (set c | c in cs && c.key != key) == cs - {previous.value}
  {
    if previous.Some? {
      assert forall c :: c in cs && c.key == key ==> ConflictKeyOf(c) == ConflictKeyOf(previous.value);
    }
  }

  function PopIds(m: map<ConflictId, ConflictSet>, previous: Option<ConflictSet>): map<ConflictId, ConflictSet> {
    if previous.Some? then m - {previous.value.id} else m
  }

  function PopRefs(m: map<ConflictRef, ConflictSet>, previous: Option<ConflictSet>): map<ConflictRef, ConflictSet> {
    if previous.Some? then m - {previous.value.ref} else m
  }

  function Put<K>(m: map<K, ConflictSet>, k: ConflictSet -> K, current: Option<ConflictSet>): map<K, ConflictSet> {
    if current.Some? then m[k(current.value) := current.value] else m
  }

  lemma ReplacedOnePerKey(cs: set<ConflictSet>, key: ClaimKey, current: Option<ConflictSet>)
    requires OnePerKey(cs) && (current.Some? ==> DirectOn(current.value, key))
    ensures OnePerKey(Replaced(cs, key, current))
  {
  }

  /** One dictionary of findings, with the key's finding replaced. */
  lemma ReplacedById<K(!new)>(cs: set<ConflictSet>, key: ClaimKey, previous: Option<ConflictSet>, current: Option<ConflictSet>,
                              id: ConflictSet -> K)
    requires OnePerKey(cs) && IsFindingOf(cs, key, previous)
    requires Injective(cs, id) && Injective(Replaced(cs, key, current), id)
    ensures ById(Replaced(cs, key, current), id)
            == Put(if previous.Some? then ById(cs, id) - {id(previous.value)} else ById(cs, id), id, current)
  {
    Dropped(cs, key, previous);
    var kept := set c | c in cs && c.key != key;
    if previous.Some? { ByIdRemove(cs, id, previous.value); }
    assert kept <= cs;
    if current.Some? {
      ByIdAdd(kept, id, current.value);
    } else {
      assert Replaced(cs, key, current) == kept;
    }
  }

  lemma SingletonsPut(m: map<ClaimKey, ConflictSet>, key: ClaimKey, c: ConflictSet)
    ensures Singletons(m[key := c]) == Singletons(m)[key := [c]]
  {
    assert Singletons(m[key := c]).Keys == Singletons(m)[key := [c]].Keys;
  }

  lemma SingletonsDrop(m: map<ClaimKey, ConflictSet>, key: ClaimKey)
    ensures Singletons(m - {key}) == Singletons(m) - {key}
  {
    assert Singletons(m - {key}).Keys == (Singletons(m) - {key}).Keys;
  }

  lemma ReplacedByKey(cs: set<ConflictSet>, key: ClaimKey, previous: Option<ConflictSet>, current: Option<ConflictSet>)
    requires OnePerKey(cs) && IsFindingOf(cs, key, previous)
    requires current.Some? ==> DirectOn(current.value, key)
    ensures var m := Singletons(ById(cs, ConflictKeyOf));
            Singletons(ById(Replaced(cs, key, current), ConflictKeyOf))
            == if current.Some? then m[key := [current.value]] else m - {key}
  {
    ReplacedOnePerKey(cs, key, current);
    ReplacedById(cs, key, previous, current, ConflictKeyOf);
    ByIdEntry(cs, ConflictKeyOf, key);
    hide ById;
    hide OnePerKey;
    hide Injective;
    hide Replaced;
    hide Singletons;
    hide DirectOn;
    SingletonsReplaced(ById(cs, ConflictKeyOf), key, previous.Some?, current);
  }

  lemma SingletonsReplaced(m: map<ClaimKey, ConflictSet>, key: ClaimKey, had: bool, current: Option<ConflictSet>)
    requires !had ==> key !in m
    requires current.Some? ==> current.value.key == key
    ensures Singletons(Put(if had then m - {key} else m, ConflictKeyOf, current))
            == if current.Some? then Singletons(m)[key := [current.value]] else Singletons(m) - {key}
  {
    var dropped := if had then m - {key} else m;
    if current.Some? {
      assert dropped[key := current.value] == m[key := current.value];
      SingletonsPut(m, key, current.value);
    } else if had {
      SingletonsDrop(m, key);
    } else {
      SingletonsWithout(m, key);
    }
  }

  lemma SingletonsWithout(m: map<ClaimKey, ConflictSet>, key: ClaimKey)
    requires key !in m
    ensures Singletons(m) - {key} == Singletons(m)
  {
  }

  /** The table updates of one iteration: drop the key's previous finding, store its current one. */
  method ReplaceFinding(t: FindingTables, key: ClaimKey, current: Option<ConflictSet>, ghost cs: set<ConflictSet>)
    returns (t': FindingTables, previous: Option<ConflictSet>)
    requires OnePerKey(cs) && t == TablesOf(cs)
    requires current.Some? ==> DirectOn(current.value, key)
    ensures t' == TablesOf(Replaced(cs, key, current)) && IsFindingOf(cs, key, previous)
  {
    ghost var found := OwnFinding(cs, key);
    var own := OwnFindings(FindingsUnder(t, key), key);
    previous := if own != [] then Some(own[0]) else None;
    ReplacedOnePerKey(cs, key, current);
    OnePerKeyInjective(cs);
    OnePerKeyInjective(Replaced(cs, key, current));
    hide OnePerKey;
    hide Injective;
    hide Replaced;
    hide ById;
    hide Singletons;
    ReplacedTables(cs, key, previous, current);
    t' := FindingTables(
      Put(PopIds(t.byId, previous), ConflictIdOf, current), Put(PopRefs(t.byRef, previous), ConflictRefOf, current),
      if current.Some? then t.byKey[key := [current.value]] else t.byKey - {key});
  }

  lemma ReplacedTables(cs: set<ConflictSet>, key: ClaimKey, previous: Option<ConflictSet>, current: Option<ConflictSet>)
    requires OnePerKey(cs) && IsFindingOf(cs, key, previous)
    requires current.Some? ==> DirectOn(current.value, key)
    ensures var t := TablesOf(cs);
            TablesOf(Replaced(cs, key, current)) == FindingTables(
              Put(PopIds(t.byId, previous), ConflictIdOf, current), Put(PopRefs(t.byRef, previous), ConflictRefOf, current),
              if current.Some? then t.byKey[key := [current.value]] else t.byKey - {key})
  {
    ReplacedOnePerKey(cs, key, current);
    OnePerKeyInjective(cs);
    OnePerKeyInjective(Replaced(cs, key, current));
    ReplacedById(cs, key, previous, current, ConflictIdOf);
    ReplacedById(cs, key, previous, current, ConflictRefOf);
    ReplacedByKey(cs, key, previous, current);
  }

  // ---------------------------------------------------------------- part way through the loop

  /** Done keys have their new findings, the others still their old ones. */
  ghost function Mixed(a: set<ConflictSet>, b: set<ConflictSet>, done: set<ClaimKey>): set<ConflictSet> {
    (set c | c in a && c.key !in done) + (set c | c in b && c.key in done)
  }

  lemma MixedStep(a: set<ConflictSet>, b: set<ConflictSet>, done: set<ClaimKey>, key: ClaimKey, current: Option<ConflictSet>)
    requires OnePerKey(a) && OnePerKey(b) && key !in done && IsFindingOf(b, key, current)
    ensures OnePerKey(Mixed(a, b, done))
    ensures Mixed(a, b, done + {key}) == Replaced(Mixed(a, b, done), key, current)
    ensures forall p: Option<ConflictSet> :: IsFindingOf(Mixed(a, b, done), key, p) ==> IsFindingOf(a, key, p)
  {
    if current.Some? {
      assert forall c :: c in b && c.key == key ==> ConflictKeyOf(c) == ConflictKeyOf(current.value);
    }
  }

  ghost predicate InMixed(a: map<ClaimKey, seq<Claim>>, b: map<ClaimKey, seq<Claim>>, done: set<ClaimKey>, key: ClaimKey) {
    if key in done then key in b else key in a
  }

  ghost function MixedLists(a: map<ClaimKey, seq<Claim>>, b: map<ClaimKey, seq<Claim>>, done: set<ClaimKey>)
    : map<ClaimKey, seq<Claim>>
  {
    map key | key in a.Keys + b.Keys && InMixed(a, b, done, key) :: if key in done then b[key] else a[key]
  }

  lemma MixedListsStep(a: map<ClaimKey, seq<Claim>>, b: map<ClaimKey, seq<Claim>>, done: set<ClaimKey>, key: ClaimKey)
    ensures key in b ==> MixedLists(a, b, done + {key}) == MixedLists(a, b, done)[key := b[key]]
    ensures key !in b ==> MixedLists(a, b, done + {key}) == MixedLists(a, b, done) - {key}
    ensures key !in done ==> (key in MixedLists(a, b, done) <==> key in a) && (key in a ==> MixedLists(a, b, done)[key] == a[key])
  {
    if key in b {
      assert MixedLists(a, b, done + {key}).Keys == MixedLists(a, b, done)[key := b[key]].Keys;
    } else {
      assert MixedLists(a, b, done + {key}).Keys == (MixedLists(a, b, done) - {key}).Keys;
    }
  }

  lemma IndexesWithout(byKey: map<ClaimKey, seq<Claim>>, key: ClaimKey, registry: Registry)
    ensures IndexesOf(byKey - {key}, registry) == IndexesOf(byKey, registry) - {key}
  {
    assert IndexesOf(byKey - {key}, registry).Keys == (IndexesOf(byKey, registry) - {key}).Keys;
  }

  // ---------------------------------------------------------------- one key's index

  /** The same identifier names the same claim on both sides. */
  ghost predicate SameClaims(a: seq<Claim>, b: seq<Claim>) {
    forall c, d :: c in a && d in b && c.id == d.id ==> c == d
  }

  /** The index a key had, or one rebuilt from the key's former claims when none was stored. */
  method PreviousIndex(indexes: map<ClaimKey, Index>, key: ClaimKey, was: seq<Claim>, registry: Registry)
    returns (index: Index)
    requires key in indexes ==> indexes[key] == IndexOf(ByClaimId(was), registry)
    requires key !in indexes ==> was == []
    ensures index == IndexOf(ByClaimId(was), registry)
  {
    if key in indexes { return indexes[key]; }
    NoPairs(map[], registry, key);
    RebuiltFromFinding(key, map[], Facts(map[], map[], map[]), registry);
    index := BuildDirectConflictIndex(was, registry, None);
  }

  lemma SameClaimsById(a: seq<Claim>, b: seq<Claim>, key: ClaimKey)
    requires KeyList(a, key) && KeyList(b, key) && SameClaims(a, b)
    ensures OnKey(ByClaimId(b), key)
    ensures forall id :: id in ByClaimId(a) && id in ByClaimId(b) ==> ByClaimId(a)[id] == ByClaimId(b)[id]
  {
    ByClaimIdProperties(a);
    ByClaimIdProperties(b);
    SequenceOnKey(b, key);
  }

  /** One key brought up to date: its index and the finding read from it. */
  method RefreshIndex(indexes: map<ClaimKey, Index>, key: ClaimKey, was: seq<Claim>, now: seq<Claim>,
                      facts: Facts, registry: Registry)
    returns (index: Index, current: Option<ConflictSet>, comparisons: nat)
    requires key in indexes ==> indexes[key] == IndexOf(ByClaimId(was), registry)
    requires key !in indexes ==> was == []
    requires KeyList(was, key) && KeyList(now, key) && SameClaims(was, now)
    ensures index == IndexOf(ByClaimId(now), registry)
    ensures current == FindingOf(key, ByClaimId(now), facts, registry)
    ensures (index.claims == map[]) <==> now == []
    ensures var retained := |ByClaimId(was).Keys * ByClaimId(now).Keys|;
            retained <= |ByClaimId(now)| && comparisons <= Budget(retained, |ByClaimId(now)| - retained)
  {
    SameClaimsById(was, now, key);
    SequenceOnKey(now, key);
    IndexClaims(ByClaimId(was), registry);
    IndexClaims(ByClaimId(now), registry);
    hide IndexOf;
    hide KeyList;
    hide SameClaims;
    hide FindingOf;
    hide ByClaimId;
    hide Budget;
    var previous := PreviousIndex(indexes, key, was, registry);
    index, comparisons := UpdateDirectConflictIndex(previous, now, registry, key);
    current := ConflictFromDirectIndex(index, key, facts, registry);
    assert |now| == |index.claims|;
  }

  // ---------------------------------------------------------------- the loop over affected keys

  datatype Refreshed = Refreshed(
    t: FindingTables, indexes: map<ClaimKey, Index>, previous: set<ConflictId>, current: set<ConflictId>,
    claims: set<Id>, refs: set<ConflictRef>, comparisons: nat)

  ghost function IdsAmong(cs: set<ConflictSet>, keys: set<ClaimKey>): set<ConflictId> {
    set c | c in cs && c.key in keys :: c.id
  }

  ghost function RefsAmong(cs: set<ConflictSet>, keys: set<ClaimKey>): set<ConflictRef> {
    set c | c in cs && c.key in keys :: c.ref
  }

  ghost function CandidatesAmong(cs: set<ConflictSet>, keys: set<ClaimKey>): set<Id> {
    set c, x | c in cs && c.key in keys && x in c.candidates :: x.id
  }

  function IdOf(c: Option<ConflictSet>): set<ConflictId> { if c.Some? then {c.value.id} else {} }
  function RefOfFinding(c: Option<ConflictSet>): set<ConflictRef> { if c.Some? then {c.value.ref} else {} }
  function CandidatesOf(c: Option<ConflictSet>): set<Id> { if c.Some? then c.value.CandidateIds() else {} }

  lemma AmongStep(cs: set<ConflictSet>, keys: set<ClaimKey>, key: ClaimKey, found: Option<ConflictSet>)
    requires OnePerKey(cs) && IsFindingOf(cs, key, found)
    ensures IdsAmong(cs, keys + {key}) == IdsAmong(cs, keys) + IdOf(found)
    ensures RefsAmong(cs, keys + {key}) == RefsAmong(cs, keys) + RefOfFinding(found)
    ensures CandidatesAmong(cs, keys + {key}) == CandidatesAmong(cs, keys) + CandidatesOf(found)
  {
    var more := set c | c in cs && c.key in keys + {key};
    forall c ensures c in more <==> c in cs && (c.key in keys || found == Some(c)) {
      assert c in cs && c.key == key ==> found.Some? && ConflictKeyOf(c) == ConflictKeyOf(found.value);
    }
    AmongMembers(cs, keys, key, found, more);
  }

  lemma AmongMembers(cs: set<ConflictSet>, keys: set<ClaimKey>, key: ClaimKey, found: Option<ConflictSet>, more: set<ConflictSet>)
    requires more == set c | c in cs && c.key in keys + {key}
    requires forall c :: c in more <==> c in cs && (c.key in keys || found == Some(c))
    requires found.Some? ==> found.value in cs
    ensures IdsAmong(cs, keys + {key}) == IdsAmong(cs, keys) + IdOf(found)
    ensures RefsAmong(cs, keys + {key}) == RefsAmong(cs, keys) + RefOfFinding(found)
    ensures CandidatesAmong(cs, keys + {key}) == CandidatesAmong(cs, keys) + CandidatesOf(found)
  {
    assert IdsAmong(cs, keys + {key}) == set c | c in more :: c.id;
    assert RefsAmong(cs, keys + {key}) == set c | c in more :: c.ref;
    assert CandidatesAmong(cs, keys + {key}) == set c, x | c in more && x in c.candidates :: x.id;
  }

  /** What the two sides must share: lists by key, and one claim per identifier. */
  ghost predicate Compatible(old_: Side, new_: Side) {
    && ListsByKey(old_.byKey) && ListsByKey(new_.byKey)
    && forall key :: SameClaims(ClaimsAt(old_.byKey, key), ClaimsAt(new_.byKey, key))
  }

  ghost predicate TablesSoFar(x: Refreshed, old_: Side, new_: Side, registry: Registry, done: set<ClaimKey>) {
    && x.t == TablesOf(Mixed(SideFindings(old_, registry), SideFindings(new_, registry), done))
    && x.indexes == IndexesOf(MixedLists(old_.byKey, new_.byKey, done), registry)
  }

  /** What has been marked while refreshing the done keys. */
  ghost predicate ReportSoFar(x: Refreshed, old_: Side, new_: Side, registry: Registry, marks: Marks, done: set<ClaimKey>) {
    && x.previous == IdsAmong(SideFindings(old_, registry), done)
    && x.current == IdsAmong(SideFindings(new_, registry), done)
    && x.claims == marks.claims + CandidatesAmong(SideFindings(old_, registry), done)
                   + CandidatesAmong(SideFindings(new_, registry), done)
    && x.refs == marks.refs + RefsAmong(SideFindings(old_, registry), done) + RefsAmong(SideFindings(new_, registry), done)
  }

  lemma ReportNext(x: Refreshed, x': Refreshed, old_: Side, new_: Side, registry: Registry, marks: Marks, done: set<ClaimKey>,
                   key: ClaimKey, previous: Option<ConflictSet>, current: Option<ConflictSet>)
    requires ReportSoFar(x, old_, new_, registry, marks, done)
    requires OnePerKey(SideFindings(old_, registry)) && OnePerKey(SideFindings(new_, registry))
    requires IsFindingOf(SideFindings(old_, registry), key, previous) && IsFindingOf(SideFindings(new_, registry), key, current)
    requires x'.previous == x.previous + IdOf(previous) && x'.current == x.current + IdOf(current)
    requires x'.claims == x.claims + CandidatesOf(previous) + CandidatesOf(current)
    requires x'.refs == x.refs + RefOfFinding(previous) + RefOfFinding(current)
    ensures ReportSoFar(x', old_, new_, registry, marks, done + {key})
  {
    hide OnePerKey;
    hide IsFindingOf;
    hide IdsAmong;
    hide RefsAmong;
    hide CandidatesAmong;
    hide SideFindings;
    hide IdOf;
    hide RefOfFinding;
    hide CandidatesOf;
    AmongStep(SideFindings(old_, registry), done, key, previous);
    AmongStep(SideFindings(new_, registry), done, key, current);
  }

  lemma IndexesStep(byKey: map<ClaimKey, seq<Claim>>, key: ClaimKey, claims: seq<Claim>, registry: Registry)
    ensures IndexesOf(byKey[key := claims], registry)
            == IndexesOf(byKey, registry)[key := IndexOf(ByClaimId(claims), registry)]
  {
    hide IndexOf;
    hide ByClaimId;
    assert IndexesOf(byKey[key := claims], registry).Keys
           == IndexesOf(byKey, registry)[key := IndexOf(ByClaimId(claims), registry)].Keys;
  }

  lemma IndexesNext(old_: Side, new_: Side, registry: Registry, done: set<ClaimKey>, key: ClaimKey)
    requires key !in done
    ensures var indexes := IndexesOf(MixedLists(old_.byKey, new_.byKey, done), registry);
            (key in indexes <==> key in old_.byKey)
            && (key in indexes ==> indexes[key] == IndexOf(ByClaimId(ClaimsAt(old_.byKey, key)), registry))
            && IndexesOf(MixedLists(old_.byKey, new_.byKey, done + {key}), registry)
               == if key in new_.byKey then indexes[key := IndexOf(ByClaimId(new_.byKey[key]), registry)] else indexes - {key}
  {
    var lists := MixedLists(old_.byKey, new_.byKey, done);
    MixedListsStep(old_.byKey, new_.byKey, done, key);
    hide MixedLists;
    hide IndexOf;
    hide ByClaimId;
    if key in new_.byKey {
      IndexesStep(lists, key, new_.byKey[key], registry);
    } else {
      IndexesWithout(lists, key, registry);
    }
  }

  lemma ListAt(byKey: map<ClaimKey, seq<Claim>>, key: ClaimKey)
    requires ListsByKey(byKey)
    ensures KeyList(ClaimsAt(byKey, key), key)
  {
  }

  /** One iteration: the key's index, finding and marks. */
  method RefreshKey(x: Refreshed, key: ClaimKey, was: seq<Claim>, now: seq<Claim>, facts: Facts, registry: Registry,
                    ghost old_: Side, ghost new_: Side, ghost marks: Marks, ghost done: set<ClaimKey>)
    returns (x': Refreshed)
    requires Compatible(old_, new_) && key !in done && NoEmptyLists(new_.byKey)
    requires was == ClaimsAt(old_.byKey, key) && now == ClaimsAt(new_.byKey, key) && facts == new_.facts
    requires TablesSoFar(x, old_, new_, registry, done) && ReportSoFar(x, old_, new_, registry, marks, done)
    ensures TablesSoFar(x', old_, new_, registry, done + {key}) && ReportSoFar(x', old_, new_, registry, marks, done + {key})
  {
    ghost var a, b := SideFindings(old_, registry), SideFindings(new_, registry);
    ListAt(old_.byKey, key);
    ListAt(new_.byKey, key);
    SideOnePerKey(old_, registry, key);
    SideOnePerKey(new_, registry, key);
    IndexesNext(old_, new_, registry, done, key);
    hide ListsByKey;
    hide KeyList;
    hide SideFindings;
    hide MixedLists;
    hide IndexesOf;
    hide TablesOf;
    hide FindingOf;
    hide ByClaimId;
    hide IndexOf;
    hide DirectOn;
    hide OnePerKey;
    hide IsFindingOf;
    hide Mixed;
    hide Replaced;
    hide ReportSoFar;
    var index, current, cost := RefreshIndex(x.indexes, key, was, now, facts, registry);
    MixedStep(a, b, done, key, current);
    var t, previous := ReplaceFinding(x.t, key, current, Mixed(a, b, done));
    x' := Refreshed(t, if index.claims != map[] then x.indexes[key := index] else x.indexes - {key},
                    x.previous + IdOf(previous), x.current + IdOf(current),
                    x.claims + CandidatesOf(previous) + CandidatesOf(current),
                    x.refs + RefOfFinding(previous) + RefOfFinding(current), x.comparisons + cost);
    ReportNext(x, x', old_, new_, registry, marks, done, key, previous, current);
  }

  ghost predicate NoEmptyLists(byKey: map<ClaimKey, seq<Claim>>) { forall key :: key in byKey ==> byKey[key] != [] }
}
