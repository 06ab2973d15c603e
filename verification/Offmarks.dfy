/** Unmarked keys: their active claims and their finding are what they were. */
module Offmarks {
  import opened Basics
  import opened Model
  import opened ConflictIndex
  import opened Findings
  import opened State
  import opened Tables
  import opened Affected
  import opened Refresh

  ghost function SideOf(b: Base): Side {
    Side(ActivityOf(b.records.claims, b.inactive, UNSCOPED).byKey, FactsOf(b.records))
  }

  lemma AlwaysApplies(c: Claim)
    ensures Applies(c, UNSCOPED)
  {
  }

  lemma OffMarksListed(a: Base, b: Base, marks: Marks, key: ClaimKey, c: Claim)
    requires Covered(a, b, marks) && ClaimsFiled(a.records.claims) && ClaimsFiled(b.records.claims)
    requires key !in marks.keys
    ensures c in ClaimsAt(SideOf(a).byKey, key) <==> c in ClaimsAt(SideOf(b).byKey, key)
  {
    ListedClaim(a.records.claims, a.inactive, UNSCOPED, key, c);
    ListedClaim(b.records.claims, b.inactive, UNSCOPED, key, c);
    AlwaysApplies(c);
    assert c.id in b.records.claims && b.records.claims[c.id].key == key ==> SameClaim(a, b, c.id);
  }

  lemma OffMarksList(a: Base, b: Base, marks: Marks, key: ClaimKey)
    requires Covered(a, b, marks) && ClaimsFiled(a.records.claims) && ClaimsFiled(b.records.claims)
    requires key !in marks.keys
    ensures ClaimsAt(SideOf(a).byKey, key) == ClaimsAt(SideOf(b).byKey, key)
  {
    var s, t := ClaimsAt(SideOf(a).byKey, key), ClaimsAt(SideOf(b).byKey, key);
    ClaimsAtKey(a.records.claims, a.inactive, UNSCOPED, key);
    ClaimsAtKey(b.records.claims, b.inactive, UNSCOPED, key);
    hide Covered;
    hide SideOf;
    hide StrictlySorted;
    forall c: Claim ensures c in s <==> c in t {
      OffMarksListed(a, b, marks, key, c);
    }
    SameListed(s, t);
  }

  lemma SameListed(s: seq<Claim>, t: seq<Claim>)
    requires StrictlySorted(s, ClaimRank) && StrictlySorted(t, ClaimRank)
    requires forall c :: c in s <==> c in t
    ensures s == t
  {
    assert Elements(s) == Elements(t);
    StrictlySortedUnique(s, t, ClaimRank);
  }

  /** A finding depends on the facts only through what they say of the claims of its key. */
  lemma FindingFrame(key: ClaimKey, claims: map<Id, Claim>, a: Facts, b: Facts, registry: Registry)
    requires OnKey(claims, key) && forall id :: id in claims ==> SameFacts(claims[id], a, b)
    ensures FindingOf(key, claims, a, registry) == FindingOf(key, claims, b, registry)
  {
    var ps := PairSet(claims, registry);
    PairSetKnown(claims, registry);
    if ps != {} {
      CandidatesKnown(key, claims, ps);
      var candidates := ClaimsOf(claims, SortedIds(Participants(ps)));
      forall i | 0 <= i < |candidates|
        ensures SourceTypesOf(candidates[i], a) == SourceTypesOf(candidates[i], b)
                && (IsMultiHop(candidates[i], a) <==> IsMultiHop(candidates[i], b))
      {
        assert candidates[i] in candidates;
        assert SameFacts(candidates[i], a, b);
      }
      hide SameFacts;
      hide SourceTypesOf;
      hide IsMultiHop;
      hide PairSet;
      AnnotationsFrame(candidates, a, b);
    }
  }

  lemma AnnotationsFrame(claims: seq<Claim>, a: Facts, b: Facts)
    requires forall i :: 0 <= i < |claims| ==>
               SourceTypesOf(claims[i], a) == SourceTypesOf(claims[i], b) && (IsMultiHop(claims[i], a) <==> IsMultiHop(claims[i], b))
    ensures forall aggregate :: AnnotationsFor(claims, a, aggregate) == AnnotationsFor(claims, b, aggregate)
  {
    hide SourceTypesOf;
    hide IsMultiHop;
    SourceTypesFrame(claims, a, b);
    assert (exists c :: c in claims && IsMultiHop(c, a)) <==> (exists c :: c in claims && IsMultiHop(c, b));
  }

  lemma OffMarksFacts(a: Base, b: Base, marks: Marks, key: ClaimKey, listed: seq<Claim>, id: Id)
    requires Covered(a, b, marks) && ClaimsFiled(b.records.claims) && key !in marks.keys
    requires listed == ClaimsAt(SideOf(b).byKey, key) && KeyList(listed, key) && id in ByClaimId(listed)
    ensures ByClaimId(listed)[id].id == id && ByClaimId(listed)[id].key == key
    ensures SameFacts(ByClaimId(listed)[id], FactsOf(a.records), FactsOf(b.records))
  {
    ByClaimIdProperties(listed);
    var c := ByClaimId(listed)[id];
    hide ByClaimId;
    hide SameFacts;
    ListedClaim(b.records.claims, b.inactive, UNSCOPED, key, c);
  }

  lemma OffMarksKeyed(a: Base, b: Base, marks: Marks, key: ClaimKey, listed: seq<Claim>)
    requires Covered(a, b, marks) && ClaimsFiled(b.records.claims) && key !in marks.keys
    requires listed == ClaimsAt(SideOf(b).byKey, key)
    ensures OnKey(ByClaimId(listed), key)
    ensures forall id :: id in ByClaimId(listed) ==> SameFacts(ByClaimId(listed)[id], FactsOf(a.records), FactsOf(b.records))
  {
    KeyListed(b, key, listed);
    hide Covered;
    hide ByClaimId;
    hide SameFacts;
    hide KeyList;
    hide SideOf;
    forall id | id in ByClaimId(listed) ensures ByClaimId(listed)[id].id == id && ByClaimId(listed)[id].key == key
                                                && SameFacts(ByClaimId(listed)[id], FactsOf(a.records), FactsOf(b.records))
    {
      OffMarksFacts(a, b, marks, key, listed, id);
    }
  }

  lemma KeyListed(b: Base, key: ClaimKey, listed: seq<Claim>)
    requires ClaimsFiled(b.records.claims) && listed == ClaimsAt(SideOf(b).byKey, key)
    ensures KeyList(listed, key)
  {
    ClaimsAtKey(b.records.claims, b.inactive, UNSCOPED, key);
    hide ActivityOf;
    forall c: Claim | c in listed ensures c.key == key { ListedClaim(b.records.claims, b.inactive, UNSCOPED, key, c); }
  }

  lemma OffMarksFinding(a: Base, b: Base, marks: Marks, key: ClaimKey, registry: Registry)
    requires Covered(a, b, marks) && ClaimsFiled(a.records.claims) && ClaimsFiled(b.records.claims)
    requires key !in marks.keys
    ensures SideFinding(SideOf(a), key, registry) == SideFinding(SideOf(b), key, registry)
  {
    hide Covered;
    hide ByClaimId;
    hide SameFacts;
    hide ActivityOf;
    hide FindingOf;
    hide OnKey;
    OffMarksList(a, b, marks, key);
    var listed := ClaimsAt(SideOf(b).byKey, key);
    OffMarksKeyed(a, b, marks, key, listed);
    FindingFrame(key, ByClaimId(listed), FactsOf(a.records), FactsOf(b.records), registry);
  }

  lemma SidesCompatible(a: Base, b: Base, marks: Marks)
    requires Covered(a, b, marks) && ClaimsFiled(a.records.claims) && ClaimsFiled(b.records.claims)
    ensures Compatible(SideOf(a), SideOf(b)) && NoEmptyLists(SideOf(b).byKey)
  {
    ActivityLists(a.records.claims, a.inactive, UNSCOPED);
    ActivityLists(b.records.claims, b.inactive, UNSCOPED);
    forall key ensures SameClaims(ClaimsAt(SideOf(a).byKey, key), ClaimsAt(SideOf(b).byKey, key)) {
      forall c: Claim, d: Claim | c in ClaimsAt(SideOf(a).byKey, key) && d in ClaimsAt(SideOf(b).byKey, key) && c.id == d.id
        ensures c == d
      {
        ListedClaim(a.records.claims, a.inactive, UNSCOPED, key, c);
        ListedClaim(b.records.claims, b.inactive, UNSCOPED, key, d);
      }
    }
    NoEmpties(b.records.claims, b.inactive, UNSCOPED);
  }

  lemma NoEmpties(claims: map<Id, Claim>, inactive: set<Id>, w: Window)
    requires ClaimsFiled(claims)
    ensures NoEmptyLists(ActivityOf(claims, inactive, w).byKey)
  {
    var byKey, pairs := ActivityOf(claims, inactive, w).byKey, ActivePairs(claims, inactive, w);
    forall key | key in byKey ensures byKey[key] != [] {
      ClaimsAtKey(claims, inactive, w, key);
      var p :| p in pairs && p.0 == key;
      assert (key, p.1) in pairs;
      assert p.1 in byKey[key];
    }
  }

  /** Once every marked key is done, everything is as on the new side. */
  lemma MixedEnds(a: Base, b: Base, marks: Marks, registry: Registry)
    requires Covered(a, b, marks) && ClaimsFiled(a.records.claims) && ClaimsFiled(b.records.claims)
    ensures MixedLists(SideOf(a).byKey, SideOf(b).byKey, marks.keys) == SideOf(b).byKey
    ensures Mixed(SideFindings(SideOf(a), registry), SideFindings(SideOf(b), registry), marks.keys)
            == SideFindings(SideOf(b), registry)
  {
    ListsEnd(a, b, marks);
    FindingsEnd(a, b, marks, registry);
  }

  lemma ListsEnd(a: Base, b: Base, marks: Marks)
    requires Covered(a, b, marks) && ClaimsFiled(a.records.claims) && ClaimsFiled(b.records.claims)
    ensures MixedLists(SideOf(a).byKey, SideOf(b).byKey, marks.keys) == SideOf(b).byKey
  {
    var s, t := SideOf(a).byKey, SideOf(b).byKey;
    NoEmpties(a.records.claims, a.inactive, UNSCOPED);
    NoEmpties(b.records.claims, b.inactive, UNSCOPED);
    hide ActivityOf;
    hide Covered;
    hide ClaimsFiled;
    hide MixedLists;
    hide NoEmptyLists;
    forall key | key !in marks.keys ensures ClaimsAt(s, key) == ClaimsAt(t, key) {
      OffMarksList(a, b, marks, key);
    }
    MixedListsEnd(s, t, marks.keys);
  }

  lemma MixedListsEnd(s: map<ClaimKey, seq<Claim>>, t: map<ClaimKey, seq<Claim>>, keys: set<ClaimKey>)
    requires NoEmptyLists(s) && NoEmptyLists(t)
    requires forall key :: key !in keys ==> ClaimsAt(s, key) == ClaimsAt(t, key)
    ensures MixedLists(s, t, keys) == t
  {
    forall key ensures key in MixedLists(s, t, keys) <==> key in t {
      assert key !in keys ==> ClaimsAt(s, key) == ClaimsAt(t, key);
    }
    assert MixedLists(s, t, keys).Keys == t.Keys;
  }

  lemma FindingsEnd(a: Base, b: Base, marks: Marks, registry: Registry)
    requires Covered(a, b, marks) && ClaimsFiled(a.records.claims) && ClaimsFiled(b.records.claims)
    ensures Mixed(SideFindings(SideOf(a), registry), SideFindings(SideOf(b), registry), marks.keys)
            == SideFindings(SideOf(b), registry)
    ensures forall c: ConflictSet :: c.key !in marks.keys ==>
              (c in SideFindings(SideOf(a), registry) <==> c in SideFindings(SideOf(b), registry))
  {
    var s, t := SideFindings(SideOf(a), registry), SideFindings(SideOf(b), registry);
    ActivityLists(a.records.claims, a.inactive, UNSCOPED);
    ActivityLists(b.records.claims, b.inactive, UNSCOPED);
    forall c: ConflictSet | c.key !in marks.keys ensures c in s <==> c in t {
      OffMarksFinding(a, b, marks, c.key, registry);
      SideOnePerKey(SideOf(a), registry, c.key);
      SideOnePerKey(SideOf(b), registry, c.key);
      SameFinding(s, t, c, SideFinding(SideOf(a), c.key, registry));
    }
    hide SideFindings;
    assert Mixed(s, t, marks.keys) == t;
  }

  lemma SameFinding(s: set<ConflictSet>, t: set<ConflictSet>, c: ConflictSet, found: Option<ConflictSet>)
    requires OnePerKey(s) && OnePerKey(t) && IsFindingOf(s, c.key, found) && IsFindingOf(t, c.key, found)
    ensures c in s <==> c in t
  {
    if found.Some? { assert ConflictKeyOf(found.value) == ConflictKeyOf(c); }
  }
}
