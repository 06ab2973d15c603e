/** The labels of a direct finding, told by its candidates and by the records they name. */
module Labelled {
  import opened Basics
  import opened Model
  import opened Applicability
  import opened ConflictIndex
  import opened Findings
  import opened State
  import opened Tables
  import opened Reported

  ghost predicate HasKind(cs: seq<Claim>, kind: Name) { exists c :: c in cs && c.kind == kind }

  /** Beliefs alone are a matter of sources, norms alone of norms; anything else is about facts. */
  ghost predicate ClassedBy(belief: bool, instruction: bool, preference: bool, policy: bool, goal: bool, conflictClass: Name, subclass: Name) {
    var norms := instruction || preference || policy || goal;
    if belief == norms then conflictClass == "epistemic" && subclass == "factual.value"
    else if belief then conflictClass == "epistemic" && subclass == "source.belief"
    else
      conflictClass == "normative"
      && subclass == (if !preference && !policy && !goal then "instruction"
                      else if !instruction && !policy && !goal then "preference"
                      else if !instruction && !preference && !goal then "policy.rule"
                      else if !instruction && !preference && !policy then "goal"
                      else "mixed")
  }

  ghost predicate ClassedAs(cs: seq<Claim>, conflictClass: Name, subclass: Name) {
    ClassedBy(HasKind(cs, "belief"), HasKind(cs, "instruction"), HasKind(cs, "preference"), HasKind(cs, "policy"),
              HasKind(cs, "goal"), conflictClass, subclass)
  }

  /** A source type is named when some candidate cites evidence from a source of that type. */
  ghost predicate FromSourceOf(c: Claim, facts: Facts, e: Id, t: Name) {
    e in c.evidenceIds && e in facts.evidence && facts.evidence[e].sourceId.Some?
    && facts.evidence[e].sourceId.value in facts.sources && facts.sources[facts.evidence[e].sourceId.value].sourceType == t
  }

  ghost predicate Derived(c: Claim, facts: Facts) {
    c.derivationId.Some? && c.derivationId.value in facts.derivations && |facts.derivations[c.derivationId.value].inputClaimIds| >= 2
  }

  ghost predicate HoldsIn(c: Claim, t: Time, context: Context) {
    HoldsAt(c, t) && forall k :: k in c.context ==> k in context && context[k] == c.context[k]
  }

  ghost predicate AllHoldIn(cs: seq<Claim>, t: Time, context: Context) {
    forall i :: 0 <= i < |cs| ==> HoldsIn(cs[i], t, context)
  }

  ghost predicate HoldTogether(cs: seq<Claim>) { exists t: Time, context: Context :: AllHoldIn(cs, t, context) }

  /** Each value is a candidate's, none repeats an earlier one, and every candidate's is represented. */
  ghost predicate ValuesListed(values: seq<Json>, cs: seq<Claim>, predicateName: Name, rules: map<Name, Rule>) {
    && (forall v :: v in values ==> exists c :: c in cs && c.value == v)
    && (forall i, j :: 0 <= i < j < |values| ==> Differ(rules, predicateName, values[j], values[i]))
    && (forall c :: c in cs ==> c.value in values || exists i :: 0 <= i < |values| && !Differ(rules, predicateName, c.value, values[i]))
  }

  /** Everything a finding says of its candidates. */
  ghost predicate Labels(f: ConflictSet, facts: Facts, rules: map<Name, Rule>) {
    && ClassedAs(f.candidates, f.conflictClass, f.conflictSubclass)
    && (forall t :: t in f.annotations.provenance <==> exists c, e :: c in f.candidates && FromSourceOf(c, facts, e, t))
    && (f.annotations.multiHop <==> exists c :: c in f.candidates && Derived(c, facts))
    && (f.annotations.aggregate <==> !HoldTogether(f.candidates))
    && (f.annotations.representation == Numeric <==> forall c :: c in f.candidates ==> c.value.Number?)
    && (f.annotations.representation == Structured <==>
          (exists c :: c in f.candidates && !c.value.Number?) && exists c :: c in f.candidates && !c.value.Text? && !c.value.Bool?)
    && ValuesListed(f.distinctValues, f.candidates, f.key.predicateName, rules)
  }

  // ---------------------------------------------------------------- each label

  ghost function Classified(cs: seq<Claim>): set<(Name, Name)> {
    set c | c in cs && TaxonomyOfKind(c.kind).Some? :: TaxonomyOfKind(c.kind).value
  }

  lemma KindClassified(cs: seq<Claim>, kind: Name)
    requires TaxonomyOfKind(kind).Some?
    requires forall other: Name :: TaxonomyOfKind(other) == TaxonomyOfKind(kind) ==> other == kind
    ensures TaxonomyOfKind(kind).value in Classified(cs) <==> HasKind(cs, kind)
  {
    hide TaxonomyOfKind;
    if HasKind(cs, kind) {
      var c :| c in cs && c.kind == kind;
      assert c in cs && TaxonomyOfKind(c.kind).Some?;
    }
    if TaxonomyOfKind(kind).value in Classified(cs) {
      var c :| c in cs && TaxonomyOfKind(c.kind).Some? && TaxonomyOfKind(c.kind).value == TaxonomyOfKind(kind).value;
    }
  }

  lemma SubclassesDiffer()
    ensures "source.belief" != "instruction" && "source.belief" != "preference" && "source.belief" != "policy.rule" && "source.belief" != "goal"
    ensures "instruction" != "preference" && "instruction" != "policy.rule" && "instruction" != "goal"
    ensures "preference" != "policy.rule" && "preference" != "goal" && "policy.rule" != "goal" && "epistemic" != "normative"
  {
    assert "instruction"[0] != "preference"[0];
    assert "preference"[1] != "policy.rule"[1];
  }

  lemma KindsClassified(cs: seq<Claim>)
    ensures ("epistemic", "source.belief") in Classified(cs) <==> HasKind(cs, "belief")
    ensures ("normative", "instruction") in Classified(cs) <==> HasKind(cs, "instruction")
    ensures ("normative", "preference") in Classified(cs) <==> HasKind(cs, "preference")
    ensures ("normative", "policy.rule") in Classified(cs) <==> HasKind(cs, "policy")
    ensures ("normative", "goal") in Classified(cs) <==> HasKind(cs, "goal")
    ensures forall p :: p in Classified(cs) ==> AmongFive(p)
  {
    SubclassesDiffer();
    KindClassified(cs, "belief");
    KindClassified(cs, "instruction");
    KindClassified(cs, "preference");
    KindClassified(cs, "policy");
    KindClassified(cs, "goal");
  }

  lemma OnlyOne(ps: set<(Name, Name)>, x: (Name, Name))
    requires x in ps && forall p :: p in ps ==> p == x
    ensures TaxonomyAmong(ps) == x
  {
    assert ps == {x};
  }

  lemma OneClass(ps: set<(Name, Name)>, x: (Name, Name), y: (Name, Name))
    requires x in ps && y in ps && x != y && forall p :: p in ps ==> p.0 == x.0
    ensures TaxonomyAmong(ps) == (x.0, "mixed")
  {
    var classes := set p | p in ps :: p.0;
    assert classes == {x.0};
    assert x.0 in classes;
  }

  lemma SeveralClasses(ps: set<(Name, Name)>, x: (Name, Name), y: (Name, Name))
    requires x in ps && y in ps && x.0 != y.0
    ensures TaxonomyAmong(ps) == ("epistemic", "factual.value")
  {
    var classes := set p | p in ps :: p.0;
    assert x.0 in classes && y.0 in classes;
  }

  lemma NoClass(ps: set<(Name, Name)>)
    requires ps == {}
    ensures TaxonomyAmong(ps) == ("epistemic", "factual.value")
  {
  }

  /** One of the five classified kinds. */
  ghost predicate AmongFive(p: (Name, Name)) {
    p == ("epistemic", "source.belief") || p == ("normative", "instruction") || p == ("normative", "preference")
    || p == ("normative", "policy.rule") || p == ("normative", "goal")
  }

  lemma NormsAmong(ps: set<(Name, Name)>)
    requires ps != {} && ("epistemic", "source.belief") !in ps && forall p :: p in ps ==> AmongFive(p)
    ensures ClassedBy(false, ("normative", "instruction") in ps, ("normative", "preference") in ps,
                      ("normative", "policy.rule") in ps, ("normative", "goal") in ps, TaxonomyAmong(ps).0, TaxonomyAmong(ps).1)
  {
    SubclassesDiffer();
    hide TaxonomyAmong;
    var x :| x in ps;
    assert forall p :: p in ps ==> p.0 == "normative";
    if forall p :: p in ps ==> p == x {
      OnlyOne(ps, x);
    } else {
      var y :| y in ps && y != x;
      OneClass(ps, x, y);
    }
  }

  lemma BeliefAmong(ps: set<(Name, Name)>)
    requires ("epistemic", "source.belief") in ps && forall p :: p in ps ==> AmongFive(p)
    ensures ClassedBy(true, ("normative", "instruction") in ps, ("normative", "preference") in ps,
                      ("normative", "policy.rule") in ps, ("normative", "goal") in ps, TaxonomyAmong(ps).0, TaxonomyAmong(ps).1)
  {
    SubclassesDiffer();
    hide TaxonomyAmong;
    var x := ("epistemic", "source.belief");
    if forall p :: p in ps ==> p == x {
      OnlyOne(ps, x);
    } else {
      var y :| y in ps && y != x;
      SeveralClasses(ps, x, y);
    }
  }

  lemma Classes(cs: seq<Claim>)
    ensures ClassedAs(cs, TaxonomyFor(cs).0, TaxonomyFor(cs).1)
  {
    var ps := Classified(cs);
    KindsClassified(cs);
    assert TaxonomyFor(cs) == TaxonomyAmong(ps);
    hide ClassedBy;
    hide TaxonomyAmong;
    hide TaxonomyFor;
    hide Classified;
    hide HasKind;
    hide TaxonomyOfKind;
    if ps == {} {
      NoneAmong();
    } else if ("epistemic", "source.belief") in ps {
      BeliefAmong(ps);
    } else {
      NormsAmong(ps);
    }
  }

  lemma NoneAmong()
    ensures ClassedBy(false, false, false, false, false, TaxonomyAmong({}).0, TaxonomyAmong({}).1)
  {
    NoClass({});
  }

  lemma {:induction false} SourceTypesNamed(cs: seq<Claim>, facts: Facts, t: Name)
    ensures t in SourceTypes(cs, facts) <==> exists c, e :: c in cs && FromSourceOf(c, facts, e, t)
  {
    if cs != [] {
      var front, last := cs[..|cs| - 1], cs[|cs| - 1];
      assert cs == front + [last];
      SourceTypesNamed(front, facts, t);
      SourceTypeNamed(last, facts, t);
    }
  }

  lemma SourceTypeNamed(c: Claim, facts: Facts, t: Name)
    ensures t in SourceTypesOf(c, facts) <==> exists e :: FromSourceOf(c, facts, e, t)
  {
    if t in SourceTypesOf(c, facts) {
      var e :| e in c.evidenceIds && HasSource(facts, e) && SourceTypeOf(facts, e) == t;
      assert FromSourceOf(c, facts, e, t);
    }
    if exists e :: FromSourceOf(c, facts, e, t) {
      var e :| FromSourceOf(c, facts, e, t);
      assert e in c.evidenceIds && HasSource(facts, e) && SourceTypeOf(facts, e) == t;
    }
  }

  lemma AggregateTogether(cs: seq<Claim>)
    ensures Aggregate(cs) <==> !HoldTogether(cs)
  {
    AggregateMeaning(cs);
    hide Aggregate;
    if ApplyTogether(cs) {
      var t, context :| AllApplyAt(cs, t, context);
      forall i | 0 <= i < |cs| ensures HoldsIn(cs[i], t, context) {
        assert AppliesAt(cs[i], t, context);
        AppliesAtMeaning(cs[i], t, context);
      }
      assert AllHoldIn(cs, t, context);
    }
    if HoldTogether(cs) {
      var t: Time, context: Context :| AllHoldIn(cs, t, context);
      forall i | 0 <= i < |cs| ensures AppliesAt(cs[i], t, context) {
        AppliesAtMeaning(cs[i], t, context);
      }
      assert AllApplyAt(cs, t, context);
    }
  }

  lemma {:induction false} ValuesOf(predicateName: Name, cs: seq<Claim>, registry: Registry)
    ensures ValuesListed(DistinctValues(predicateName, cs, registry), cs, predicateName, registry.rules)
  {
    if cs != [] {
      var front, last := cs[..|cs| - 1], cs[|cs| - 1];
      assert cs == front + [last];
      ValuesOf(predicateName, front, registry);
      var before := DistinctValues(predicateName, front, registry);
      forall v ensures registry.ValuesEqual(predicateName, last.value, v) <==> !Differ(registry.rules, predicateName, last.value, v) {}
      hide Differ;
      hide Registry.ValuesEqual;
      NextValue(before, front, last, predicateName, registry.rules);
    }
  }

  lemma NextValue(before: seq<Json>, front: seq<Claim>, last: Claim, predicateName: Name, rules: map<Name, Rule>)
    requires ValuesListed(before, front, predicateName, rules)
    ensures (exists i :: 0 <= i < |before| && !Differ(rules, predicateName, last.value, before[i])) ==>
              ValuesListed(before, front + [last], predicateName, rules)
    ensures (forall i :: 0 <= i < |before| ==> Differ(rules, predicateName, last.value, before[i])) ==>
              ValuesListed(before + [last.value], front + [last], predicateName, rules)
  {
    hide Differ;
    var cs, after := front + [last], before + [last.value];
    assert last in cs;
    forall v | v in after ensures exists c :: c in cs && c.value == v {
      if v in before {
        var c :| c in front && c.value == v;
        assert c in cs;
      }
    }
    forall c | c in front ensures c.value in before || exists i :: 0 <= i < |before| && !Differ(rules, predicateName, c.value, before[i]) {}
    forall c, i | c in front && 0 <= i < |before| && !Differ(rules, predicateName, c.value, before[i])
      ensures !Differ(rules, predicateName, c.value, after[i])
    {
    }
    assert after[|before|] == last.value;
  }

  lemma LabelsOf(key: ClaimKey, claims: map<Id, Claim>, facts: Facts, registry: Registry)
    requires FindingOf(key, claims, facts, registry).Some? && FindingOf(key, claims, facts, registry).value.candidates != []
    ensures Labels(FindingOf(key, claims, facts, registry).value, facts, registry.rules)
  {
    FindingParts(key, claims, facts, registry);
    hide FindingOf;
    hide Labels;
    hide TaxonomyFor;
    hide AnnotationsFor;
    hide DistinctValues;
    LabelsFit(FindingOf(key, claims, facts, registry).value, facts, registry);
  }

  lemma LabelsFit(f: ConflictSet, facts: Facts, registry: Registry)
    requires f.candidates != [] && (f.conflictClass, f.conflictSubclass) == TaxonomyFor(f.candidates)
    requires f.annotations == AnnotationsFor(f.candidates, facts, Aggregate(f.candidates))
    requires f.distinctValues == DistinctValues(f.key.predicateName, f.candidates, registry)
    ensures Labels(f, facts, registry.rules)
  {
    Classes(f.candidates);
    AggregateTogether(f.candidates);
    ValuesOf(f.key.predicateName, f.candidates, registry);
    hide ClassedAs;
    hide TaxonomyFor;
    hide Aggregate;
    hide HoldTogether;
    hide ValuesListed;
    hide DistinctValues;
    hide SourceTypes;
    SourcesNamed(f.candidates, facts);
    hide FromSourceOf;
    HopsAndValues(f.candidates, facts);
    hide RepresentationOf;
    hide Derived;
    hide IsMultiHop;
  }

  lemma SourcesNamed(cs: seq<Claim>, facts: Facts)
    ensures forall t :: t in SourceTypes(cs, facts) <==> exists c, e :: c in cs && FromSourceOf(c, facts, e, t)
  {
    hide FromSourceOf;
    hide SourceTypes;
    forall t ensures t in SourceTypes(cs, facts) <==> exists c, e :: c in cs && FromSourceOf(c, facts, e, t) {
      SourceTypesNamed(cs, facts, t);
    }
  }

  lemma HopsAndValues(cs: seq<Claim>, facts: Facts)
    requires cs != []
    ensures (exists c :: c in cs && IsMultiHop(c, facts)) <==> exists c :: c in cs && Derived(c, facts)
    ensures RepresentationOf(cs) == Numeric <==> forall c :: c in cs ==> c.value.Number?
    ensures RepresentationOf(cs) == Structured <==>
              (exists c :: c in cs && !c.value.Number?) && exists c :: c in cs && !c.value.Text? && !c.value.Bool?
  {
    assert forall c :: IsMultiHop(c, facts) <==> Derived(c, facts);
  }

  lemma FindingParts(key: ClaimKey, claims: map<Id, Claim>, facts: Facts, registry: Registry)
    requires FindingOf(key, claims, facts, registry).Some?
    ensures var f := FindingOf(key, claims, facts, registry).value;
            f.key == key && (f.conflictClass, f.conflictSubclass) == TaxonomyFor(f.candidates)
            && f.annotations == AnnotationsFor(f.candidates, facts, Aggregate(f.candidates))
            && f.distinctValues == DistinctValues(key.predicateName, f.candidates, registry)
  {
    PairSetKnown(claims, registry);
    ParticipantsKnown(claims, PairSet(claims, registry));
    hide PairSet;
    hide Participants;
    hide ClaimsOf;
    hide WitnessList;
    hide TaxonomyFor;
    hide AnnotationsFor;
    hide DistinctValues;
    hide Aggregate;
  }

  /** All findings of a state are labelled by what the records say of their candidates. */
  lemma AllLabelled(byKey: map<ClaimKey, seq<Claim>>, facts: Facts, registry: Registry)
    requires ListsByKey(byKey)
    ensures forall c :: c in FindingSet(byKey, facts, registry) ==> Labels(c, facts, registry.rules)
  {
    var cs := FindingSet(byKey, facts, registry);
    FindingsInjective(byKey, byKey.Keys, facts, registry);
    AllReported(byKey, facts, registry);
    hide FindingSet;
    hide FindingOf;
    hide Labels;
    forall c | c in cs ensures Labels(c, facts, registry.rules) {
      assert Reports(c, c.key, byKey[c.key], registry.rules);
      SomeCandidate(c, c.key, byKey[c.key], facts, registry);
      LabelsOf(c.key, ByClaimId(ClaimsAt(byKey, c.key)), facts, registry);
    }
  }

  lemma SomeCandidate(f: ConflictSet, key: ClaimKey, listed: seq<Claim>, facts: Facts, registry: Registry)
    requires KeyList(listed, key) && Reports(f, key, listed, registry.rules) && FindingOf(key, ByClaimId(listed), facts, registry) == Some(f)
    ensures f.candidates != []
  {
    FindingReports(key, listed, facts, registry);
    hide FindingOf;
    hide PairsExact;
    hide CannotBoth;
    var a, b :| a in listed && b in listed && CannotBoth(a, b, registry.rules);
    assert TakesPart(a, listed, registry.rules);
  }
}
