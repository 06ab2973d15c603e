/** What a view shows of each key, told by the state's findings, lifecycle and active claims. */
module Shown {
  import opened Basics
  import opened Model
  import opened Lifecycle
  import opened Records
  import opened State
  import opened View
  import opened Reported
  import opened Labelled
  import opened LastWord
  import opened LogTables
  import opened LogHistories
  import opened LogLifecycle

  // ---------------------------------------------------------------- what is asked of a finding

  /** The lane a scope is asked on: its own once anything was said there, otherwise the global one. */
  ghost function LaneAsked(state: MemoryState, c: ConflictSet, scope: Option<Name>): Lane {
    if scope != None && (Lane(c.ref, scope) in state.histories.resolutionLanes || Lane(c.ref, scope) in state.histories.eventLanes)
    then Lane(c.ref, scope) else Lane(c.ref, None)
  }

  /** Something is committed that a suggestion may not override: an abstention, a deferral, or a
      resolution that has been reopened. */
  ghost predicate Withheld(state: MemoryState, lane: Lane) {
    lane in state.lifecycle.statuses
    && (state.lifecycle.statuses[lane] == Deferred || (state.lifecycle.statuses[lane] == Reopened && lane in state.lifecycle.active))
  }

  ghost predicate Names(resolver: Option<Resolver>, c: ConflictSet, x: Claim) {
    resolver.Some? && resolver.value(c) == Some(x.id) && x in c.candidates
  }

  ghost predicate IsCandidate(c: ConflictSet, y: Claim) { exists x :: x in c.candidates && x.id == y.id }

  ghost predicate SuggestionIs(v: Viewed, key: ClaimKey, x: Claim) { key in v.choices.provisional && v.choices.provisional[key] == x }

  ghost predicate BasisIs(v: Viewed, key: ClaimKey, basis: Basis) { key in v.choices.basis && v.choices.basis[key] == basis }

  /** A key on which a finding stands. With an effective resolution the one candidate it selects is
      selected, and none if it preserves; otherwise none, and what the resolver names is suggested
      unless something was committed that withholds it. Claims that are no candidates are compatible. */
  ghost predicate ShowsContested(v: Viewed, state: MemoryState, scope: Option<Name>, resolver: Option<Resolver>, key: ClaimKey, c: ConflictSet) {
    var lane := LaneAsked(state, c, scope);
    && (lane in state.lifecycle.effective ==>
          var r := state.lifecycle.effective[lane];
          key !in v.choices.provisional && BasisIs(v, key, ByCommitment)
          && (r.outcome == Preserve ==> key !in v.choices.selected)
          && (r.outcome != Preserve ==> key in v.choices.selected && SelectsOnly(r, c, v.choices.selected[key])))
    && (lane !in state.lifecycle.effective ==>
          key !in v.choices.selected && BasisIs(v, key, if key in v.choices.provisional then Provisional else Abstained)
          && (forall x :: SuggestionIs(v, key, x) ==> Names(resolver, c, x) && !Withheld(state, lane))
          && (!Withheld(state, lane) && (exists x :: Names(resolver, c, x)) ==> key in v.choices.provisional))
    && key in state.activity.byKey && ShowsRest(v, key, state.activity.byKey[key], c)
    && key in v.surfaced && v.surfaced[key] == c
  }

  ghost predicate ShowsRest(v: Viewed, key: ClaimKey, claims: seq<Claim>, c: ConflictSet) {
    && (key in v.choices.compatible <==> exists y :: y in claims && !IsCandidate(c, y))
    && (key in v.choices.compatible ==> forall y :: y in v.choices.compatible[key] <==> y in claims && !IsCandidate(c, y))
    && (key in v.choices.compatible && InIdOrder(claims) ==> InIdOrder(v.choices.compatible[key]))
  }

  ghost predicate InIdOrder(claims: seq<Claim>) { forall i, j :: 0 <= i < j < |claims| ==> claims[i].id.n < claims[j].id.n }

  /** No claim of the key is more confident, or as confident and later, or as late and better
      evidenced, or all that and of a greater identifier. */
  ghost predicate Unbeaten(x: Claim, claims: seq<Claim>) {
    x in claims
    && forall y :: y in claims ==>
         y.confidence < x.confidence
         || (y.confidence == x.confidence
             && (y.timestamp < x.timestamp
                 || (y.timestamp == x.timestamp
                     && (|y.evidenceIds| < |x.evidenceIds| || (|y.evidenceIds| == |x.evidenceIds| && y.id.n <= x.id.n)))))
  }

  ghost predicate OneValue(claims: seq<Claim>, key: ClaimKey, rules: map<Name, Rule>) {
    forall i :: 1 <= i < |claims| ==> !Differ(rules, key.predicateName, claims[i].value, claims[0].value)
  }

  /** A key on which none stands: with one value an unbeaten claim is selected; with several, all claims
      are kept side by side. */
  ghost predicate ShowsUncontested(v: Viewed, key: ClaimKey, claims: seq<Claim>, rules: map<Name, Rule>) {
    && key !in v.choices.provisional && key !in v.surfaced
    && (OneValue(claims, key, rules) ==>
          key in v.choices.selected && Unbeaten(v.choices.selected[key], claims) && key !in v.choices.compatible
          && BasisIs(v, key, Deterministic))
    && (!OneValue(claims, key, rules) ==>
          key !in v.choices.selected && key in v.choices.compatible && v.choices.compatible[key] == claims
          && BasisIs(v, key, Abstained))
  }

  ghost predicate ShowsNothing(v: Viewed, key: ClaimKey) {
    key !in v.choices.selected && key !in v.choices.provisional && key !in v.choices.compatible && key !in v.surfaced
    && key !in v.choices.basis
  }

  ghost predicate ShowsKey(v: Viewed, state: MemoryState, rules: map<Name, Rule>, scope: Option<Name>, resolver: Option<Resolver>, key: ClaimKey) {
    if key !in state.activity.byKey || state.activity.byKey[key] == [] then ShowsNothing(v, key)
    else if key in state.findings.byKey && state.findings.byKey[key] != [] then
      ShowsContested(v, state, scope, resolver, key, state.findings.byKey[key][0])
    else ShowsUncontested(v, key, state.activity.byKey[key], rules)
  }

  /** Every finding is direct, alone on its key, in all tables, and about listed claims. */
  ghost predicate AllDirect(state: MemoryState, cs: set<ConflictSet>) {
    && Tabled(state.findings, cs)
    && forall c :: c in cs ==> DirectHere(state, c)
  }

  ghost predicate DirectHere(state: MemoryState, c: ConflictSet) {
    c.key in state.activity.byKey && state.activity.byKey[c.key] != [] && IsDirect(c) && forall x :: x in c.candidates ==> x.key == c.key
  }

  // ---------------------------------------------------------------- one key

  lemma OneFinding(state: MemoryState, cs: set<ConflictSet>, key: ClaimKey)
    requires AllDirect(state, cs)
    ensures key in state.findings.byKey ==>
              KeyConflicts(state, key) == state.findings.byKey[key] && |state.findings.byKey[key]| == 1
              && state.findings.byKey[key][0] in cs && key in state.activity.byKey && state.activity.byKey[key] != []
    ensures key !in state.findings.byKey ==> KeyConflicts(state, key) == []
  {
    if key in state.findings.byKey {
      var c := state.findings.byKey[key][0];
      assert DirectHere(state, c);
      assert state.findings.byKey[key] == [c];
      assert [c][..0] == [] && SelectableAmong([c]) == SelectableAmong([]) + [c];
    }
  }

  lemma {:induction false} NotAmongExactly(claims: seq<Claim>, ids: set<Id>)
    ensures forall y :: y in NotAmongCandidates(claims, ids) <==> y in claims && y.id !in ids
  {
    if claims != [] {
      NotAmongExactly(claims[..|claims| - 1], ids);
      assert claims == claims[..|claims| - 1] + [claims[|claims| - 1]];
    }
  }

  lemma {:induction false} NotAmongInOrder(claims: seq<Claim>, ids: set<Id>)
    requires InIdOrder(claims)
    ensures InIdOrder(NotAmongCandidates(claims, ids))
  {
    if claims != [] {
      var front, last := claims[..|claims| - 1], claims[|claims| - 1];
      NotAmongInOrder(front, ids);
      NotAmongExactly(front, ids);
      var kept := NotAmongCandidates(front, ids);
      forall i | 0 <= i < |kept| ensures kept[i].id.n < last.id.n {
        assert kept[i] in front;
        var j :| 0 <= j < |front| && front[j] == kept[i];
        assert claims[j] == front[j];
      }
    }
  }

  lemma CandidateExactly(c: ConflictSet, y: Claim)
    ensures y.id in c.CandidateIds() <==> IsCandidate(c, y)
  {
  }

  lemma Rest(claims: seq<Claim>, c: ConflictSet)
    ensures forall y :: y in NotAmongCandidates(claims, c.CandidateIds()) <==> y in claims && !IsCandidate(c, y)
    ensures NotAmongCandidates(claims, c.CandidateIds()) != [] <==> exists y :: y in claims && !IsCandidate(c, y)
    ensures InIdOrder(claims) ==> InIdOrder(NotAmongCandidates(claims, c.CandidateIds()))
  {
    var rest := NotAmongCandidates(claims, c.CandidateIds());
    if InIdOrder(claims) { NotAmongInOrder(claims, c.CandidateIds()); }
    NotAmongExactly(claims, c.CandidateIds());
    hide NotAmongCandidates;
    forall y ensures y in rest <==> y in claims && !IsCandidate(c, y) { CandidateExactly(c, y); }
    assert rest != [] ==> rest[0] in rest;
  }

  lemma BestUnbeaten(claims: seq<Claim>)
    requires claims != []
    ensures Unbeaten(BestClaim(claims), claims)
  {
    BestClaimIsBest(claims);
    hide BestClaim;
  }

  lemma SuggestedNamed(c: ConflictSet, resolver: Option<Resolver>)
    ensures Suggested(c, resolver).Some? ==> Names(resolver, c, Suggested(c, resolver).value)
    ensures Suggested(c, resolver).None? ==> forall x :: !Names(resolver, c, x)
  {
    if resolver.Some? && resolver.value(c).Some? {
      FindClaimProperties(c.candidates, resolver.value(c).value);
      hide FindClaim;
    }
  }

  /** On a lane of a standing finding an effective resolution preserves the candidates or selects one. */
  ghost predicate Decisive(state: MemoryState, c: ConflictSet, lane: Lane) {
    lane in state.lifecycle.effective ==>
      var r := state.lifecycle.effective[lane];
      r.outcome == Preserve || exists x :: SelectsOnly(r, c, x)
  }

  lemma ChoiceWhenEffective(c: ConflictSet, r: Resolution)
    requires r.outcome == Preserve || exists x :: SelectsOnly(r, c, x)
    ensures var choice := ChoiceOf(c, r, true);
            choice.applied && (r.outcome == Preserve ==> choice.claim == None)
            && (r.outcome != Preserve ==> choice.claim.Some? && SelectsOnly(r, c, choice.claim.value))
  {
    if r.outcome != Preserve {
      var x :| SelectsOnly(r, c, x);
      assert c.CandidateIds() * r.selected == {x.id};
      FindClaimProperties(c.candidates, x.id);
    }
  }

  lemma ChoiceExactly(state: MemoryState, c: ConflictSet, scope: Option<Name>)
    requires Decisive(state, c, LaneAsked(state, c, scope))
    ensures var choice, lane := CommittedChoice(state, c, scope), LaneAsked(state, c, scope);
            (choice.applied <==> lane in state.lifecycle.effective)
            && (lane in state.lifecycle.effective ==>
                  var r := state.lifecycle.effective[lane];
                  (r.outcome == Preserve ==> choice.claim == None)
                  && (r.outcome != Preserve ==> choice.claim.Some? && SelectsOnly(r, c, choice.claim.value)))
            && (lane !in state.lifecycle.effective ==> (choice.detail.Some? <==> Withheld(state, lane)))
  {
    var lane := LaneAsked(state, c, scope);
    assert ResolutionLane(state, c, scope) == lane;
    hide LaneAsked;
    hide SelectsOnly;
    if lane in state.lifecycle.effective { ChoiceWhenEffective(c, state.lifecycle.effective[lane]); }
    else { ChoiceWhenNot(c, LookupLane(state.lifecycle.active, lane), LookupLane(state.lifecycle.statuses, lane)); }
    hide ChoiceOf;
  }

  lemma ChoiceWhenNot(c: ConflictSet, active: Option<Resolution>, status: Option<Status>)
    ensures var choice := ChoiceFrom(c, None, active, status);
            !choice.applied && (choice.detail.Some? <==> status == Some(Deferred) || (status == Some(Reopened) && active.Some?))
  {
  }

  lemma ContestedKey(v: Viewed, state: MemoryState, registry: Registry, scope: Option<Name>, resolver: Option<Resolver>,
                     key: ClaimKey, c: ConflictSet)
    requires key in state.activity.byKey && state.activity.byKey[key] != [] && KeyConflicts(state, key) == [c]
    requires Decisive(state, c, LaneAsked(state, c, scope))
    requires ViewsKey(v.choices, state, registry, scope, resolver, state.activity.byKey.Keys, key) && v.surfaced == SurfacedOf(state)
    ensures ShowsContested(v, state, scope, resolver, key, c)
  {
    ChoiceExactly(state, c, scope);
    SuggestedNamed(c, resolver);
    Rest(state.activity.byKey[key], c);
    hide KeyConflicts;
    hide CommittedChoice;
    hide Suggested;
    hide LaneAsked;
    hide NotAmongCandidates;
    hide IsCandidate;
    hide InIdOrder;
    hide SelectsOnly;
    hide Withheld;
    hide Names;
  }

  lemma UncontestedKey(v: Viewed, state: MemoryState, registry: Registry, scope: Option<Name>, resolver: Option<Resolver>, key: ClaimKey)
    requires key in state.activity.byKey && state.activity.byKey[key] != [] && KeyConflicts(state, key) == []
    requires ViewsKey(v.choices, state, registry, scope, resolver, state.activity.byKey.Keys, key) && v.surfaced == SurfacedOf(state)
    ensures ShowsUncontested(v, key, state.activity.byKey[key], registry.rules)
  {
    var claims := state.activity.byKey[key];
    BestUnbeaten(claims);
    AlternativesExactly(registry, key, claims);
    hide KeyConflicts;
    hide BestClaim;
    hide Unbeaten;
    hide OneValue;
    hide HasAlternatives;
  }

  lemma AlternativesExactly(registry: Registry, key: ClaimKey, claims: seq<Claim>)
    ensures HasAlternatives(registry, key, claims) <==> !OneValue(claims, key, registry.rules)
  {
  }

  // ---------------------------------------------------------------- the whole view

  lemma {:induction false} NothingLeft(ch: Choices, state: MemoryState, scope: Option<Name>, handled: set<ConflictSet>, conflicts: seq<ConflictSet>)
    requires forall c :: c in conflicts ==> c in handled
    ensures AfterRest(ch, state, scope, handled, conflicts) == ch
  {
    hide CommittedChoice;
    if conflicts != [] {
      NothingLeft(ch, state, scope, handled, conflicts[..|conflicts| - 1]);
    }
  }

  lemma AllHandled(state: MemoryState, cs: set<ConflictSet>, conflicts: seq<ConflictSet>)
    requires AllDirect(state, cs) && Elements(conflicts) == state.findings.byId.Values
    ensures forall c :: c in conflicts ==> c in HandledAt(state, state.activity.byKey.Keys)
  {
    forall c | c in conflicts ensures c in HandledAt(state, state.activity.byKey.Keys) {
      assert c in Elements(conflicts);
      var id :| id in state.findings.byId && state.findings.byId[id] == c;
      assert DirectHere(state, c) && TabledAt(state.findings, c);
      OneFinding(state, cs, c.key);
      hide KeyConflicts;
    }
  }

  lemma ViewOfKeys(v: Viewed, state: MemoryState, registry: Registry, scope: Option<Name>, resolver: Option<Resolver>,
                   conflicts: seq<ConflictSet>, cs: set<ConflictSet>, key: ClaimKey)
    requires IsView(v, state, registry, scope, resolver, conflicts) && Elements(conflicts) == state.findings.byId.Values
    requires AllDirect(state, cs)
    ensures ViewsKey(v.choices, state, registry, scope, resolver, state.activity.byKey.Keys, key) && v.surfaced == SurfacedOf(state)
  {
    hide ViewsKey;
    hide HandledAt;
    hide UnresolvedIn;
    hide AfterRest;
    hide SurfacedOf;
    hide AllDirect;
    var handled := HandledAt(state, state.activity.byKey.Keys);
    var ch :| ViewsKeys(ch, state, registry, scope, resolver, state.activity.byKey.Keys) && v.choices == AfterRest(ch, state, scope, handled, conflicts);
    AllHandled(state, cs, conflicts);
    NothingLeft(ch, state, scope, handled, conflicts);
  }

  lemma EmptyKey(v: Viewed, state: MemoryState, registry: Registry, scope: Option<Name>, resolver: Option<Resolver>, key: ClaimKey)
    requires ViewsKey(v.choices, state, registry, scope, resolver, state.activity.byKey.Keys, key) && v.surfaced == SurfacedOf(state)
    requires (key !in state.activity.byKey || state.activity.byKey[key] == []) && KeyConflicts(state, key) == []
    ensures ShowsNothing(v, key)
  {
    hide KeyConflicts;
    hide ViewOfKey;
  }

  /** The view of a state whose findings are direct, key by key. */
  lemma ViewExactly(v: Viewed, state: MemoryState, registry: Registry, scope: Option<Name>, resolver: Option<Resolver>,
                    conflicts: seq<ConflictSet>, cs: set<ConflictSet>, key: ClaimKey)
    requires IsView(v, state, registry, scope, resolver, conflicts) && Elements(conflicts) == state.findings.byId.Values
    requires AllDirect(state, cs) && forall c :: c in cs ==> Decisive(state, c, LaneAsked(state, c, scope))
    ensures ShowsKey(v, state, registry.rules, scope, resolver, key)
  {
    hide IsView;
    hide AllDirect;
    hide Decisive;
    hide LaneAsked;
    hide KeyConflicts;
    hide ShowsContested;
    hide ShowsUncontested;
    hide ShowsNothing;
    hide ViewsKey;
    hide SurfacedOf;
    ViewOfKeys(v, state, registry, scope, resolver, conflicts, cs, key);
    OneFinding(state, cs, key);
    if key !in state.activity.byKey || state.activity.byKey[key] == [] {
      EmptyKey(v, state, registry, scope, resolver, key);
    } else if key in state.findings.byKey {
      assert state.findings.byKey[key] == [state.findings.byKey[key][0]];
      ContestedKey(v, state, registry, scope, resolver, key, state.findings.byKey[key][0]);
    } else {
      UncontestedKey(v, state, registry, scope, resolver, key);
    }
  }

  // ---------------------------------------------------------------- the view of a log

  lemma StateDirect(log: set<Op>, registry: Registry, w: Window) returns (cs: set<ConflictSet>)
    requires CollisionFree(log)
    ensures AllDirect(StateOf(log, registry, w), cs)
  {
    cs := FindingsExactly(log, registry, w);
    var s := StateOf(log, registry, w);
    hide StateOf;
    hide Labels;
    hide Tabled;
    hide CollisionFree;
    forall c | c in cs ensures DirectHere(s, c) {
      ActiveExactly(log, registry, w, c.key);
      ReportedDirect(s, cs, registry.rules, c);
    }
    hide DirectHere;
    hide ReportsAll;
  }

  lemma ReportedDirect(s: MemoryState, cs: set<ConflictSet>, rules: map<Name, Rule>, c: ConflictSet)
    requires ReportsAll(cs, s.activity.byKey, rules) && c in cs && InOrder(s.activity.byKey, c.key)
    requires forall x :: ListedOn(s.activity.byKey, c.key, x) ==> x.key == c.key
    ensures DirectHere(s, c)
  {
    hide PairsExact;
    hide AnyClash;
    forall x | x in c.candidates ensures x.key == c.key {
      assert TakesPart(x, s.activity.byKey[c.key], rules);
      assert ListedOn(s.activity.byKey, c.key, x);
    }
  }

  lemma StateDecisive(log: set<Op>, registry: Registry, w: Window, cs: set<ConflictSet>, c: ConflictSet, lane: Lane)
    requires CollisionFree(log) && AllDirect(StateOf(log, registry, w), cs) && c in cs && lane.ref == c.ref
    ensures Decisive(StateOf(log, registry, w), c, lane)
  {
    var s := StateOf(log, registry, w);
    if lane in s.lifecycle.effective {
      LifecycleFolded(log, registry, w);
      LaneLists(log, registry, w, lane);
      hide StateOf;
      hide InputsOf;
      hide FoldOf;
      hide CollisionFree;
      EffectiveActive(InputsOf(log, registry, w), lane);
      assert TabledAt(s.findings, c);
      hide Tabled;
      hide DirectHere;
      ActiveSettles(log, registry, w, lane, s.lifecycle.active[lane]);
    }
  }

  lemma EffectiveActive(inputs: Inputs, lane: Lane)
    requires lane in FoldOf(inputs).effective
    ensures lane in FoldOf(inputs).active
  {
    FoldMatches(inputs, lane);
    hide FoldOf;
    hide LaneReplay;
  }

  /** The view of any log, in any scope and window and with any resolver, key by key. */
  lemma ViewOfLogExactly(v: Viewed, log: set<Op>, registry: Registry, w: Window, scope: Option<Name>, resolver: Option<Resolver>,
                         conflicts: seq<ConflictSet>, key: ClaimKey)
    requires CollisionFree(log)
    requires var s := StateOf(log, registry, w);
             IsView(v, s, registry, scope, resolver, conflicts) && Elements(conflicts) == s.findings.byId.Values
    ensures ShowsKey(v, StateOf(log, registry, w), registry.rules, scope, resolver, key)
  {
    var s := StateOf(log, registry, w);
    hide StateOf;
    hide CollisionFree;
    hide IsView;
    hide ShowsKey;
    hide AllDirect;
    hide Decisive;
    var cs := StateDirect(log, registry, w);
    forall c | c in cs ensures Decisive(s, c, LaneAsked(s, c, scope)) {
      StateDecisive(log, registry, w, cs, c, LaneAsked(s, c, scope));
    }
    hide LaneAsked;
    ViewExactly(v, s, registry, scope, resolver, conflicts, cs, key);
  }

  /** Unresolved are exactly the standing findings without an effective resolution on the lane asked. */
  lemma UnresolvedOfLog(v: Viewed, log: set<Op>, registry: Registry, w: Window, scope: Option<Name>, resolver: Option<Resolver>,
                        conflicts: seq<ConflictSet>, c: ConflictSet)
    requires CollisionFree(log)
    requires var s := StateOf(log, registry, w);
             IsView(v, s, registry, scope, resolver, conflicts) && Elements(conflicts) == s.findings.byId.Values
    ensures var s := StateOf(log, registry, w);
            c in v.unresolved <==> c in s.findings.byId.Values && LaneAsked(s, c, scope) !in s.lifecycle.effective
  {
    var s := StateOf(log, registry, w);
    hide StateOf;
    hide CollisionFree;
    hide Decisive;
    var cs := StateDirect(log, registry, w);
    FindingsAre(s, cs, c);
    hide AllDirect;
    UnresolvedAre(v, s, registry, scope, resolver, conflicts, c);
    hide IsView;
    if c in HandledAt(s, s.activity.byKey.Keys) { HandledStand(s, cs, c); }
    if c in cs {
      StateDecisive(log, registry, w, cs, c, LaneAsked(s, c, scope));
      ChoiceExactly(s, c, scope);
    }
    hide LaneAsked;
    hide CommittedChoice;
    hide HandledAt;
  }

  lemma FindingsAre(s: MemoryState, cs: set<ConflictSet>, c: ConflictSet)
    requires AllDirect(s, cs)
    ensures c in cs <==> c in s.findings.byId.Values
  {
    hide DirectHere;
    if c in cs { assert TabledAt(s.findings, c); }
  }

  lemma UnresolvedAre(v: Viewed, s: MemoryState, registry: Registry, scope: Option<Name>, resolver: Option<Resolver>,
                      conflicts: seq<ConflictSet>, c: ConflictSet)
    requires IsView(v, s, registry, scope, resolver, conflicts) && Elements(conflicts) == s.findings.byId.Values
    ensures c in v.unresolved <==>
              (c in s.findings.byId.Values || c in HandledAt(s, s.activity.byKey.Keys)) && !CommittedChoice(s, c, scope).applied
  {
    hide ViewsKeys;
    hide HandledAt;
    hide CommittedChoice;
  }

  lemma HandledStand(s: MemoryState, cs: set<ConflictSet>, c: ConflictSet)
    requires AllDirect(s, cs) && c in HandledAt(s, s.activity.byKey.Keys)
    ensures c in cs
  {
    var key :| key in s.activity.byKey && KeyConflicts(s, key) != [] && KeyConflicts(s, key)[0] == c;
    OneFinding(s, cs, key);
    hide KeyConflicts;
  }

  // ---------------------------------------------------------------- rejected candidates

  /** The view holds a claim: selected, suggested, or kept among the compatible ones. */
  ghost predicate Holds(ch: Choices, x: Claim) {
    (x.key in ch.selected && ch.selected[x.key] == x) || (x.key in ch.provisional && ch.provisional[x.key] == x) || KeptAside(ch, x)
  }

  ghost predicate KeptAside(ch: Choices, x: Claim) { x.key in ch.compatible && x in ch.compatible[x.key] }

  lemma {:induction false} OthersExactly(claims: seq<Claim>, c: Claim)
    ensures forall y :: y in Others(claims, c) <==> y in claims && y != c
  {
    if claims != [] {
      OthersExactly(claims[..|claims| - 1], c);
      assert claims == claims[..|claims| - 1] + [claims[|claims| - 1]];
    }
  }

  lemma Unselected(ch: Choices, c: Claim, x: Claim)
    ensures var b := Unselect(ch, c);
            b.compatible == ch.compatible && Unpicked(b, c) && (x != c ==> (Holds(b, x) <==> Holds(ch, x))) && (Holds(b, x) ==> Holds(ch, x))
  {
  }

  ghost predicate Unpicked(b: Choices, c: Claim) {
    !(c.key in b.selected && b.selected[c.key] == c) && !(c.key in b.provisional && b.provisional[c.key] == c)
  }

  lemma LeftSame(b: Choices, key: ClaimKey, remaining: seq<Claim>, x: Claim)
    requires x.key != key
    ensures Holds(LeftWith(b, key, remaining), x) <==> Holds(b, x)
  {
  }

  lemma LeftOnKey(b: Choices, c: Claim, remaining: seq<Claim>, x: Claim)
    requires c.key in b.compatible && x.key == c.key && Unpicked(b, c)
    requires forall y :: y in remaining <==> y in b.compatible[c.key] && y != c
    ensures var d := LeftWith(b, c.key, remaining);
            (x == c ==> !Holds(d, x)) && (Holds(d, x) ==> Holds(b, x)) && (x != c && KeptAside(b, x) ==> Holds(d, x))
  {
    if |remaining| == 1 {
      assert remaining[0] in remaining;
      assert x in remaining ==> x == remaining[0];
    }
  }

  lemma Removed(b: Choices, c: Claim, x: Claim)
    requires c.key in b.compatible && c in b.compatible[c.key] && Unpicked(b, c)
    ensures var d := LeftWith(b, c.key, Others(b.compatible[c.key], c));
            !Holds(d, c) && (Holds(d, x) ==> Holds(b, x)) && (x != c && KeptAside(b, x) ==> Holds(d, x))
            && (x.key != c.key ==> (Holds(d, x) <==> Holds(b, x)))
  {
    OthersExactly(b.compatible[c.key], c);
    var rest := Others(b.compatible[c.key], c);
    hide Others;
    hide Holds;
    hide KeptAside;
    hide LeftWith;
    hide Unpicked;
    assert forall y :: y in rest <==> y in b.compatible[c.key] && y != c;
    LeftOnKey(b, c, rest, c);
    if x.key == c.key { LeftOnKey(b, c, rest, x); } else { LeftSame(b, c.key, rest, x); AsideIsHeld(b, x); }
  }

  lemma NotHeld(b: Choices, c: Claim)
    requires Unpicked(b, c) && !(c.key in b.compatible && c in b.compatible[c.key])
    ensures !Holds(b, c)
  {
  }

  lemma AsideIsHeld(b: Choices, x: Claim)
    ensures KeptAside(b, x) ==> Holds(b, x)
  {
  }

  /** Excluding a claim withdraws it, invents nothing, drops no other compatible claim and leaves other
      keys alone. */
  lemma ExcludeExactly(ch: Choices, c: Claim, x: Claim)
    ensures !Holds(Exclude(ch, c), c)
    ensures Holds(Exclude(ch, c), x) ==> Holds(ch, x)
    ensures x != c && KeptAside(ch, x) ==> Holds(Exclude(ch, c), x)
    ensures x.key != c.key ==> (Holds(Exclude(ch, c), x) <==> Holds(ch, x))
  {
    var b := Unselect(ch, c);
    Unselected(ch, c, x);
    Unselected(ch, c, c);
    hide Unselect;
    AsideIsHeld(ch, x);
    if c.key in b.compatible && c in b.compatible[c.key] {
      Removed(b, c, x);
    } else {
      NotHeld(b, c);
    }
    hide LeftWith;
    hide Holds;
  }

  lemma {:induction false} AllExcluded(ch: Choices, candidates: seq<Claim>, rejected: set<Id>, x: Claim)
    ensures x in candidates && x.id in rejected ==> !Holds(ExcludeAll(ch, candidates, rejected), x)
    ensures Holds(ExcludeAll(ch, candidates, rejected), x) ==> Holds(ch, x)
  {
    hide Exclude;
    hide Holds;
    if candidates != [] {
      var front, last := candidates[..|candidates| - 1], candidates[|candidates| - 1];
      assert candidates == front + [last];
      AllExcluded(ch, front, rejected, x);
      ExcludeExactly(ExcludeAll(ch, front, rejected), last, x);
    }
  }

  /** A finding outside the loop over keys whose effective resolution chooses a candidate. */
  ghost predicate Chosen(state: MemoryState, scope: Option<Name>, handled: set<ConflictSet>, c: ConflictSet) {
    c !in handled && LaneAsked(state, c, scope) in state.lifecycle.effective
    && var r := state.lifecycle.effective[LaneAsked(state, c, scope)]; r.outcome != Preserve && exists x :: SelectsOnly(r, c, x)
  }

  lemma RestStep(ch: Choices, state: MemoryState, scope: Option<Name>, handled: set<ConflictSet>, c: ConflictSet)
    requires Chosen(state, scope, handled, c)
    ensures AfterRest(ch, state, scope, handled, [c])
            == ExcludeAll(ch, c.candidates, state.lifecycle.effective[LaneAsked(state, c, scope)].rejected)
  {
    assert ResolutionLane(state, c, scope) == LaneAsked(state, c, scope);
    assert Decisive(state, c, LaneAsked(state, c, scope));
    ChoiceExactly(state, c, scope);
    hide CommittedChoice;
    hide LaneAsked;
    hide SelectsOnly;
    assert [c][..0] == [];
    assert AfterRest(ch, state, scope, handled, []) == ch;
  }

  lemma LastOfRest(ch: Choices, state: MemoryState, scope: Option<Name>, handled: set<ConflictSet>, front: seq<ConflictSet>, c: ConflictSet)
    ensures AfterRest(ch, state, scope, handled, front + [c]) == AfterRest(AfterRest(ch, state, scope, handled, front), state, scope, handled, [c])
  {
    hide CommittedChoice;
    hide ExcludeAll;
    assert (front + [c])[..|front|] == front;
    assert [c][..0] == [];
  }

  lemma StepInvents(ch: Choices, state: MemoryState, scope: Option<Name>, handled: set<ConflictSet>, c: ConflictSet, x: Claim)
    ensures Holds(AfterRest(ch, state, scope, handled, [c]), x) ==> Holds(ch, x)
  {
    hide CommittedChoice;
    hide Holds;
    assert [c][..0] == [];
    assert AfterRest(ch, state, scope, handled, []) == ch;
    AllExcluded(ch, c.candidates, RejectedBy(state, c, scope), x);
    hide ExcludeAll;
  }

  /** The loop over the remaining findings withdraws every candidate that an effective choice rejects,
      wherever the view held it, and holds nothing that it did not hold before. */
  lemma {:induction false} RejectedWithdrawn(ch: Choices, state: MemoryState, scope: Option<Name>, handled: set<ConflictSet>,
                                             conflicts: seq<ConflictSet>, x: Claim)
    ensures Holds(AfterRest(ch, state, scope, handled, conflicts), x) ==> Holds(ch, x)
    ensures forall c :: c in conflicts && Chosen(state, scope, handled, c) && x in c.candidates
                        && x.id in state.lifecycle.effective[LaneAsked(state, c, scope)].rejected ==>
              !Holds(AfterRest(ch, state, scope, handled, conflicts), x)
  {
    if conflicts == [] { return; }
    var front, last := conflicts[..|conflicts| - 1], conflicts[|conflicts| - 1];
    assert conflicts == front + [last];
    RejectedWithdrawn(ch, state, scope, handled, front, x);
    LastOfRest(ch, state, scope, handled, front, last);
    var before := AfterRest(ch, state, scope, handled, front);
    StepInvents(before, state, scope, handled, last, x);
    if Chosen(state, scope, handled, last) {
      RestStep(before, state, scope, handled, last);
      AllExcluded(before, last.candidates, state.lifecycle.effective[LaneAsked(state, last, scope)].rejected, x);
    }
    hide Holds;
    hide AfterRest;
    hide ExcludeAll;
    hide LaneAsked;
    hide SelectsOnly;
  }
}
