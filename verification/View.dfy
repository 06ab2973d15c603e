/** `build_view`: what is selected, suggested, kept apart and left unresolved, given the committed
    resolutions of one scope. */
module View {
  import opened Basics
  import opened Model
  import opened Lifecycle
  import opened State
  import opened Refresh

  datatype Detail =
    | Applied(resolution: Id, outcome: Outcome)
    | AbstainedBy(resolution: Id)
    | IsDeferred
    | Stale(resolution: Id, uncovered: set<Id>, selectedCount: nat)

  datatype Committed = Committed(claim: Option<Claim>, detail: Option<Detail>, applied: bool)

  datatype Basis = Deterministic | ByCommitment | Provisional | Abstained

  /** What the view says of one key of active claims. */
  datatype KeyView = KeyView(selected: Option<Claim>, provisional: Option<Claim>, basis: Basis, compatible: seq<Claim>)

  datatype Choices = Choices(
    selected: map<ClaimKey, Claim>, provisional: map<ClaimKey, Claim>, basis: map<ClaimKey, Basis>,
    compatible: map<ClaimKey, seq<Claim>>)

  datatype Viewed = Viewed(choices: Choices, unresolved: set<ConflictSet>, surfaced: map<ClaimKey, ConflictSet>)

  /** A resolver asked about one finding: the claim it would choose, if any. */
  type Resolver = ConflictSet -> Option<Id>

  // ---------------------------------------------------------------- committed resolutions

  /** `_resolution_lane`: the exact scope once it has any history, the global lane otherwise. */
  function ResolutionLane(state: MemoryState, c: ConflictSet, scope: Option<Name>): Lane {
    if scope.Some?
       && (Lane(c.ref, scope) in state.histories.resolutionLanes || Lane(c.ref, scope) in state.histories.eventLanes)
    then Lane(c.ref, scope) else Lane(c.ref, None)
  }

  function LookupLane<T>(m: map<Lane, T>, lane: Lane): Option<T> { if lane in m then Some(m[lane]) else None }

  function CandidateAt(c: ConflictSet, id: Id): Option<Claim> { FindClaim(c.candidates, id) }

  function FindClaim(claims: seq<Claim>, id: Id): Option<Claim> {
    if claims == [] then None
    else if claims[|claims| - 1].id == id then Some(claims[|claims| - 1])
    else FindClaim(claims[..|claims| - 1], id)
  }

  /** `_committed_choice`: what the resolution of the scope's lane commits to for a finding. */
  function CommittedChoice(state: MemoryState, c: ConflictSet, scope: Option<Name>): Committed {
    var lane := ResolutionLane(state, c, scope);
    ChoiceFrom(c, LookupLane(state.lifecycle.effective, lane), LookupLane(state.lifecycle.active, lane),
               LookupLane(state.lifecycle.statuses, lane))
  }

  function ChoiceFrom(c: ConflictSet, effective: Option<Resolution>, active: Option<Resolution>, status: Option<Status>): Committed {
    if effective.Some? then ChoiceOf(c, effective.value, true)
    else if status == Some(Deferred) then
      Committed(None, Some(if active.Some? && active.value.outcome.Abstain? then AbstainedBy(active.value.id) else IsDeferred), false)
    else if active.None? || status != Some(Reopened) then Committed(None, None, false)
    else ChoiceOf(c, active.value, false)
  }

  function ChoiceOf(c: ConflictSet, r: Resolution, isEffective: bool): Committed {
    var uncovered := c.CandidateIds() - r.Classified();
    var selected := c.CandidateIds() * r.selected;
    if isEffective && r.outcome.Preserve? then Committed(None, Some(Applied(r.id, r.outcome)), true)
    else if isEffective && |selected| == 1 then
      Committed(CandidateAt(c, Minimum(selected)), Some(Applied(r.id, r.outcome)), true)
    else if !isEffective || uncovered != {} || |selected| != 1 then
      Committed(None, Some(Stale(r.id, uncovered, |selected|)), false)
    else Committed(None, None, false)
  }

  lemma {:induction false} FindClaimProperties(claims: seq<Claim>, id: Id)
    ensures FindClaim(claims, id).Some? ==> FindClaim(claims, id).value in claims && FindClaim(claims, id).value.id == id
    ensures FindClaim(claims, id).None? <==> forall c :: c in claims ==> c.id != id
  {
    if claims != [] {
      FindClaimProperties(claims[..|claims| - 1], id);
      assert claims == claims[..|claims| - 1] + [claims[|claims| - 1]];
    }
  }

  /** On a lane folded by materialization, a choice is applied exactly when a resolution is
      effective there, that is when the lane's status is resolved; a claim is then chosen exactly
      when the resolution does not preserve, and it is a candidate the resolution selects. */
  lemma AppliedMeansResolved(state: MemoryState, c: ConflictSet, scope: Option<Name>, inputs: Inputs)
    requires state.lifecycle == FoldOf(inputs) && c.ref in inputs.conflicts && inputs.conflicts[c.ref] == c
    ensures var lane, choice := ResolutionLane(state, c, scope), CommittedChoice(state, c, scope);
            (choice.applied <==> lane in state.lifecycle.effective)
            && (choice.applied <==> lane in state.lifecycle.statuses && state.lifecycle.statuses[lane] == Resolved)
            && (choice.applied ==>
                  var r := state.lifecycle.effective[lane];
                  (choice.claim.None? <==> r.outcome.Preserve?)
                  && (choice.claim.Some? ==> choice.claim.value in c.candidates && choice.claim.value.id in r.selected))
  {
    var lane := ResolutionLane(state, c, scope);
    assert lane.ref == c.ref;
    ResolvedIff(inputs, lane);
    if lane in state.lifecycle.effective { EffectiveTakes(inputs, lane); }
    hide FoldOf;
    hide TakesEffect;
    hide ChoiceFrom;
    ChoiceApplied(c, LookupLane(state.lifecycle.effective, lane), LookupLane(state.lifecycle.active, lane),
                  LookupLane(state.lifecycle.statuses, lane));
  }

  lemma ChoiceApplied(c: ConflictSet, effective: Option<Resolution>, active: Option<Resolution>, status: Option<Status>)
    requires effective.Some? ==> TakesEffect(effective.value, c)
    ensures var choice := ChoiceFrom(c, effective, active, status);
            (choice.applied <==> effective.Some?)
            && (choice.applied ==>
                  (choice.claim.None? <==> effective.value.outcome.Preserve?)
                  && (choice.claim.Some? ==> choice.claim.value in c.candidates && choice.claim.value.id in effective.value.selected))
  {
    if effective.Some? { EffectiveChoice(c, effective.value); }
  }

  lemma ResolvedIff(inputs: Inputs, lane: Lane)
    requires lane.ref in inputs.conflicts
    ensures var f := FoldOf(inputs); (lane in f.statuses && f.statuses[lane] == Resolved) <==> lane in f.effective
  {
    ResolvedMeansEffective(inputs, lane);
  }

  lemma EffectiveTakes(inputs: Inputs, lane: Lane)
    requires lane.ref in inputs.conflicts && lane in FoldOf(inputs).effective
    ensures TakesEffect(FoldOf(inputs).effective[lane], inputs.conflicts[lane.ref])
  {
    FoldMatches(inputs, lane);
  }

  lemma EffectiveChoice(c: ConflictSet, r: Resolution)
    requires TakesEffect(r, c)
    ensures var choice := ChoiceOf(c, r, true);
            choice.applied && (choice.claim.None? <==> r.outcome.Preserve?)
            && (choice.claim.Some? ==> choice.claim.value in c.candidates && choice.claim.value.id in r.selected)
  {
    var selected := c.CandidateIds() * r.selected;
    if !r.outcome.Preserve? {
      assert |selected| == 1;
      FindClaimProperties(c.candidates, Minimum(selected));
      var x :| x in c.candidates && x.id == Minimum(selected);
    }
  }

  // ---------------------------------------------------------------- one key

  predicate Better(a: Claim, b: Claim) {
    a.confidence > b.confidence
    || (a.confidence == b.confidence
        && (a.timestamp > b.timestamp
            || (a.timestamp == b.timestamp
                && (|a.evidenceIds| > |b.evidenceIds| || (|a.evidenceIds| == |b.evidenceIds| && a.id.n > b.id.n)))))
  }

  /** `_deterministic_claim_choice` */
  function BestClaim(claims: seq<Claim>): Claim
    requires claims != []
  {
    if |claims| == 1 then claims[0]
    else
      var front, last := BestClaim(claims[..|claims| - 1]), claims[|claims| - 1];
      if Better(last, front) then last else front
  }

  lemma {:induction false} BestClaimIsBest(claims: seq<Claim>)
    requires claims != []
    ensures BestClaim(claims) in claims && forall c :: c in claims ==> !Better(c, BestClaim(claims))
  {
    if |claims| > 1 {
      BestClaimIsBest(claims[..|claims| - 1]);
      assert claims == claims[..|claims| - 1] + [claims[|claims| - 1]];
    }
  }

  /** `_is_selectable_conflict` */
  predicate IsSelectable(c: ConflictSet) {
    c.conflictType == DIRECT_CONFLICT_TYPE && c.keys == {c.key} && forall x :: x in c.candidates ==> x.key == c.key
  }

  function SelectableAmong(cs: seq<ConflictSet>): seq<ConflictSet> {
    if cs == [] then []
    else SelectableAmong(cs[..|cs| - 1]) + if IsSelectable(cs[|cs| - 1]) then [cs[|cs| - 1]] else []
  }

  function KeyConflicts(state: MemoryState, key: ClaimKey): seq<ConflictSet> {
    SelectableAmong(FindingsUnder(state.findings, key))
  }

  function NotAmongCandidates(claims: seq<Claim>, ids: set<Id>): seq<Claim> {
    if claims == [] then []
    else NotAmongCandidates(claims[..|claims| - 1], ids)
         + if claims[|claims| - 1].id !in ids then [claims[|claims| - 1]] else []
  }

  predicate HasAlternatives(registry: Registry, key: ClaimKey, claims: seq<Claim>) {
    |claims| > 1 && exists i :: 1 <= i < |claims| && !registry.ValuesEqual(key.predicateName, claims[i].value, claims[0].value)
  }

  function Suggested(c: ConflictSet, resolver: Option<Resolver>): Option<Claim> {
    if resolver.None? || resolver.value(c).None? then None else CandidateAt(c, resolver.value(c).value)
  }

  /** The body of the loop over keys. */
  function ViewOfKey(state: MemoryState, registry: Registry, scope: Option<Name>, resolver: Option<Resolver>, key: ClaimKey, claims: seq<Claim>)
    : KeyView
    requires claims != []
  {
    var conflicts := KeyConflicts(state, key);
    if conflicts == [] then
      if HasAlternatives(registry, key, claims) then KeyView(None, None, Abstained, claims)
      else KeyView(Some(BestClaim(claims)), None, Deterministic, [])
    else
      var c := conflicts[0];
      var compatible := NotAmongCandidates(claims, c.CandidateIds());
      var committed := CommittedChoice(state, c, scope);
      if committed.applied then KeyView(committed.claim, None, ByCommitment, compatible)
      else if committed.detail.Some? || Suggested(c, resolver).None? then KeyView(None, None, Abstained, compatible)
      else KeyView(None, Suggested(c, resolver), Provisional, compatible)
  }

  function AddKey(ch: Choices, key: ClaimKey, v: KeyView): Choices {
    Choices(
      if v.selected.Some? then ch.selected[key := v.selected.value] else ch.selected,
      if v.provisional.Some? then ch.provisional[key := v.provisional.value] else ch.provisional,
      ch.basis[key := v.basis],
      if v.compatible != [] then ch.compatible[key := v.compatible] else ch.compatible)
  }

  /** What the loop over keys leaves, key by key. */
  ghost predicate ViewsKeys(ch: Choices, state: MemoryState, registry: Registry, scope: Option<Name>, resolver: Option<Resolver>,
                            done: set<ClaimKey>)
  {
    forall key :: ViewsKey(ch, state, registry, scope, resolver, done, key)
  }

  ghost predicate ViewsKey(ch: Choices, state: MemoryState, registry: Registry, scope: Option<Name>, resolver: Option<Resolver>,
                           done: set<ClaimKey>, key: ClaimKey)
  {
    if key in done && key in state.activity.byKey && state.activity.byKey[key] != [] then
      var v := ViewOfKey(state, registry, scope, resolver, key, state.activity.byKey[key]);
      key in ch.basis && ch.basis[key] == v.basis
      && (key in ch.selected <==> v.selected.Some?) && (key in ch.selected ==> Some(ch.selected[key]) == v.selected)
      && (key in ch.provisional <==> v.provisional.Some?) && (key in ch.provisional ==> Some(ch.provisional[key]) == v.provisional)
      && (key in ch.compatible <==> v.compatible != []) && (key in ch.compatible ==> ch.compatible[key] == v.compatible)
    else key !in ch.basis && key !in ch.selected && key !in ch.provisional && key !in ch.compatible
  }

  lemma NextKey(ch: Choices, state: MemoryState, registry: Registry, scope: Option<Name>, resolver: Option<Resolver>,
                done: set<ClaimKey>, key: ClaimKey)
    requires ViewsKeys(ch, state, registry, scope, resolver, done) && key !in done
    requires key in state.activity.byKey && state.activity.byKey[key] != []
    ensures ViewsKeys(AddKey(ch, key, ViewOfKey(state, registry, scope, resolver, key, state.activity.byKey[key])),
                      state, registry, scope, resolver, done + {key})
  {
    var v := ViewOfKey(state, registry, scope, resolver, key, state.activity.byKey[key]);
    forall k ensures ViewsKey(AddKey(ch, key, v), state, registry, scope, resolver, done + {key}, k) {
      NextKeyAt(ch, state, registry, scope, resolver, done, key, k);
    }
    hide ViewsKey;
  }

  lemma NextKeyAt(ch: Choices, state: MemoryState, registry: Registry, scope: Option<Name>, resolver: Option<Resolver>,
                  done: set<ClaimKey>, key: ClaimKey, k: ClaimKey)
    requires ViewsKey(ch, state, registry, scope, resolver, done, key) && ViewsKey(ch, state, registry, scope, resolver, done, k)
    requires key !in done && key in state.activity.byKey && state.activity.byKey[key] != []
    ensures ViewsKey(AddKey(ch, key, ViewOfKey(state, registry, scope, resolver, key, state.activity.byKey[key])),
                     state, registry, scope, resolver, done + {key}, k)
  {
    hide ViewOfKey;
  }

  /** The findings the loop over keys deals with. */
  ghost function HandledAt(state: MemoryState, keys: set<ClaimKey>): set<ConflictSet> {
    set key | key in keys && key in state.activity.byKey && KeyConflicts(state, key) != [] :: KeyConflicts(state, key)[0]
  }

  ghost function UnresolvedIn(state: MemoryState, scope: Option<Name>, cs: set<ConflictSet>): set<ConflictSet> {
    set c | c in cs && !CommittedChoice(state, c, scope).applied
  }

  lemma HandledStep(state: MemoryState, scope: Option<Name>, keys: set<ClaimKey>, key: ClaimKey)
    requires key in state.activity.byKey
    ensures var conflicts := KeyConflicts(state, key);
            HandledAt(state, keys + {key}) == HandledAt(state, keys) + (if conflicts != [] then {conflicts[0]} else {})
            && UnresolvedIn(state, scope, HandledAt(state, keys + {key}))
               == UnresolvedIn(state, scope, HandledAt(state, keys))
                  + if conflicts != [] && !CommittedChoice(state, conflicts[0], scope).applied then {conflicts[0]} else {}
  {
    hide CommittedChoice;
    hide KeyConflicts;
  }

  /** `for key in sorted(state.active_claims_by_key)` */
  method ViewKeys(state: MemoryState, registry: Registry, scope: Option<Name>, resolver: Option<Resolver>)
    returns (ch: Choices, handled: set<ConflictSet>, unresolved: set<ConflictSet>)
    requires NoEmptyLists(state.activity.byKey)
    ensures ViewsKeys(ch, state, registry, scope, resolver, state.activity.byKey.Keys)
    ensures handled == HandledAt(state, state.activity.byKey.Keys)
    ensures unresolved == UnresolvedIn(state, scope, handled)
  {
    ch, handled, unresolved := Choices(map[], map[], map[], map[]), {}, {};
    var todo := state.activity.byKey.Keys;
    ghost var done: set<ClaimKey> := {};
    NothingViewed(state, registry, scope, resolver);
    hide ViewsKeys;
    hide HandledAt;
    hide UnresolvedIn;
    hide CommittedChoice;
    hide KeyConflicts;
    hide ViewOfKey;
    hide AddKey;
    while todo != {}
      invariant done + todo == state.activity.byKey.Keys && done * todo == {}
      invariant ViewsKeys(ch, state, registry, scope, resolver, done)
      invariant handled == HandledAt(state, done) && unresolved == UnresolvedIn(state, scope, handled)
      decreases |todo|
    {
      var _ := Inhabited(todo);
      var key :| key in todo;
      HandledStep(state, scope, done, key);
      NextKey(ch, state, registry, scope, resolver, done, key);
      var conflicts := KeyConflicts(state, key);
      if conflicts != [] {
        handled := handled + {conflicts[0]};
        if !CommittedChoice(state, conflicts[0], scope).applied { unresolved := unresolved + {conflicts[0]}; }
      }
      ch := AddKey(ch, key, ViewOfKey(state, registry, scope, resolver, key, state.activity.byKey[key]));
      done, todo := done + {key}, todo - {key};
    }
    assert done == state.activity.byKey.Keys;
  }

  lemma NothingViewed(state: MemoryState, registry: Registry, scope: Option<Name>, resolver: Option<Resolver>)
    ensures ViewsKeys(Choices(map[], map[], map[], map[]), state, registry, scope, resolver, {})
    ensures HandledAt(state, {}) == {} && UnresolvedIn(state, scope, {}) == {}
  {
  }

  // ---------------------------------------------------------------- findings over several keys

  function Others(claims: seq<Claim>, c: Claim): seq<Claim> {
    if claims == [] then []
    else Others(claims[..|claims| - 1], c) + if claims[|claims| - 1] != c then [claims[|claims| - 1]] else []
  }

  /** Withdrawing a claim from what is selected and suggested. */
  function Unselect(ch: Choices, c: Claim): Choices {
    var a := if c.key in ch.selected && ch.selected[c.key] == c
             then ch.(selected := ch.selected - {c.key}, basis := ch.basis[c.key := ByCommitment]) else ch;
    if c.key in a.provisional && a.provisional[c.key] == c
    then a.(provisional := a.provisional - {c.key}, basis := a.basis[c.key := ByCommitment]) else a
  }

  /** What the compatible claims of a key leave once one is withdrawn: a single one is selected. */
  function LeftWith(b: Choices, key: ClaimKey, remaining: seq<Claim>): Choices {
    if |remaining| == 1 then
      b.(compatible := b.compatible - {key}, selected := b.selected[key := remaining[0]], basis := b.basis[key := ByCommitment])
    else if remaining != [] then b.(compatible := b.compatible[key := remaining])
    else b.(compatible := b.compatible - {key})
  }

  /** One rejected candidate of an applied resolution: withdrawn wherever the view holds it. */
  function Exclude(ch: Choices, c: Claim): Choices {
    var b := Unselect(ch, c);
    if c.key in b.compatible && c in b.compatible[c.key] then LeftWith(b, c.key, Others(b.compatible[c.key], c)) else b
  }

  function ExcludeAll(ch: Choices, candidates: seq<Claim>, rejected: set<Id>): Choices {
    if candidates == [] then ch
    else
      var front, last := ExcludeAll(ch, candidates[..|candidates| - 1], rejected), candidates[|candidates| - 1];
      if last.id in rejected then Exclude(front, last) else front
  }

  method ExcludeRejected(ch: Choices, candidates: seq<Claim>, rejected: set<Id>) returns (ch': Choices)
    ensures ch' == ExcludeAll(ch, candidates, rejected)
  {
    ch' := ch;
    for i := 0 to |candidates|
      invariant ch' == ExcludeAll(ch, candidates[..i], rejected)
    {
      assert candidates[..i + 1][..i] == candidates[..i];
      if candidates[i].id in rejected { ch' := Exclude(ch', candidates[i]); }
    }
    assert candidates[..|candidates|] == candidates;
  }

  function RejectedBy(state: MemoryState, c: ConflictSet, scope: Option<Name>): set<Id> {
    var lane := ResolutionLane(state, c, scope);
    if lane in state.lifecycle.effective then state.lifecycle.effective[lane].rejected else {}
  }

  /** The loop over the remaining findings, in identifier order. */
  function AfterRest(ch: Choices, state: MemoryState, scope: Option<Name>, handled: set<ConflictSet>, conflicts: seq<ConflictSet>): Choices {
    if conflicts == [] then ch
    else
      var front, c := AfterRest(ch, state, scope, handled, conflicts[..|conflicts| - 1]), conflicts[|conflicts| - 1];
      var committed := CommittedChoice(state, c, scope);
      if c in handled || !committed.applied || committed.claim.None? then front
      else ExcludeAll(front, c.candidates, RejectedBy(state, c, scope))
  }

  /** What the view is, as a function of the state: used to compare views of different states. */
  ghost predicate IsView(v: Viewed, state: MemoryState, registry: Registry, scope: Option<Name>, resolver: Option<Resolver>,
                         conflicts: seq<ConflictSet>)
  {
    && v.unresolved == UnresolvedIn(state, scope, HandledAt(state, state.activity.byKey.Keys) + Elements(conflicts))
    && v.surfaced == SurfacedOf(state)
    && exists ch :: ViewsKeys(ch, state, registry, scope, resolver, state.activity.byKey.Keys)
         && v.choices == AfterRest(ch, state, scope, HandledAt(state, state.activity.byKey.Keys), conflicts)
  }

  function SurfacedOf(state: MemoryState): map<ClaimKey, ConflictSet> {
    map key | key in state.activity.byKey && KeyConflicts(state, key) != [] :: KeyConflicts(state, key)[0]
  }

  /** `build_view`: unresolved are exactly the findings whose committed choice is not applied,
      whatever a resolver suggests. `conflicts` lists the state's findings in identifier order. */
  method BuildView(state: MemoryState, registry: Registry, scope: Option<Name>, resolver: Option<Resolver>, conflicts: seq<ConflictSet>)
    returns (v: Viewed)
    requires NoEmptyLists(state.activity.byKey) && Elements(conflicts) == state.findings.byId.Values
    ensures IsView(v, state, registry, scope, resolver, conflicts)
    ensures forall c :: c in state.findings.byId.Values ==> (c in v.unresolved <==> !CommittedChoice(state, c, scope).applied)
  {
    var ch, handled, unresolved := ViewKeys(state, registry, scope, resolver);
    ghost var start, first := ch, unresolved;
    hide ViewsKeys;
    hide HandledAt;
    hide CommittedChoice;
    hide SurfacedOf;
    hide RejectedBy;
    assert Elements(conflicts[..0]) == {};
    for i := 0 to |conflicts|
      invariant ch == AfterRest(start, state, scope, handled, conflicts[..i])
      invariant unresolved == first + UnresolvedIn(state, scope, Elements(conflicts[..i]) - handled)
    {
      PrefixStep(conflicts, i);
      assert conflicts[..i + 1][..i] == conflicts[..i];
      var c := conflicts[i];
      UnresolvedStep(state, scope, Elements(conflicts[..i]), handled, c);
      if c !in handled {
        var committed := CommittedChoice(state, c, scope);
        if committed.applied {
          if committed.claim.Some? { ch := ExcludeRejected(ch, c.candidates, RejectedBy(state, c, scope)); }
        } else {
          unresolved := unresolved + {c};
        }
      }
    }
    assert conflicts[..|conflicts|] == conflicts;
    UnresolvedUnion(state, scope, handled, Elements(conflicts));
    v := Viewed(ch, unresolved, SurfacedOf(state));
  }

  lemma UnresolvedStep(state: MemoryState, scope: Option<Name>, some: set<ConflictSet>, handled: set<ConflictSet>, c: ConflictSet)
    ensures UnresolvedIn(state, scope, (some + {c}) - handled)
            == UnresolvedIn(state, scope, some - handled)
               + if c !in handled && !CommittedChoice(state, c, scope).applied then {c} else {}
  {
    hide CommittedChoice;
  }

  lemma UnresolvedUnion(state: MemoryState, scope: Option<Name>, a: set<ConflictSet>, b: set<ConflictSet>)
    ensures UnresolvedIn(state, scope, a) + UnresolvedIn(state, scope, b - a) == UnresolvedIn(state, scope, a + b)
    ensures UnresolvedIn(state, scope, {}) == {}
  {
    hide CommittedChoice;
  }

  lemma ValuesAreAll(cs: set<ConflictSet>)
    requires Injective(cs, ConflictIdOf)
    ensures ById(cs, ConflictIdOf).Values == cs
  {
    var byId := ById(cs, ConflictIdOf);
    forall c ensures c in byId.Values <==> c in cs {
      if c in cs { ByIdLookup(cs, ConflictIdOf, c); }
      if c in byId.Values {
        var id :| id in byId && byId[id] == c;
        ByIdEntry(cs, ConflictIdOf, id);
      }
    }
  }

  lemma AskedIsFinding(cs: set<ConflictSet>, key: ClaimKey)
    requires Injective(cs, ConflictKeyOf)
    ensures forall c :: c in SelectableAmong(FindingsUnder(TablesOf(cs), key)) ==> c in cs
  {
    SelectableMembers(FindingsUnder(TablesOf(cs), key));
    ByIdEntry(cs, ConflictKeyOf, key);
    hide ById;
    hide Injective;
    hide SelectableAmong;
  }

  /** The findings the loop over keys deals with are findings of the state. */
  lemma HandledAreFindings(state: MemoryState, cs: set<ConflictSet>, keys: set<ClaimKey>)
    requires state.findings == TablesOf(cs) && Injective(cs, ConflictKeyOf)
    ensures HandledAt(state, keys) <= cs
  {
    hide TablesOf;
    hide Injective;
    hide SelectableAmong;
    hide FindingsUnder;
    forall c | c in HandledAt(state, keys) ensures c in cs {
      var key :| key in keys && KeyConflicts(state, key) != [] && KeyConflicts(state, key)[0] == c;
      AskedIsFinding(cs, key);
      assert KeyConflicts(state, key)[0] in SelectableAmong(FindingsUnder(TablesOf(cs), key));
    }
  }

  lemma {:induction false} SelectableMembers(cs: seq<ConflictSet>)
    ensures forall c :: c in SelectableAmong(cs) ==> c in cs
  {
    if cs != [] {
      SelectableMembers(cs[..|cs| - 1]);
      assert cs == cs[..|cs| - 1] + [cs[|cs| - 1]];
    }
  }

  /** In the view of a state whose findings are direct, unresolved are exactly the findings whose
      committed choice is not applied. */
  lemma UnresolvedExactly(v: Viewed, state: MemoryState, registry: Registry, scope: Option<Name>, resolver: Option<Resolver>,
                          conflicts: seq<ConflictSet>, cs: set<ConflictSet>)
    requires IsView(v, state, registry, scope, resolver, conflicts) && Elements(conflicts) == state.findings.byId.Values
    requires state.findings == TablesOf(cs) && OnePerKey(cs)
    ensures v.unresolved == set c | c in state.findings.byId.Values && !CommittedChoice(state, c, scope).applied
  {
    OnePerKeyInjective(cs);
    HandledAreFindings(state, cs, state.activity.byKey.Keys);
    ValuesAreAll(cs);
    hide Injective;
    hide ById;
    hide CommittedChoice;
    hide HandledAt;
    hide ViewsKeys;
    hide OnePerKey;
  }
}
