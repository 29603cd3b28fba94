/** The stored payload of every accepted observation, in the present or the
    legacy form, is accepted again at its own time and gives the same result. */
module RoundTrip {
  import opened Wrappers
  import opened StatusPolicy
  import opened Sanitizer
  import opened Observations
  import opened StoredForm
  import opened LegacyRandomx

  /** Every collected component came from a visit to the item in its position. */
  lemma {:induction false} VisitedEach(items: seq<Json>, seen: set<string>, visit: Visitor, i: nat)
    returns (ids: set<string>)
    requires VisitAll(items, seen, visit).Ok? && i < |items|
    ensures |VisitAll(items, seen, visit).value| == |items|
    ensures visit(items[i], ids) == Ok(VisitAll(items, seen, visit).value[i])
    decreases |items|
  {
    VisitKeepsLength(items, seen, visit);
    if i == 0 {
      ids := seen;
    } else {
      ids := VisitedEach(items[1..], seen + {visit(items[0], seen).value.id}, visit, i - 1);
    }
  }

  /** An accepted component with its item. */
  lemma {:induction false} AcceptedItem(p: Option<Json>, observedAt: string, components: seq<Component>, i: nat)
    returns (ids: set<string>)
    requires SanitizeRegistry(p, observedAt) == Ok(components) && i < |components|
    ensures |components| == |p.value.items|
    ensures SanitizeComponent(p.value.items[i], observedAt, ids) == Ok(components[i])
  {
    VisitKeepsLength(p.value.items, {}, ComponentVisitor(observedAt));
    ids := VisitedEach(p.value.items, {}, ComponentVisitor(observedAt), i);
  }

  lemma {:induction false} ItemsKeepKeys(j: Json, allowed: iset<Key>, i: nat)
    requires KeysWithin(j, allowed) && Prop(j, Components).Some? && Prop(j, Components).value.Arr?
    requires i < |Prop(j, Components).value.items|
    ensures KeysWithin(Prop(j, Components).value.items[i], allowed)
  {
    assert KeysWithin(j.fields[Components], allowed);
  }

  /** What stands for an accepted component in storage is equivalent to what was sent. */
  lemma {:induction false} StoredComponent(raw: Json, observedAt: string, components: seq<Component>, i: nat)
    requires SanitizeRegistry(Prop(raw, Components), observedAt) == Ok(components) && i < |components|
    requires KeysWithin(raw, PUBLISHABLE)
    ensures |components| == |Prop(raw, Components).value.items|
    ensures SameComponent(Prop(raw, Components).value.items[i], ComponentJson(components[i], observedAt), observedAt,
                          components[i])
    ensures KeysWithin(ComponentJson(components[i], observedAt), PUBLISHABLE)
  {
    var ids := AcceptedItem(Prop(raw, Components), observedAt, components, i);
    var item := Prop(raw, Components).value.items[i];
    forall seen | SanitizeComponent(item, observedAt, seen) == Ok(components[i])
      ensures SanitizeComponent(ComponentJson(components[i], observedAt), observedAt, seen) == Ok(components[i])
    {
      ComponentReadsBack(item, observedAt, seen, components[i]);
    }
    ItemsKeepKeys(raw, PUBLISHABLE, i);
    ComponentWithin(item, observedAt, ids, components[i], PUBLISHABLE);
  }

  /** Storage with some components stood in for: equivalent and publishable
      components make an acceptable observation. */
  lemma {:induction false} StoredAccepted(
      clock: Clock, raw: Json, requestTimestamp: int, v: Sanitized, others: seq<Json>)
    requires Validate(clock, raw, requestTimestamp) == Ok(v)
    requires SameComponents(raw, others, v.observation)
    requires forall i :: 0 <= i < |others| ==> KeysWithin(others[i], PUBLISHABLE)
    ensures Validate(clock, ObservationJson(v.observation, others), v.observedUnix) == Ok(v)
  {
    ValidateMeansParts(clock, raw, requestTimestamp, v);
    CleanIsKeysWithin(raw);
    PublishableReleaseNames();
    StoredWithin(clock, raw, v, others, PUBLISHABLE);
    CleanIsKeysWithin(ObservationJson(v.observation, others));
    ObservationAgrees(clock, raw, requestTimestamp, v, others);
  }

  lemma {:induction false} RegistryOf(clock: Clock, raw: Json, requestTimestamp: int, v: Sanitized)
    requires Validate(clock, raw, requestTimestamp) == Ok(v)
    ensures SanitizeRegistry(Prop(raw, Components), v.observation.observedAt) == Ok(v.observation.components)
    ensures KeysWithin(raw, PUBLISHABLE)
    ensures Prop(raw, Components).Some? && Prop(raw, Components).value.Arr?
    ensures |v.observation.components| == |Prop(raw, Components).value.items| > 0
  {
    ValidateMeansParts(clock, raw, requestTimestamp, v);
    CleanIsKeysWithin(raw);
    var ids := AcceptedItem(Prop(raw, Components), v.observation.observedAt, v.observation.components, 0)
      by { VisitKeepsLength(Prop(raw, Components).value.items, {}, ComponentVisitor(v.observation.observedAt)); }
  }

  // ----- the present form -----

  lemma {:induction false} ModernReadsBack(clock: Clock, raw: Json, requestTimestamp: int, v: Sanitized)
    requires Validate(clock, raw, requestTimestamp) == Ok(v)
    ensures Validate(clock, ToJson(v.observation), v.observedUnix) == Ok(v)
  {
    RegistryOf(clock, raw, requestTimestamp, v);
    var o := v.observation;
    var others := ComponentsJson(o.components, o.observedAt);
    forall i | 0 <= i < |others|
      ensures SameComponent(Prop(raw, Components).value.items[i], others[i], o.observedAt, o.components[i])
      ensures KeysWithin(others[i], PUBLISHABLE)
    {
      StoredComponent(raw, o.observedAt, o.components, i);
    }
    StoredAccepted(clock, raw, requestTimestamp, v, others);
  }

  /** Evidence accepted for the RandomX component names no unit. */
  lemma {:induction false} RandomxHasNoUnit(item: Json, observedAt: string, seen: set<string>, c: Component)
    requires SanitizeComponent(item, observedAt, seen) == Ok(c) && c.id == RANDOMX_ID
    ensures c.evidence.unit.None?
  {
    ComponentParts(item, observedAt, seen, c);
    assert PolicyOf(c.id) == RANDOMX_POLICY;
  }

  lemma {:induction false} ModernIsNotLegacy(clock: Clock, raw: Json, requestTimestamp: int, v: Sanitized)
    requires Validate(clock, raw, requestTimestamp) == Ok(v)
    ensures LegacyPosition(ToJson(v.observation)).None?
  {
    var o := v.observation;
    var stored := ToJson(o);
    ObservationFields(o, ComponentsJson(o.components, o.observedAt));
    if LegacyPosition(stored).Some? {
      LegacyPositionIsRandomx(stored);
      var i := LegacyPosition(stored).value;
      var c := o.components[i];
      ItemFields(c.id, c.status, o.observedAt, EvidenceJson(c.evidence));
      EvidenceFields(c.evidence);
      RegistryOf(clock, raw, requestTimestamp, v);
      var ids := AcceptedItem(Prop(raw, Components), o.observedAt, o.components, i);
      RandomxHasNoUnit(Prop(raw, Components).value.items[i], o.observedAt, ids, c);
      assert false;
    }
  }

  // ----- the legacy form -----

  lemma {:induction false} LegacyFactsReadBack(p: Option<Json>, facts: Json)
    requires ReadLegacyFacts(p) == Some(facts)
    ensures ReadLegacyFacts(Some(facts)) == Some(facts)
  {
  }

  lemma {:induction false} StatesAreBounded(state: string, substate: string)
    requires state in ACTIVE_STATES && substate in SUB_STATES
    ensures |state| <= 20 && |substate| <= 20
  {
  }

  /** Sanitized legacy evidence is legacy evidence and sanitizes to itself. */
  lemma {:induction false} LegacyEvidenceReadsBack(j: Json, e: EvidenceRecord)
    requires ReadLegacy(j) == Some(e)
    ensures ReadLegacy(EvidenceJson(e)) == Some(e)
    ensures Prop(EvidenceJson(e), Unit) == Some(Str(RANDOMX_UNIT))
  {
    EvidenceFields(e);
    StatesAreBounded(e.activeState.value, e.subState.value);
    LegacyFactsReadBack(Prop(j, Facts), e.facts.value);
    LegacyKeysOnly(e);
  }

  lemma {:induction false} LegacyKeysOnly(e: EvidenceRecord)
    requires e.schema.None? && e.outcome.None?
    ensures HasOnly(EvidenceJson(e), LEGACY_KEYS)
  {
    forall k | k in EvidenceJson(e).fields
      ensures k in LEGACY_KEYS
    {
      assert k in EVIDENCE_KEYS && EvidenceField(e, k).Some?;
    }
  }

  lemma {:induction false} PutBackReplaces(components: seq<Component>, evidence: EvidenceRecord, i: nat)
    requires i < |components|
    requires forall k :: 0 <= k < |components| ==> (components[k].id == RANDOMX_ID <==> k == i)
    ensures PutBack(components, evidence) == components[i := components[i].(evidence := evidence)]
    decreases i
  {
    if i > 0 {
      assert components[0].id != RANDOMX_ID;
      PutBackReplaces(components[1..], evidence, i - 1);
      assert components == [components[0]] + components[1..];
    }
  }

  /** The copy differs from the original only in the evidence at position `i`. */
  lemma {:induction false} NormalizedParts(raw: Json, i: nat)
    requires LegacyPosition(raw) == Some(i)
    ensures raw.Obj? && Prop(raw, Components).Some? && Prop(raw, Components).value.Arr?
    ensures i < |Prop(raw, Components).value.items| && Prop(raw, Components).value.items[i].Obj?
    ensures var items := Prop(raw, Components).value.items;
            var standIn := StandIn(OutcomeForStatus(Prop(items[i], Status)));
            Prop(Normalized(raw, i), Components) == Some(Arr(items[i := WithEvidence(items[i], standIn)]))
    ensures forall k ::
              0 <= k < |Prop(raw, Components).value.items| ==>
                (IsRandomx(Prop(raw, Components).value.items[k]) <==> k == i)
  {
    LegacyPositionIsRandomx(raw);
    assert IsRandomx(Prop(raw, Components).value.items[i]);
  }

  lemma {:induction false} WithEvidenceParts(item: Json, evidence: Json)
    requires item.Obj?
    ensures Prop(WithEvidence(item, evidence), Evidence) == Some(evidence)
    ensures forall k :: k != Evidence ==> Prop(WithEvidence(item, evidence), k) == Prop(item, k)
  {
  }

  lemma {:induction false} IdDecidesRandomx(item: Json, observedAt: string, ids: set<string>, c: Component)
    requires SanitizeComponent(item, observedAt, ids) == Ok(c)
    ensures c.id == RANDOMX_ID <==> IsRandomx(item)
  {
    ComponentParts(item, observedAt, ids, c);
  }

  lemma {:induction false} IdsFollowItems(p: Option<Json>, observedAt: string, components: seq<Component>, i: nat)
    requires SanitizeRegistry(p, observedAt) == Ok(components)
    requires forall k :: 0 <= k < |p.value.items| ==> (IsRandomx(p.value.items[k]) <==> k == i)
    ensures |components| == |p.value.items|
    ensures forall k :: 0 <= k < |components| ==> (components[k].id == RANDOMX_ID <==> k == i)
  {
    VisitKeepsLength(p.value.items, {}, ComponentVisitor(observedAt));
    forall k | 0 <= k < |components|
      ensures components[k].id == RANDOMX_ID <==> k == i
    {
      var ids := AcceptedItem(p, observedAt, components, k);
      IdDecidesRandomx(p.value.items[k], observedAt, ids, components[k]);
    }
  }

  lemma {:induction false} CopyKeepsRandomx(items: seq<Json>, i: nat, standIn: Json)
    requires i < |items| && items[i].Obj?
    ensures forall k ::
              0 <= k < |items| ==> (IsRandomx(items[i := WithEvidence(items[i], standIn)][k]) <==> IsRandomx(items[k]))
  {
    WithEvidenceParts(items[i], standIn);
  }

  /** In the copy exactly the component at position `i` is the RandomX component. */
  lemma {:induction false} RandomxAtPosition(clock: Clock, raw: Json, requestTimestamp: int, i: nat, v1: Sanitized)
    requires LegacyPosition(raw) == Some(i)
    requires i < |Prop(raw, Components).value.items| && Prop(raw, Components).value.items[i].Obj?
    requires Validate(clock, Normalized(raw, i), requestTimestamp) == Ok(v1)
    ensures |v1.observation.components| == |Prop(raw, Components).value.items|
    ensures forall k ::
              0 <= k < |v1.observation.components| ==> (v1.observation.components[k].id == RANDOMX_ID <==> k == i)
  {
    var n := Normalized(raw, i);
    NormalizedParts(raw, i);
    var items := Prop(raw, Components).value.items;
    CopyKeepsRandomx(items, i, StandIn(OutcomeForStatus(Prop(items[i], Status))));
    RegistryOf(clock, n, requestTimestamp, v1);
    IdsFollowItems(Prop(n, Components), v1.observation.observedAt, v1.observation.components, i);
  }

  /** The item stored for the RandomX component, with its evidence stood in for again. */
  function StandInItem(c: Component, observedAt: string): Json {
    ItemJson(c.id, c.status, observedAt, StandIn(OutcomeForStatus(Some(Str(c.status)))))
  }

  lemma {:induction false} StandInAgrees(item: Json, standIn: Json, observedAt: string, ids: set<string>, c: Component)
    requires item.Obj? && standIn == StandIn(OutcomeForStatus(Prop(item, Status)))
    requires SanitizeComponent(WithEvidence(item, standIn), observedAt, ids) == Ok(c)
    requires KeysWithin(WithEvidence(item, standIn), PUBLISHABLE)
    ensures SameComponent(WithEvidence(item, standIn), StandInItem(c, observedAt), observedAt, c)
    ensures KeysWithin(StandInItem(c, observedAt), PUBLISHABLE)
  {
    var copy := WithEvidence(item, standIn);
    WithEvidenceParts(item, standIn);
    ComponentParts(copy, observedAt, ids, c);
    assert standIn == StandIn(OutcomeForStatus(Some(Str(c.status))));
    ItemFields(c.id, c.status, observedAt, standIn);
    forall seen | SanitizeComponent(copy, observedAt, seen) == Ok(c)
      ensures SanitizeComponent(StandInItem(c, observedAt), observedAt, seen) == Ok(c)
    {
      ComponentParts(copy, observedAt, seen, c);
      ComponentAccepted(StandInItem(c, observedAt), observedAt, seen, c);
    }
    assert KeysWithin(copy.fields[Evidence], PUBLISHABLE);
    ItemWithin(copy, c.id, c.status, observedAt, standIn, PUBLISHABLE);
  }

  /** Stored components with the RandomX evidence stood in for. */
  function StandIns(o: Observation, i: nat): seq<Json>
    requires i < |o.components|
  {
    ComponentsJson(o.components, o.observedAt)[i := StandInItem(o.components[i], o.observedAt)]
  }

  lemma {:induction false} StandInsAccepted(clock: Clock, raw: Json, requestTimestamp: int, i: nat, v1: Sanitized)
    requires LegacyPosition(raw) == Some(i)
    requires i < |Prop(raw, Components).value.items| && Prop(raw, Components).value.items[i].Obj?
    requires Validate(clock, Normalized(raw, i), requestTimestamp) == Ok(v1)
    requires i < |v1.observation.components|
    ensures Validate(clock, ObservationJson(v1.observation, StandIns(v1.observation, i)), v1.observedUnix) == Ok(v1)
  {
    var n, o := Normalized(raw, i), v1.observation;
    var item, others := Prop(raw, Components).value.items[i], StandIns(o, i);
    var standIn := StandIn(OutcomeForStatus(Prop(item, Status)));
    NormalizedParts(raw, i);
    RegistryOf(clock, n, requestTimestamp, v1);
    var items := Prop(n, Components).value.items;
    assert items[i] == WithEvidence(item, standIn);
    forall k | 0 <= k < |others|
      ensures SameComponent(items[k], others[k], o.observedAt, o.components[k])
      ensures KeysWithin(others[k], PUBLISHABLE)
    {
      if k == i {
        var ids := AcceptedItem(Prop(n, Components), o.observedAt, o.components, i);
        ItemsKeepKeys(n, PUBLISHABLE, i);
        StandInAgrees(item, standIn, o.observedAt, ids, o.components[i]);
      } else {
        StoredComponent(n, o.observedAt, o.components, k);
      }
    }
    StoredAccepted(clock, n, requestTimestamp, v1, others);
  }

  /** A stored legacy observation is recognised as one. */
  lemma {:induction false} StoredIsLegacy(stored: Json, items: seq<Json>, i: nat, evidence: Json)
    requires stored.Obj? && Prop(stored, Components) == Some(Arr(items)) && i < |items|
    requires forall k :: 0 <= k < |items| ==> (IsRandomx(items[k]) <==> k == i)
    requires Prop(items[i], Evidence) == Some(evidence) && evidence.Obj?
    requires Prop(evidence, Unit) == Some(Str(RANDOMX_UNIT))
    ensures LegacyPosition(stored) == Some(i)
  {
    OnlyPosition(items, i);
  }

  lemma {:induction false} ItemsAreRandomx(components: seq<Component>, observedAt: string, i: nat)
    requires forall k :: 0 <= k < |components| ==> (components[k].id == RANDOMX_ID <==> k == i)
    ensures forall k :: 0 <= k < |components| ==> (IsRandomx(ComponentsJson(components, observedAt)[k]) <==> k == i)
  {
    forall k | 0 <= k < |components|
      ensures IsRandomx(ComponentsJson(components, observedAt)[k]) <==> k == i
    {
      ItemFields(components[k].id, components[k].status, observedAt, EvidenceJson(components[k].evidence));
    }
  }

  lemma {:induction false} StandInStored(components: seq<Component>, observedAt: string, i: nat, e: EvidenceRecord)
    requires i < |components|
    ensures var items := ComponentsJson(components[i := components[i].(evidence := e)], observedAt);
            && items[i].Obj?
            && Prop(items[i], Evidence) == Some(EvidenceJson(e))
            && WithEvidence(items[i], StandIn(OutcomeForStatus(Prop(items[i], Status)))) ==
                 StandInItem(components[i], observedAt)
            && items[i := StandInItem(components[i], observedAt)]
               == ComponentsJson(components, observedAt)[i := StandInItem(components[i], observedAt)]
  {
    var c := components[i];
    ItemFields(c.id, c.status, observedAt, EvidenceJson(e));
  }

  /** Standing in for the evidence of a stored legacy observation. */
  lemma {:induction false} NormalizedStored(o: Observation, i: nat, e: EvidenceRecord)
    requires i < |o.components|
    requires forall k :: 0 <= k < |o.components| ==> (o.components[k].id == RANDOMX_ID <==> k == i)
    requires Prop(EvidenceJson(e), Unit) == Some(Str(RANDOMX_UNIT))
    ensures var stored := ToJson(o.(components := o.components[i := o.components[i].(evidence := e)]));
            && LegacyPosition(stored) == Some(i)
            && Prop(stored, Components).Some? && Prop(stored, Components).value.Arr?
            && i < |Prop(stored, Components).value.items| && Prop(stored, Components).value.items[i].Obj?
            && Prop(Prop(stored, Components).value.items[i], Evidence) == Some(EvidenceJson(e))
            && Normalized(stored, i) == ObservationJson(o, StandIns(o, i))
  {
    var components := o.components[i := o.components[i].(evidence := e)];
    var legacy := o.(components := components);
    var items := ComponentsJson(components, o.observedAt);
    ObservationFields(legacy, items);
    ItemsAreRandomx(components, o.observedAt, i);
    StandInStored(o.components, o.observedAt, i, e);
    StoredIsLegacy(ToJson(legacy), items, i, EvidenceJson(e));
    StoredShape(o, legacy, items, StandIns(o, i));
  }

  lemma {:induction false} StoredShape(o: Observation, legacy: Observation, items: seq<Json>, others: seq<Json>)
    requires legacy == o.(components := legacy.components)
    ensures var j := ObservationJson(legacy, items);
            Obj(j.order, j.fields[Components := Arr(others)]) == ObservationJson(o, others)
  {
  }

  /** How an observation in legacy form was accepted. */
  lemma {:induction false} LegacyDecomposes(clock: Clock, raw: Json, requestTimestamp: int, v: Sanitized)
    returns (i: nat, evidence: Json, e: EvidenceRecord, v1: Sanitized)
    requires LegacyPosition(raw).Some? && ValidateAny(clock, raw, requestTimestamp) == Ok(v)
    ensures LegacyPosition(raw) == Some(i)
    ensures i < |Prop(raw, Components).value.items| && Prop(raw, Components).value.items[i].Obj?
    ensures ReadLegacy(evidence) == Some(e)
    ensures Validate(clock, Normalized(raw, i), requestTimestamp) == Ok(v1)
    ensures i < |v1.observation.components|
    ensures forall k ::
              0 <= k < |v1.observation.components| ==> (v1.observation.components[k].id == RANDOMX_ID <==> k == i)
    ensures PutBack(v1.observation.components, e) ==
              v1.observation.components[i := v1.observation.components[i].(evidence := e)]
    ensures v == v1.(observation := v1.observation.(components := PutBack(v1.observation.components, e)))
  {
    i := LegacyPosition(raw).value;
    NormalizedParts(raw, i);
    evidence := Prop(Prop(raw, Components).value.items[i], Evidence).value;
    e := ReadLegacy(evidence).value;
    v1 := Validate(clock, Normalized(raw, i), requestTimestamp).value;
    RandomxAtPosition(clock, raw, requestTimestamp, i, v1);
    PutBackReplaces(v1.observation.components, e, i);
  }

  /** Validating any observation in legacy form, given how its parts are read. */
  lemma {:induction false} LegacyValidated(
      clock: Clock, stored: Json, time: int, i: nat, e: EvidenceRecord, v1: Sanitized)
    requires LegacyPosition(stored) == Some(i)
    requires Prop(stored, Components).Some? && Prop(stored, Components).value.Arr?
    requires i < |Prop(stored, Components).value.items| && Prop(stored, Components).value.items[i].Obj?
    requires Prop(Prop(stored, Components).value.items[i], Evidence) == Some(EvidenceJson(e))
    requires ReadLegacy(EvidenceJson(e)) == Some(e)
    requires Validate(clock, Normalized(stored, i), time) == Ok(v1)
    ensures ValidateAny(clock, stored, time) ==
            Ok(v1.(observation := v1.observation.(components := PutBack(v1.observation.components, e))))
  {
  }

  lemma {:induction false} LegacyReadsBack(clock: Clock, raw: Json, requestTimestamp: int, v: Sanitized)
    requires LegacyPosition(raw).Some? && ValidateAny(clock, raw, requestTimestamp) == Ok(v)
    ensures ValidateAny(clock, ToJson(v.observation), v.observedUnix) == Ok(v)
  {
    var i, evidence, e, v1 := LegacyDecomposes(clock, raw, requestTimestamp, v);
    LegacyEvidenceReadsBack(evidence, e);
    NormalizedStored(v1.observation, i, e);
    StandInsAccepted(clock, raw, requestTimestamp, i, v1);
    LegacyValidated(clock, ToJson(v.observation), v.observedUnix, i, e, v1);
  }

  // ----- both forms -----

  /** Sanitizing is idempotent through storage: the stored payload of an accepted
      observation is accepted at its own time and gives the identical result. */
  lemma {:induction false} StoredObservationReadsBack(clock: Clock, raw: Json, requestTimestamp: int, v: Sanitized)
    requires ValidateAny(clock, raw, requestTimestamp) == Ok(v)
    ensures ValidateAny(clock, ToJson(v.observation), v.observedUnix) == Ok(v)
  {
    if LegacyPosition(raw).Some? {
      LegacyReadsBack(clock, raw, requestTimestamp, v);
    } else {
      ModernReadsBack(clock, raw, requestTimestamp, v);
      ModernIsNotLegacy(clock, raw, requestTimestamp, v);
    }
  }

  /** Accepted components are a permutation of the registry, each with a known status. */
  lemma {:induction false} AcceptedComponentsPermuteRegistry(
      clock: Clock, raw: Json, requestTimestamp: int, v: Sanitized, registry: seq<string>)
    requires Validate(clock, raw, requestTimestamp) == Ok(v) && registry == COMPONENT_IDS
    ensures Covers(v.observation.components, registry)
  {
    RegistryOf(clock, raw, requestTimestamp, v);
    RegistryIsPermutation(Prop(raw, Components), v.observation.observedAt, v.observation.components, registry);
  }

  lemma {:induction false} NewEvidenceKeepsIds(
      components: seq<Component>, others: seq<Component>, i: nat, e: EvidenceRecord)
    requires i < |components| && others == components[i := components[i].(evidence := e)]
    ensures Ids(others) == Ids(components)
    ensures KnownStatuses(components) ==> KnownStatuses(others)
  {
    IdsAreOfComponents(components);
    IdsAreOfComponents(others);
  }

  lemma {:induction false} NewEvidenceKeepsCover(
      components: seq<Component>, others: seq<Component>, i: nat, e: EvidenceRecord, registry: seq<string>)
    requires i < |components| && others == components[i := components[i].(evidence := e)]
    requires Covers(components, registry)
    ensures Covers(others, registry)
  {
    NewEvidenceKeepsIds(components, others, i, e);
  }

  lemma {:induction false} AcceptedLegacyPermutesRegistry(
      clock: Clock, raw: Json, requestTimestamp: int, v: Sanitized, registry: seq<string>)
    requires && LegacyPosition(raw).Some?
             && ValidateAny(clock, raw, requestTimestamp) == Ok(v)
             && registry == COMPONENT_IDS
    ensures Covers(v.observation.components, registry)
  {
    var i, evidence, e, v1 := LegacyDecomposes(clock, raw, requestTimestamp, v);
    AcceptedComponentsPermuteRegistry(clock, Normalized(raw, i), requestTimestamp, v1, registry);
    NewEvidenceKeepsCover(v1.observation.components, v.observation.components, i, e, registry);
  }

  /** In either form, accepted components are a permutation of the registry with known statuses. */
  lemma {:induction false} AcceptedAnyPermutesRegistry(clock: Clock, raw: Json, requestTimestamp: int, v: Sanitized)
    requires ValidateAny(clock, raw, requestTimestamp) == Ok(v)
    ensures Covers(v.observation.components, COMPONENT_IDS)
  {
    if LegacyPosition(raw).Some? {
      AcceptedLegacyPermutesRegistry(clock, raw, requestTimestamp, v, COMPONENT_IDS);
    } else {
      AcceptedComponentsPermuteRegistry(clock, raw, requestTimestamp, v, COMPONENT_IDS);
    }
  }
}
