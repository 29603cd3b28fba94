/** The legacy form is accepted wherever the present form is: legacy evidence may
    take the place of the RandomX evidence of any accepted observation. */
module LegacyAcceptance {
  import opened Acceptance
  import opened Counting
  import opened Wrappers
  import opened SensitiveNames
  import opened StatusPolicy
  import opened Sanitizer
  import opened Observations
  import opened StoredForm
  import opened LegacyRandomx
  import opened RoundTrip

  // ----- the stand-in -----

  lemma {:induction false} OutcomesAreReadyStates(status: string)
    ensures OutcomeForStatus(Some(Str(status))) in READY_STATES
  {
  }

  lemma {:induction false} StandInFacts(outcome: string)
    requires outcome in READY_STATES
    ensures var facts := Prop(StandIn(outcome), Facts);
            SanitizeFacts(facts, RANDOMX_POLICY) == Some(facts)
  {
  }

  lemma {:induction false} StandInReads(outcome: string)
    requires outcome in READY_STATES
    ensures ReadEvidence(StandIn(outcome), RANDOMX_POLICY) ==
            Some(EvidenceRecord(None, None, None, None, Some("rigos.randomx-msr-status/v1"), Some(outcome),
                                Prop(StandIn(outcome), Facts), ""))
  {
    StandInFacts(outcome);
  }

  /** The evidence stood in for legacy evidence is acceptable for every status. */
  lemma {:induction false} StandInIsAcceptable(status: string)
    ensures SanitizeEvidence(Some(StandIn(OutcomeForStatus(Some(Str(status))))), PolicyOf(RANDOMX_ID), status).Some?
  {
    var outcome := OutcomeForStatus(Some(Str(status)));
    OutcomesAreReadyStates(status);
    StandInReads(outcome);
  }

  lemma {:induction false} StandInIsClean(outcome: string)
    ensures Clean(StandIn(outcome))
  {
    AuthorityIsClean();
    SummaryIsClean();
    SchemaIsClean();
    OutcomeIsClean();
    FactsIsClean();
    VerificationOutcomeIsClean();
  }

  // ----- replacing the evidence of one component -----

  /** The same observation with other components. */
  function WithItems(raw: Json, items: seq<Json>): Json
    requires raw.Obj?
  {
    Obj(raw.order, raw.fields[Components := Arr(items)])
  }

  lemma {:induction false} ReplacedItem(item: Json, observedAt: string, c: Component, evidence: Json, e: EvidenceRecord)
    requires SanitizeComponent(item, observedAt, {}) == Ok(c)
    requires SanitizeEvidence(Some(evidence), PolicyOf(c.id), c.status) == Some(e)
    ensures item.Obj? && SanitizeComponent(WithEvidence(item, evidence), observedAt, {}) == Ok(c.(evidence := e))
  {
    ComponentParts(item, observedAt, {}, c);
    WithEvidenceParts(item, evidence);
    ComponentAccepted(WithEvidence(item, evidence), observedAt, {}, c.(evidence := e));
  }

  /** Every item alone gives the accepted component in its place. */
  lemma {:induction false} AcceptedAlone(items: seq<Json>, observedAt: string, components: seq<Component>)
    requires SanitizeRegistry(Some(Arr(items)), observedAt) == Ok(components)
    ensures |components| == |items|
    ensures forall k :: 0 <= k < |items| ==> ComponentVisitor(observedAt)(items[k], {}) == Ok(components[k])
    ensures DifferentIds(items, ComponentVisitor(observedAt))
  {
    ComponentVisitorOnlyExcludes(observedAt);
    VisitAcceptsExactly(items, {}, ComponentVisitor(observedAt));
  }

  /** Items that are acceptable alone, with different ids, give the components in their places. */
  lemma {:induction false} AloneAccepted(
      items: seq<Json>, observedAt: string, components: seq<Component>, visit: Visitor)
    requires visit == ComponentVisitor(observedAt) && |components| == |items|
    requires forall k :: 0 <= k < |items| ==> visit(items[k], {}) == Ok(components[k])
    requires forall j, k :: 0 <= j < k < |items| ==> components[j].id != components[k].id
    ensures VisitAll(items, {}, visit) == Ok(components) && |SetOf(Ids(components))| == |items|
  {
    ComponentVisitorOnlyExcludes(observedAt);
    VisitAcceptsExactly(items, {}, visit);
    var visited := VisitAll(items, {}, visit).value;
    assert forall k ::
             0 <= k < |items| ==> visit(items[k], {}) == Ok(visited[k]) && visit(items[k], {}) == Ok(components[k]);
    assert visited == components;
    IdsDiffer(components, items, visit);
  }

  lemma {:induction false} RegistryWithReplacement(
      items: seq<Json>, observedAt: string, components: seq<Component>, i: nat, evidence: Json, e: EvidenceRecord)
    requires SanitizeRegistry(Some(Arr(items)), observedAt) == Ok(components) && i < |items| == |components|
    requires SanitizeEvidence(Some(evidence), PolicyOf(components[i].id), components[i].status) == Some(e)
    ensures items[i].Obj?
    ensures SanitizeRegistry(Some(Arr(items[i := WithEvidence(items[i], evidence)])), observedAt) ==
              Ok(components[i := components[i].(evidence := e)])
  {
    var visit := ComponentVisitor(observedAt);
    AcceptedAlone(items, observedAt, components);
    assert visit(items[i], {}) == Ok(components[i]);
    ReplacedItem(items[i], observedAt, components[i], evidence, e);
    var replaced, others :=
      items[i := WithEvidence(items[i], evidence)], components[i := components[i].(evidence := e)];
    forall k | 0 <= k < |items|
      ensures visit(replaced[k], {}) == Ok(others[k])
    {
      assert visit(items[k], {}) == Ok(components[k]);
    }
    forall j, k | 0 <= j < k < |items|
      ensures others[j].id != others[k].id
    {
      assert visit(items[j], {}) == Ok(components[j]) && visit(items[k], {}) == Ok(components[k]);
    }
    AloneAccepted(replaced, observedAt, others, visit);
  }

  lemma {:induction false} ReplacedIsClean(raw: Json, i: nat, evidence: Json)
    requires Clean(raw) && raw.Obj? && Prop(raw, Components).Some? && Prop(raw, Components).value.Arr?
    requires i < |Prop(raw, Components).value.items| && Prop(raw, Components).value.items[i].Obj?
    requires Evidence in Prop(raw, Components).value.items[i].fields && Clean(evidence)
    ensures var items := Prop(raw, Components).value.items;
            Clean(WithItems(raw, items[i := WithEvidence(items[i], evidence)]))
  {
    var items := Prop(raw, Components).value.items;
    assert Clean(raw.fields[Components]);
    assert Clean(items[i]);
    assert Clean(WithEvidence(items[i], evidence));
    assert Clean(Arr(items[i := WithEvidence(items[i], evidence)]));
  }

  /** Acceptable evidence of a component may be replaced by other acceptable evidence. */
  lemma {:induction false} EvidenceMayBeReplaced(
      clock: Clock, raw: Json, requestTimestamp: int, v: Sanitized, i: nat, evidence: Json, e: EvidenceRecord)
    requires Validate(clock, raw, requestTimestamp) == Ok(v) && i < |v.observation.components|
    requires Clean(evidence)
    requires SanitizeEvidence(Some(evidence), PolicyOf(v.observation.components[i].id),
                              v.observation.components[i].status) == Some(e)
    ensures Prop(raw, Components).Some? && Prop(raw, Components).value.Arr? && raw.Obj?
    ensures i < |Prop(raw, Components).value.items| && Prop(raw, Components).value.items[i].Obj?
    ensures var items, o := Prop(raw, Components).value.items, v.observation;
            Validate(clock, WithItems(raw, items[i := WithEvidence(items[i], evidence)]), requestTimestamp)
            == Ok(v.(observation := o.(components := o.components[i := o.components[i].(evidence := e)])))
  {
    var o := v.observation;
    ValidateMeansParts(clock, raw, requestTimestamp, v);
    RegistryOf(clock, raw, requestTimestamp, v);
    var items := Prop(raw, Components).value.items;
    assert Prop(raw, Components) == Some(Arr(items));
    RegistryWithReplacement(items, o.observedAt, o.components, i, evidence, e);
    AcceptedAlone(items, o.observedAt, o.components);
    ComponentParts(items[i], o.observedAt, {}, o.components[i]);
    ReplacedIsClean(raw, i, evidence);
    var others := o.components[i := o.components[i].(evidence := e)];
    OtherComponentsAccepted(clock, raw, requestTimestamp, v, items[i := WithEvidence(items[i], evidence)], others);
  }

  lemma {:induction false} SameText(raw: Json, w: Json, k: Key)
    requires Prop(w, k) == Prop(raw, k)
    ensures RequireHash(Prop(w, k)) == RequireHash(Prop(raw, k))
  {
  }

  lemma {:induction false} OtherParts(
      clock: Clock, raw: Json, v: Sanitized, w: Json, items: seq<Json>, others: seq<Component>)
    requires ObservationParts(clock, raw, v) && Components in raw.fields && w == WithItems(raw, items) && Clean(w)
    requires SanitizeRegistry(Some(Arr(items)), v.observation.observedAt) == Ok(others)
    ensures ObservationParts(clock, w, v.(observation := v.observation.(components := others)))
  {
    SameText(raw, w, SourceId);
    SameText(raw, w, BootIdHash);
    assert Prop(w, Schema) == Prop(raw, Schema) && Prop(w, ObservedAt) == Prop(raw, ObservedAt);
    assert Prop(w, Release) == Prop(raw, Release) && Prop(w, Health) == Prop(raw, Health);
    assert Prop(w, Components) == Some(Arr(items));
  }

  lemma {:induction false} OtherComponentsAccepted(
      clock: Clock, raw: Json, requestTimestamp: int, v: Sanitized, items: seq<Json>, others: seq<Component>)
    requires Validate(clock, raw, requestTimestamp) == Ok(v) && raw.Obj? && Components in raw.fields
    requires Clean(WithItems(raw, items))
    requires SanitizeRegistry(Some(Arr(items)), v.observation.observedAt) == Ok(others)
    ensures Validate(clock, WithItems(raw, items), requestTimestamp) ==
              Ok(v.(observation := v.observation.(components := others)))
  {
    ValidateMeansParts(clock, raw, requestTimestamp, v);
    OtherParts(clock, raw, v, WithItems(raw, items), items, others);
    ValidateMeansParts(clock, WithItems(raw, items), requestTimestamp,
                       v.(observation := v.observation.(components := others)));
  }

  // ----- the legacy form -----

  lemma {:induction false} RandomxPosition(items: seq<Json>, observedAt: string, components: seq<Component>, i: nat)
    requires SanitizeRegistry(Some(Arr(items)), observedAt) == Ok(components) && i < |components|
    requires components[i].id == RANDOMX_ID
    ensures |items| == |components|
    ensures forall k :: 0 <= k < |items| ==> (IsRandomx(items[k]) <==> k == i)
    ensures forall k :: 0 <= k < |items| ==> (components[k].id == RANDOMX_ID <==> k == i)
  {
    AcceptedAlone(items, observedAt, components);
    forall k | 0 <= k < |items|
      ensures (IsRandomx(items[k]) <==> components[k].id == RANDOMX_ID) && (components[k].id == RANDOMX_ID <==> k == i)
    {
      assert && ComponentVisitor(observedAt)(items[k], {}) == Ok(components[k])
             && ComponentVisitor(observedAt)(items[i], {}) == Ok(components[i]);
      IdDecidesRandomx(items[k], observedAt, {}, components[k]);
    }
  }

  lemma {:induction false} LegacyShape(raw: Json, items: seq<Json>, i: nat, evidence: Json, e: EvidenceRecord)
    requires raw.Obj? && Prop(raw, Components) == Some(Arr(items)) && i < |items| && items[i].Obj?
    requires forall k :: 0 <= k < |items| ==> (IsRandomx(items[k]) <==> k == i)
    requires ReadLegacy(evidence) == Some(e)
    ensures var legacy := WithItems(raw, items[i := WithEvidence(items[i], evidence)]);
            && LegacyPosition(legacy) == Some(i)
            && Prop(legacy, Components) == Some(Arr(items[i := WithEvidence(items[i], evidence)]))
            && Prop(WithEvidence(items[i], evidence), Evidence) == Some(evidence) && evidence.Obj?
            && Normalized(legacy, i) ==
                 WithItems(raw, items[i := WithEvidence(items[i], StandIn(OutcomeForStatus(Prop(items[i], Status))))])
  {
    var replaced := items[i := WithEvidence(items[i], evidence)];
    var legacy := WithItems(raw, replaced);
    WithEvidenceParts(items[i], evidence);
    CopyKeepsRandomx(items, i, evidence);
    LegacyUnit(evidence, e);
    StoredIsLegacy(legacy, replaced, i, evidence);
    var standIn := StandIn(OutcomeForStatus(Prop(items[i], Status)));
    StandInTwice(items[i], evidence, standIn);
    assert replaced[i := WithEvidence(items[i], standIn)] == items[i := WithEvidence(items[i], standIn)];
    ItemsTwice(raw, replaced, items[i := WithEvidence(items[i], standIn)]);
  }

  lemma {:induction false} ItemsTwice(raw: Json, first: seq<Json>, second: seq<Json>)
    requires raw.Obj?
    ensures WithItems(WithItems(raw, first), second) == WithItems(raw, second)
    ensures Prop(WithItems(raw, first), Components) == Some(Arr(first))
  {
  }

  lemma {:induction false} LegacyUnit(evidence: Json, e: EvidenceRecord)
    requires ReadLegacy(evidence) == Some(e)
    ensures evidence.Obj? && Prop(evidence, Unit) == Some(Str(RANDOMX_UNIT))
  {
  }

  lemma {:induction false} StandInTwice(item: Json, first: Json, second: Json)
    requires item.Obj?
    ensures WithEvidence(WithEvidence(item, first), second) == WithEvidence(item, second)
  {
  }

  lemma {:induction false} LegacyValidates(
      clock: Clock, legacy: Json, requestTimestamp: int, i: nat, item: Json, evidence: Json, e: EvidenceRecord,
      w: Sanitized)
    requires LegacyPosition(legacy) == Some(i)
    requires legacy.Obj? && Prop(legacy, Components).Some? && Prop(legacy, Components).value.Arr?
    requires i < |Prop(legacy, Components).value.items| && Prop(legacy, Components).value.items[i] == item && item.Obj?
    requires Prop(item, Evidence) == Some(evidence) && ReadLegacy(evidence) == Some(e)
    requires Validate(clock, Normalized(legacy, i), requestTimestamp) == Ok(w)
    ensures ValidateAny(clock, legacy, requestTimestamp)
            == Ok(w.(observation := w.observation.(components := PutBack(w.observation.components, e))))
  {
  }

  /** The item of the RandomX component of an accepted observation. */
  lemma {:induction false} RandomxItem(clock: Clock, raw: Json, requestTimestamp: int, v: Sanitized, i: nat)
    requires Validate(clock, raw, requestTimestamp) == Ok(v)
    requires i < |v.observation.components| && v.observation.components[i].id == RANDOMX_ID
    ensures raw.Obj? && Prop(raw, Components).Some? && Prop(raw, Components).value.Arr?
    ensures var items := Prop(raw, Components).value.items;
            && |items| == |v.observation.components| && items[i].Obj?
            && Prop(items[i], Status) == Some(Str(v.observation.components[i].status))
            && (forall k :: 0 <= k < |items| ==> (IsRandomx(items[k]) <==> k == i))
            && (forall k :: 0 <= k < |items| ==> (v.observation.components[k].id == RANDOMX_ID <==> k == i))
  {
    var o := v.observation;
    RegistryOf(clock, raw, requestTimestamp, v);
    var items := Prop(raw, Components).value.items;
    assert Prop(raw, Components) == Some(Arr(items));
    AcceptedAlone(items, o.observedAt, o.components);
    assert ComponentVisitor(o.observedAt)(items[i], {}) == Ok(o.components[i]);
    ComponentParts(items[i], o.observedAt, {}, o.components[i]);
    RandomxPosition(items, o.observedAt, o.components, i);
  }

  /** The normalized copy is accepted. */
  lemma {:induction false} StandInAccepted(clock: Clock, raw: Json, requestTimestamp: int, v: Sanitized, i: nat)
    returns (s: EvidenceRecord)
    requires Validate(clock, raw, requestTimestamp) == Ok(v)
    requires i < |v.observation.components| && v.observation.components[i].id == RANDOMX_ID
    requires raw.Obj? && Prop(raw, Components).Some? && Prop(raw, Components).value.Arr?
    requires i < |Prop(raw, Components).value.items| && Prop(raw, Components).value.items[i].Obj?
    requires Prop(Prop(raw, Components).value.items[i], Status) == Some(Str(v.observation.components[i].status))
    ensures var items, o := Prop(raw, Components).value.items, v.observation;
            var standIn := StandIn(OutcomeForStatus(Prop(items[i], Status)));
            Validate(clock, WithItems(raw, items[i := WithEvidence(items[i], standIn)]), requestTimestamp)
            == Ok(v.(observation := o.(components := o.components[i := o.components[i].(evidence := s)])))
  {
    var status := v.observation.components[i].status;
    var outcome := OutcomeForStatus(Some(Str(status)));
    StandInIsAcceptable(status);
    StandInIsClean(outcome);
    s := SanitizeEvidence(Some(StandIn(outcome)), PolicyOf(RANDOMX_ID), status).value;
    EvidenceMayBeReplaced(clock, raw, requestTimestamp, v, i, StandIn(outcome), s);
  }

  /** Legacy compatibility: put any legacy evidence in the place of the RandomX evidence
      of any accepted observation, and it is accepted; only that evidence differs. */
  lemma {:induction false} LegacyFormIsAccepted(
      clock: Clock, raw: Json, requestTimestamp: int, v: Sanitized, i: nat, evidence: Json, e: EvidenceRecord)
    requires Validate(clock, raw, requestTimestamp) == Ok(v)
    requires i < |v.observation.components| && v.observation.components[i].id == RANDOMX_ID
    requires ReadLegacy(evidence) == Some(e)
    ensures raw.Obj? && Prop(raw, Components).Some? && Prop(raw, Components).value.Arr?
    ensures i < |Prop(raw, Components).value.items| && Prop(raw, Components).value.items[i].Obj?
    ensures var items, o := Prop(raw, Components).value.items, v.observation;
            ValidateAny(clock, WithItems(raw, items[i := WithEvidence(items[i], evidence)]), requestTimestamp)
            == Ok(v.(observation := o.(components := o.components[i := o.components[i].(evidence := e)])))
  {
    var o := v.observation;
    RandomxItem(clock, raw, requestTimestamp, v, i);
    var items := Prop(raw, Components).value.items;
    var s := StandInAccepted(clock, raw, requestTimestamp, v, i);
    LegacyShape(raw, items, i, evidence, e);
    var others := o.components[i := o.components[i].(evidence := s)];
    PutBackReplaces(others, e, i);
    var replaced := items[i := WithEvidence(items[i], evidence)];
    LegacyValidates(clock, WithItems(raw, replaced), requestTimestamp, i, replaced[i], evidence, e,
                    v.(observation := o.(components := others)));
    assert others[i := others[i].(evidence := e)] == o.components[i := o.components[i].(evidence := e)];
  }
}
