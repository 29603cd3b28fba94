/** What is stored validates to itself: sanitizing is idempotent through the
    stored payload, for the present and for the legacy RandomX form. */
module StoredForm {
  import opened Wrappers
  import opened StatusPolicy
  import opened Sanitizer
  import opened Observations

  lemma {:induction false} OptionalReadsBack(p: Option<Json>, maximum: nat)
    requires OptionalString(p, maximum).Some?
    ensures OptionalString(AsProp(OptionalString(p, maximum).value), maximum) == OptionalString(p, maximum)
  {
  }

  lemma {:induction false} FactsReadBack(p: Option<Json>, policy: ComponentPolicy)
    requires SanitizeFacts(p, policy).Some?
    ensures SanitizeFacts(SanitizeFacts(p, policy).value, policy) == SanitizeFacts(p, policy)
  {
  }

  // ----- evidence -----

  lemma {:induction false} SpacedKeepsLength(status: string)
    ensures |Spaced(status)| == |status|
  {
    if status != "" {
      SpacedKeepsLength(status[1..]);
    }
  }

  lemma {:induction false} FirstFactIsBrief(p: Option<Json>, policy: ComponentPolicy)
    requires SanitizeFacts(p, policy).Some? && Brief(policy)
    ensures var first := FirstFact(SanitizeFacts(p, policy).value);
            first.Some? && first.value.Str? ==> |first.value.s| <= 64
  {
    var facts := SanitizeFacts(p, policy).value;
    var first := FirstFact(facts);
    if first.Some? && first.value.Str? {
      var k := facts.value.order[0];
      assert AllowedFact(k, facts.value.fields[k], policy);
      assert BriefRule(policy.facts[k.name]);
    }
  }

  lemma {:induction false} OptionalIsShort(p: Option<Json>, maximum: nat)
    requires OptionalString(p, maximum).Some?
    ensures var text := OptionalString(p, maximum).value; text.Some? ==> 1 <= |text.value| <= maximum
  {
  }

  lemma {:induction false} DetailIsBrief(j: Json, policy: ComponentPolicy, status: string, e: EvidenceRecord)
    requires SanitizeEvidence(Some(j), policy, status) == Some(e) && Brief(policy) && |status| <= 64
    ensures |Detail(status, e)| <= 161
  {
    OptionalIsShort(Prop(j, Outcome), 128);
    OptionalIsShort(Prop(j, ActiveState), 80);
    OptionalIsShort(Prop(j, SubState), 80);
    FirstFactIsBrief(Prop(j, Facts), policy);
    SpacedKeepsLength(status);
  }

  /** An object with the properties of stored evidence. */
  ghost predicate HoldsEvidence(j: Json, e: EvidenceRecord) {
    && HasOnly(j, EVIDENCE_KEYS)
    && Prop(j, Authority) == Some(Str(AUTHORITY))
    && Prop(j, Unit) == AsProp(e.unit)
    && Prop(j, ActiveState) == AsProp(e.activeState)
    && Prop(j, SubState) == AsProp(e.subState)
    && Prop(j, ResultKey) == AsProp(e.result)
    && Prop(j, Schema) == AsProp(e.schema)
    && Prop(j, Outcome) == AsProp(e.outcome)
    && Prop(j, Facts) == e.facts
    && Prop(j, Summary) == Some(Str(e.summary))
  }

  lemma {:induction false} FieldLookup(e: EvidenceRecord, k: Key)
    requires k in EVIDENCE_KEYS
    ensures Prop(EvidenceJson(e), k) == EvidenceField(e, k)
  {
  }

  lemma {:induction false} EvidenceFields(e: EvidenceRecord)
    ensures HoldsEvidence(EvidenceJson(e), e)
  {
    LookupRequired(e, EvidenceJson(e));
    LookupOptional(e, EvidenceJson(e));
  }

  lemma {:induction false} LookupRequired(e: EvidenceRecord, j: Json)
    requires j == EvidenceJson(e)
    ensures HasOnly(j, EVIDENCE_KEYS)
    ensures && Prop(j, Authority) == Some(Str(AUTHORITY))
            && Prop(j, Summary) == Some(Str(e.summary))
            && Prop(j, Facts) == e.facts
  {
    FieldLookup(e, Authority);
    FieldLookup(e, Summary);
    FieldLookup(e, Facts);
  }

  lemma {:induction false} LookupOptional(e: EvidenceRecord, j: Json)
    requires j == EvidenceJson(e)
    ensures Prop(j, Unit) == AsProp(e.unit) && Prop(j, ActiveState) == AsProp(e.activeState)
    ensures Prop(j, SubState) == AsProp(e.subState) && Prop(j, ResultKey) == AsProp(e.result)
    ensures Prop(j, Schema) == AsProp(e.schema) && Prop(j, Outcome) == AsProp(e.outcome)
  {
    FieldLookup(e, Unit);
    FieldLookup(e, ActiveState);
    FieldLookup(e, SubState);
    FieldLookup(e, ResultKey);
    FieldLookup(e, Schema);
    FieldLookup(e, Outcome);
  }

  lemma {:induction false} ReadsBack(j: Json, stored: Json, policy: ComponentPolicy, e: EvidenceRecord, summary: string)
    requires ReadEvidence(j, policy) == Some(e) && 1 <= |summary| <= 240
    requires HoldsEvidence(stored, e.(summary := summary))
    ensures ReadEvidence(stored, policy) == Some(e)
  {
    OptionalReadsBack(Prop(j, Unit), 160);
    OptionalReadsBack(Prop(j, ActiveState), 80);
    OptionalReadsBack(Prop(j, SubState), 80);
    OptionalReadsBack(Prop(j, ResultKey), 80);
    OptionalReadsBack(Prop(j, Schema), 160);
    OptionalReadsBack(Prop(j, Outcome), 128);
    FactsReadBack(Prop(j, Facts), policy);
  }

  /** Sanitized evidence, stored and sanitized again, is unchanged, summary included. */
  lemma {:induction false} EvidenceReadsBack(j: Json, policy: ComponentPolicy, status: string, e: EvidenceRecord)
    requires SanitizeEvidence(Some(j), policy, status) == Some(e) && Brief(policy) && |status| <= 64
    ensures SanitizeEvidence(Some(EvidenceJson(e)), policy, status) == Some(e)
  {
    EvidenceFields(e);
    DetailIsBrief(j, policy, status, e);
    ReadsBack(j, EvidenceJson(e), policy, ReadEvidence(j, policy).value, e.summary);
  }

  // ----- components -----

  lemma {:induction false} StatusesAreShort(status: string)
    requires status in COMPONENT_STATUS
    ensures |status| <= 64
  {
  }

  lemma {:induction false} ItemFields(id: string, status: string, observedAt: string, evidence: Json)
    ensures var j := ItemJson(id, status, observedAt, evidence);
            && HasOnly(j, {Id, Status, ObservedAt, Evidence})
            && Prop(j, Id) == Some(Str(id)) && Prop(j, Status) == Some(Str(status))
            && Prop(j, ObservedAt) == Some(Str(observedAt)) && Prop(j, Evidence) == Some(evidence)
  {
  }

  lemma {:induction false} NamedAccepted(item: Json, observedAt: string, c: Component)
    requires Prop(item, Status) == Some(Str(c.status)) && Prop(item, ObservedAt) == Some(Str(observedAt))
    requires c.status in COMPONENT_STATUS
    requires SanitizeEvidence(Prop(item, Evidence), PolicyOf(c.id), c.status) == Some(c.evidence)
    ensures SanitizeNamed(item, c.id, observedAt) == Ok(c)
  {
  }

  /** A component is accepted if its parts are, whatever object they come in. */
  lemma {:induction false} ComponentAccepted(item: Json, observedAt: string, seen: set<string>, c: Component)
    requires HasOnly(item, {Id, Status, ObservedAt, Evidence})
    requires Prop(item, Id) == Some(Str(c.id)) && Prop(item, Status) == Some(Str(c.status))
    requires Prop(item, ObservedAt) == Some(Str(observedAt)) && Prop(item, Evidence).Some?
    requires 1 <= |c.id| <= 80 && c.id in COMPONENT_IDS && c.id !in seen && c.status in COMPONENT_STATUS
    requires SanitizeEvidence(Prop(item, Evidence), PolicyOf(c.id), c.status) == Some(c.evidence)
    ensures SanitizeComponent(item, observedAt, seen) == Ok(c)
  {
    NamedAccepted(item, observedAt, c);
    assert RequireString(Prop(item, Id), 80) == Some(c.id);
  }

  /** What acceptance of a component says about it. */
  lemma {:induction false} ComponentParts(item: Json, observedAt: string, seen: set<string>, c: Component)
    requires SanitizeComponent(item, observedAt, seen) == Ok(c)
    ensures HasOnly(item, {Id, Status, ObservedAt, Evidence}) && Prop(item, Evidence).Some?
    ensures Prop(item, Id) == Some(Str(c.id)) && Prop(item, Status) == Some(Str(c.status))
    ensures Prop(item, ObservedAt) == Some(Str(observedAt))
    ensures 1 <= |c.id| <= 80 && c.id in COMPONENT_IDS && c.id !in seen && c.status in COMPONENT_STATUS
    ensures SanitizeEvidence(Prop(item, Evidence), PolicyOf(c.id), c.status) == Some(c.evidence)
  {
  }

  lemma {:induction false} ComponentReadsBack(item: Json, observedAt: string, seen: set<string>, c: Component)
    requires SanitizeComponent(item, observedAt, seen) == Ok(c)
    ensures SanitizeComponent(ComponentJson(c, observedAt), observedAt, seen) == Ok(c)
  {
    ComponentParts(item, observedAt, seen, c);
    StatusesAreShort(c.status);
    EvidenceReadsBack(Prop(item, Evidence).value, PolicyOf(c.id), c.status, c.evidence);
    ItemFields(c.id, c.status, observedAt, EvidenceJson(c.evidence));
    ComponentAccepted(ComponentJson(c, observedAt), observedAt, seen, c);
  }

  /** Visiting other items gives the same components if each single visit does. */
  lemma {:induction false} VisitsAgree(
      items: seq<Json>, others: seq<Json>, seen: set<string>, visit: Visitor, components: seq<Component>)
    requires VisitAll(items, seen, visit) == Ok(components)
    requires |others| == |items| == |components|
    requires forall i, ids ::
               0 <= i < |items| && visit(items[i], ids) == Ok(components[i]) ==>
                 visit(others[i], ids) == Ok(components[i])
    ensures VisitAll(others, seen, visit) == Ok(components)
    decreases |items|
  {
    if items != [] {
      var first := visit(items[0], seen).value;
      assert components[0] == first && components[1..] == VisitAll(items[1..], seen + {first.id}, visit).value;
      forall i, ids | 0 <= i < |items| - 1 && visit(items[1..][i], ids) == Ok(components[1..][i])
        ensures visit(others[1..][i], ids) == Ok(components[1..][i])
      {
        assert visit(items[i + 1], ids) == Ok(components[i + 1]);
      }
      VisitsAgree(items[1..], others[1..], seen + {first.id}, visit, components[1..]);
    }
  }

  lemma {:induction false} VisitKeepsLength(items: seq<Json>, seen: set<string>, visit: Visitor)
    requires VisitAll(items, seen, visit).Ok?
    ensures |VisitAll(items, seen, visit).value| == |items|
    decreases |items|
  {
    if items != [] {
      VisitKeepsLength(items[1..], seen + {visit(items[0], seen).value.id}, visit);
    }
  }

  /** `other` stands for the same component as `item`, in every position. */
  ghost predicate SameComponent(item: Json, other: Json, observedAt: string, c: Component) {
    forall seen ::
      SanitizeComponent(item, observedAt, seen) == Ok(c) ==> SanitizeComponent(other, observedAt, seen) == Ok(c)
  }

  lemma {:induction false} RegistryAgrees(
      p: Option<Json>, observedAt: string, others: seq<Json>, components: seq<Component>)
    requires SanitizeRegistry(p, observedAt) == Ok(components)
    requires |others| == |components| == |p.value.items|
    requires forall i :: 0 <= i < |others| ==> SameComponent(p.value.items[i], others[i], observedAt, components[i])
    ensures SanitizeRegistry(Some(Arr(others)), observedAt) == Ok(components)
  {
    var items, visit := p.value.items, ComponentVisitor(observedAt);
    forall i, ids | 0 <= i < |items| && visit(items[i], ids) == Ok(components[i])
      ensures visit(others[i], ids) == Ok(components[i])
    {
      assert SameComponent(items[i], others[i], observedAt, components[i]);
    }
    VisitsAgree(items, others, {}, visit, components);
  }

  // ----- release and health -----

  /** The fields an accepted release has. */
  ghost predicate ReleaseParts(j: Json, r: ReleaseRecord) {
    && HasOnly(j, RELEASE_KEYS)
    && Prop(j, Product) == Some(Str(PRODUCT))
    && RequireToken(Prop(j, Version), 128) == Some(r.version)
    && OptionalString(Prop(j, ImageId), 128) == Some(r.imageId)
    && OptionalToken(Prop(j, ImageVersion), 128) == Some(r.imageVersion)
    && OptionalToken(Prop(j, Channel), 32) == Some(r.channel)
    && OptionalToken(Prop(j, BuildId), 128) == Some(r.buildId)
    && OptionalString(Prop(j, BuildCommit), 40) == Some(r.buildCommit)
    && OptionalString(Prop(j, Architecture), 64) == Some(r.architecture)
    && (r.imageId.Some? ==> r.imageId.value == IMAGE_ID)
    && (r.buildCommit.Some? ==> LowerHex(r.buildCommit.value, 40))
    && (r.architecture.Some? ==> r.architecture.value == ARCHITECTURE)
  }

  lemma {:induction false} ReleaseMeansParts(j: Json, r: ReleaseRecord)
    ensures SanitizeRelease(Some(j)) == Ok(r) <==> ReleaseParts(j, r)
  {
  }

  lemma {:induction false} TextOrNullReadsBack(p: Option<Json>, maximum: nat, text: Option<string>)
    requires OptionalString(p, maximum) == Some(text)
    ensures OptionalString(Some(OrNull(text)), maximum) == Some(text)
  {
  }

  lemma {:induction false} TokenOrNullReadsBack(p: Option<Json>, maximum: nat, text: Option<string>)
    requires OptionalToken(p, maximum) == Some(text)
    ensures OptionalToken(Some(OrNull(text)), maximum) == Some(text)
  {
  }

  lemma {:induction false} ReleaseFields(r: ReleaseRecord, j: Json)
    requires j == ReleaseJson(r)
    ensures HasOnly(j, RELEASE_KEYS)
    ensures Prop(j, Product) == Some(Str(PRODUCT)) && Prop(j, Version) == Some(Str(r.version))
    ensures Prop(j, ImageId) == Some(OrNull(r.imageId)) && Prop(j, ImageVersion) == Some(OrNull(r.imageVersion))
    ensures Prop(j, Channel) == Some(OrNull(r.channel)) && Prop(j, BuildId) == Some(OrNull(r.buildId))
    ensures Prop(j, BuildCommit) == Some(OrNull(r.buildCommit)) && Prop(j, Architecture) == Some(OrNull(r.architecture))
  {
  }

  lemma {:induction false} ReleaseReadsBack(p: Option<Json>, r: ReleaseRecord)
    requires SanitizeRelease(p) == Ok(r)
    ensures SanitizeRelease(Some(ReleaseJson(r))) == Ok(r)
  {
    var j, stored := p.value, ReleaseJson(r);
    ReleaseMeansParts(j, r);
    ReleaseMeansParts(stored, r);
    ReleaseFields(r, stored);
    TextOrNullReadsBack(Prop(j, ImageId), 128, r.imageId);
    TokenOrNullReadsBack(Prop(j, ImageVersion), 128, r.imageVersion);
    TokenOrNullReadsBack(Prop(j, Channel), 32, r.channel);
    TokenOrNullReadsBack(Prop(j, BuildId), 128, r.buildId);
    TextOrNullReadsBack(Prop(j, BuildCommit), 40, r.buildCommit);
    TextOrNullReadsBack(Prop(j, Architecture), 64, r.architecture);
  }

  lemma {:induction false} HealthReadsBack(p: Option<Json>, h: HealthRecord)
    requires SanitizeHealth(p) == Ok(h)
    ensures SanitizeHealth(Some(HealthJson(h))) == Ok(h)
  {
  }

  // ----- whole observations -----

  lemma {:induction false} ObservationFields(o: Observation, items: seq<Json>)
    ensures var j := ObservationJson(o, items);
            && HasOnly(j, OBSERVATION_KEYS)
            && Prop(j, Schema) == Some(Str(OBSERVATION_SCHEMA)) && Prop(j, ObservedAt) == Some(Str(o.observedAt))
            && Prop(j, SourceId) == Some(Str(o.sourceId)) && Prop(j, BootIdHash) == Some(Str(o.bootIdHash))
            && Prop(j, Release) == Some(ReleaseJson(o.release)) && Prop(j, Health) == Some(HealthJson(o.health))
            && Prop(j, Components) == Some(Arr(items))
  {
  }

  /** The parts of an accepted observation. */
  ghost predicate ObservationParts(clock: Clock, j: Json, v: Sanitized) {
    && j.Obj?
    && Clean(j)
    && HasOnly(j, OBSERVATION_KEYS)
    && Prop(j, Schema) == Some(Str(OBSERVATION_SCHEMA))
    && Prop(j, ObservedAt) == Some(Str(v.observation.observedAt))
    && ReadTime(clock, j) == Some(v.observedUnix)
    && RequireHash(Prop(j, SourceId)) == Some(v.observation.sourceId)
    && RequireHash(Prop(j, BootIdHash)) == Some(v.observation.bootIdHash)
    && SanitizeRelease(Prop(j, Release)) == Ok(v.observation.release)
    && SanitizeHealth(Prop(j, Health)) == Ok(v.observation.health)
    && SanitizeRegistry(Prop(j, Components), v.observation.observedAt) == Ok(v.observation.components)
  }

  lemma {:induction false} ValidateMeansParts(clock: Clock, j: Json, requestTimestamp: int, v: Sanitized)
    ensures Validate(clock, j, requestTimestamp) == Ok(v) <==>
            ObservationParts(clock, j, v) && Distance(v.observedUnix, requestTimestamp) <= MAX_CLOCK_SKEW
  {
  }

  /** `others` stand for the same components as those of `raw`. */
  ghost predicate SameComponents(raw: Json, others: seq<Json>, o: Observation) {
    var p := Prop(raw, Components);
    && p.Some? && p.value.Arr?
    && |others| == |o.components| == |p.value.items|
    && forall i :: 0 <= i < |others| ==> SameComponent(p.value.items[i], others[i], o.observedAt, o.components[i])
  }

  /** An accepted observation, stored with equivalent components, is accepted
      again at its own time and gives the same result. */
  lemma {:induction false} ObservationAgrees(
      clock: Clock, raw: Json, requestTimestamp: int, v: Sanitized, others: seq<Json>)
    requires Validate(clock, raw, requestTimestamp) == Ok(v)
    requires Clean(ObservationJson(v.observation, others))
    requires SameComponents(raw, others, v.observation)
    ensures Validate(clock, ObservationJson(v.observation, others), v.observedUnix) == Ok(v)
  {
    var o, stored := v.observation, ObservationJson(v.observation, others);
    ValidateMeansParts(clock, raw, requestTimestamp, v);
    ValidateMeansParts(clock, stored, v.observedUnix, v);
    ObservationFields(o, others);
    ReleaseReadsBack(Prop(raw, Release), o.release);
    HealthReadsBack(Prop(raw, Health), o.health);
    RegistryAgrees(Prop(raw, Components), o.observedAt, others, o.components);
  }
}
