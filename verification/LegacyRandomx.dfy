/** The legacy form of the RandomX component: its evidence names a systemd unit
    that the registry does not know. It is validated by standing in evidence the
    registry accepts, and put back afterwards. */
module LegacyRandomx {
  import opened Wrappers
  import opened SensitiveNames
  import opened StatusPolicy
  import opened Sanitizer
  import opened Observations
  import opened StoredForm

  predicate IsRandomx(item: Json) {
    item.Obj? && Prop(item, Id) == Some(Str(RANDOMX_ID))
  }

  function RandomxPositions(items: seq<Json>): seq<nat> {
    if items == [] then []
    else
      var n := |items| - 1;
      RandomxPositions(items[..n]) + if IsRandomx(items[n]) then [n] else []
  }

  lemma {:induction false} PositionsAreExact(items: seq<Json>)
    ensures forall i :: i in RandomxPositions(items) <==> 0 <= i < |items| && IsRandomx(items[i])
  {
    if items != [] {
      var n := |items| - 1;
      PositionsAreExact(items[..n]);
      assert forall i :: 0 <= i < n ==> items[..n][i] == items[i];
      assert forall i ::
               i in RandomxPositions(items) <==> i in RandomxPositions(items[..n]) || (i == n && IsRandomx(items[n]));
    }
  }

  lemma {:induction false} NoPositions(items: seq<Json>)
    requires forall k :: 0 <= k < |items| ==> !IsRandomx(items[k])
    ensures RandomxPositions(items) == []
  {
    if items != [] {
      NoPositions(items[..|items| - 1]);
    }
  }

  lemma {:induction false} OnlyPosition(items: seq<Json>, i: nat)
    requires i < |items|
    requires forall k :: 0 <= k < |items| ==> (IsRandomx(items[k]) <==> k == i)
    ensures RandomxPositions(items) == [i]
  {
    var n := |items| - 1;
    if i == n {
      NoPositions(items[..n]);
    } else {
      OnlyPosition(items[..n], i);
    }
  }

  /** The position of the component in legacy form, if the observation has one. */
  function LegacyPosition(raw: Json): Option<nat> {
    var components := Prop(raw, Components);
    if components.None? || !components.value.Arr? then None
    else
      var items := components.value.items;
      var positions := RandomxPositions(items);
      if |positions| != 1 then None
      else
        PositionsAreExact(items);
        assert positions[0] in positions;
        var evidence := Prop(items[positions[0]], Evidence);
        if evidence.Some? && evidence.value.Obj? && Prop(evidence.value, Unit) == Some(Str(RANDOMX_UNIT))
        then Some(positions[0])
        else None
  }

  lemma {:induction false} LegacyPositionIsRandomx(raw: Json)
    requires LegacyPosition(raw).Some?
    ensures Prop(raw, Components).Some? && Prop(raw, Components).value.Arr?
    ensures var items := Prop(raw, Components).value.items;
            var i := LegacyPosition(raw).value;
            && i < |items|
            && (forall k :: 0 <= k < |items| ==> (IsRandomx(items[k]) <==> k == i))
            && Prop(items[i], Evidence).Some? && Prop(items[i], Evidence).value.Obj?
  {
    var items := Prop(raw, Components).value.items;
    PositionsAreExact(items);
    var positions := RandomxPositions(items);
    assert positions[0] in positions;
    forall k | 0 <= k < |items| && IsRandomx(items[k])
      ensures k == positions[0]
    {
      assert k in positions;
    }
  }

  const CONDITION_RESULT := Named("conditionResult")
  const UNIT_FILE_STATE := Named("unitFileState")

  const LEGACY_KEYS: set<Key> := {Authority, Summary, Unit, ActiveState, SubState, ResultKey, Facts}

  function RequireOneOf(p: Option<Json>, values: set<string>): Option<string> {
    if p.Some? && p.value.Str? && p.value.s in values then Some(p.value.s) else None
  }

  function LegacyFacts(conditionResult: string, unitFileState: string): Json {
    Obj([CONDITION_RESULT, UNIT_FILE_STATE],
        map[CONDITION_RESULT := Str(conditionResult), UNIT_FILE_STATE := Str(unitFileState)])
  }

  function ReadLegacyFacts(p: Option<Json>): Option<Json> {
    if p.None? || !HasOnly(p.value, {CONDITION_RESULT, UNIT_FILE_STATE}) then None
    else
      var conditionResult := RequireOneOf(Prop(p.value, CONDITION_RESULT), YES_NO_UNKNOWN);
      var unitFileState := RequireOneOf(Prop(p.value, UNIT_FILE_STATE), UNIT_FILE_STATES);
      if conditionResult.None? || unitFileState.None? then None
      else Some(LegacyFacts(conditionResult.value, unitFileState.value))
  }

  /** Legacy evidence in its sanitized form. */
  function ReadLegacy(evidence: Json): Option<EvidenceRecord> {
    if !HasOnly(evidence, LEGACY_KEYS) then None
    else
      var activeState := RequireOneOf(Prop(evidence, ActiveState), ACTIVE_STATES);
      var subState := RequireOneOf(Prop(evidence, SubState), SUB_STATES);
      var result := RequireOneOf(Prop(evidence, ResultKey), RESULTS);
      var facts := ReadLegacyFacts(Prop(evidence, Facts));
      if RequireString(Prop(evidence, Authority), 80) != Some(AUTHORITY)
         || RequireString(Prop(evidence, Summary), 240).None?
         || Prop(evidence, Unit) != Some(Str(RANDOMX_UNIT))
         || activeState.None? || subState.None? || result.None? || facts.None? then None
      else
        Some(EvidenceRecord(Some(RANDOMX_UNIT), activeState, subState, result, None, None, facts,
                            "RandomX MSR: " + activeState.value + "/" + subState.value))
  }

  function OutcomeForStatus(status: Option<Json>): string {
    if status == Some(Str("operational")) then "ready"
    else if status == Some(Str("degraded")) then "degraded"
    else if status == Some(Str("partial_outage")) || status == Some(Str("major_outage")) then "failed"
    else "unknown"
  }

  /** The evidence stood in for legacy evidence. */
  function StandIn(outcome: string): Json {
    Obj([Authority, Summary, Schema, Outcome, Facts],
        map[Authority := Str(AUTHORITY), Summary := Str("RandomX MSR: " + outcome),
            Schema := Str("rigos.randomx-msr-status/v1"), Outcome := Str(outcome),
            Facts := Obj([Named("verificationOutcome")], map[Named("verificationOutcome") := Str(outcome)])])
  }

  function WithEvidence(item: Json, evidence: Json): Json
    requires item.Obj?
  {
    Obj(item.order, item.fields[Evidence := evidence])
  }

  /** A copy of the observation with the evidence at position `i` stood in for. */
  function Normalized(raw: Json, i: nat): Json
    requires raw.Obj? && Prop(raw, Components).Some? && Prop(raw, Components).value.Arr?
    requires i < |Prop(raw, Components).value.items| && Prop(raw, Components).value.items[i].Obj?
  {
    var items := Prop(raw, Components).value.items;
    var item := items[i];
    Obj(raw.order, raw.fields[Components := Arr(items[i := WithEvidence(item,
        StandIn(OutcomeForStatus(Prop(item, Status))))])])
  }

  /** Overwrite the evidence of the first RandomX component. */
  function PutBack(components: seq<Component>, evidence: EvidenceRecord): seq<Component> {
    if components == [] then []
    else if components[0].id == RANDOMX_ID then [components[0].(evidence := evidence)] + components[1..]
    else [components[0]] + PutBack(components[1..], evidence)
  }

  /** Validation of an observation in either form. */
  function ValidateAny(clock: Clock, raw: Json, requestTimestamp: int): Result<Sanitized, Rejection> {
    match LegacyPosition(raw)
    case None => Validate(clock, raw, requestTimestamp)
    case Some(i) =>
      LegacyPositionIsRandomx(raw);
      var items := Prop(raw, Components).value.items;
      var evidence := ReadLegacy(Prop(items[i], Evidence).value);
      if evidence.None? then Err(InvalidObservation)
      else
        var v :- Validate(clock, Normalized(raw, i), requestTimestamp);
        var o := v.observation;
        Ok(v.(observation := o.(components := PutBack(o.components, evidence.value))))
  }

  // ----- stored observations are clean -----

  lemma {:induction false} OptionalReleaseNameIsClean(k: Key)
    requires k in RELEASE_KEYS - {Product, Version}
    ensures !IsSensitiveKey(k)
  {
    if k == ImageId {
      ImageIdIsClean();
    } else if k == ImageVersion {
      ImageVersionIsClean();
    } else if k == Channel {
      ChannelIsClean();
    } else if k == BuildId {
      BuildIdIsClean();
    } else if k == BuildCommit {
      BuildCommitIsClean();
    } else {
      ArchitectureIsClean();
    }
  }

  /** Every key at any depth is in `allowed`. */
  ghost predicate KeysWithin(j: Json, allowed: iset<Key>) {
    match j
    case Arr(items) => forall i :: 0 <= i < |items| ==> KeysWithin(items[i], allowed)
    case Obj(_, fields) => forall k :: k in fields ==> k in allowed && KeysWithin(fields[k], allowed)
    case _ => true
  }

  ghost const PUBLISHABLE: iset<Key> := iset k: Key | !IsSensitiveKey(k)

  lemma {:induction false} CleanIsKeysWithin(j: Json)
    ensures Clean(j) <==> KeysWithin(j, PUBLISHABLE)
    decreases j
  {
    match j
    case Arr(items) =>
      forall i | 0 <= i < |items|
        ensures Clean(items[i]) <==> KeysWithin(items[i], PUBLISHABLE)
      {
        CleanIsKeysWithin(items[i]);
      }
    case Obj(_, fields) =>
      forall k | k in fields
        ensures Clean(fields[k]) <==> KeysWithin(fields[k], PUBLISHABLE)
      {
        CleanIsKeysWithin(fields[k]);
      }
    case _ =>
  }

  const OPTIONAL_RELEASE_KEYS: set<Key> := {ImageId, ImageVersion, Channel, BuildId, BuildCommit, Architecture}

  lemma {:induction false} ReleaseWithin(j: Json, r: ReleaseRecord, allowed: iset<Key>)
    requires KeysWithin(j, allowed) && j.Obj? && Product in j.fields && Version in j.fields
    requires forall k :: k in OPTIONAL_RELEASE_KEYS ==> k in allowed
    ensures KeysWithin(ReleaseJson(r), allowed)
  {
    assert && ImageId in OPTIONAL_RELEASE_KEYS
           && ImageVersion in OPTIONAL_RELEASE_KEYS
           && Channel in OPTIONAL_RELEASE_KEYS;
    assert && BuildId in OPTIONAL_RELEASE_KEYS
           && BuildCommit in OPTIONAL_RELEASE_KEYS
           && Architecture in OPTIONAL_RELEASE_KEYS;
  }

  lemma {:induction false} HealthWithin(j: Json, h: HealthRecord, allowed: iset<Key>)
    requires KeysWithin(j, allowed) && SanitizeHealth(Some(j)) == Ok(h)
    ensures KeysWithin(HealthJson(h), allowed)
  {
    assert Status in j.fields && ExitCode in j.fields && Summary in j.fields;
  }

  /** A stored field was given, and unless it is a text it is stored as given. */
  ghost predicate WasGiven(j: Json, e: EvidenceRecord, k: Key) {
    EvidenceField(e, k).Some? ==>
      Prop(j, k).Some? && (EvidenceField(e, k).value.Str? || EvidenceField(e, k) == Prop(j, k))
  }

  lemma {:induction false} StoredFieldsWereGiven(
      j: Json, policy: ComponentPolicy, status: string, e: EvidenceRecord, k: Key)
    requires SanitizeEvidence(Some(j), policy, status) == Some(e) && k in EVIDENCE_KEYS
    ensures WasGiven(j, e, k)
  {
  }

  lemma {:induction false} FieldsWithin(j: Json, e: EvidenceRecord, allowed: iset<Key>)
    requires KeysWithin(j, allowed) && forall k :: k in EVIDENCE_KEYS ==> WasGiven(j, e, k)
    ensures KeysWithin(EvidenceJson(e), allowed)
  {
    var stored := EvidenceJson(e);
    forall k | k in stored.fields
      ensures k in allowed && KeysWithin(stored.fields[k], allowed)
    {
      assert WasGiven(j, e, k);
    }
  }

  lemma {:induction false} EvidenceWithin(
      j: Json, policy: ComponentPolicy, status: string, e: EvidenceRecord, allowed: iset<Key>)
    requires KeysWithin(j, allowed) && SanitizeEvidence(Some(j), policy, status) == Some(e)
    ensures KeysWithin(EvidenceJson(e), allowed)
  {
    forall k | k in EVIDENCE_KEYS
      ensures WasGiven(j, e, k)
    {
      StoredFieldsWereGiven(j, policy, status, e, k);
    }
    FieldsWithin(j, e, allowed);
  }

  lemma {:induction false} ItemWithin(
      j: Json, id: string, status: string, observedAt: string, evidence: Json, allowed: iset<Key>)
    requires KeysWithin(j, allowed) && KeysWithin(evidence, allowed) && j.Obj?
    requires Id in j.fields && Status in j.fields && ObservedAt in j.fields && Evidence in j.fields
    ensures KeysWithin(ItemJson(id, status, observedAt, evidence), allowed)
  {
  }

  lemma {:induction false} ComponentWithin(
      item: Json, observedAt: string, seen: set<string>, c: Component, allowed: iset<Key>)
    requires KeysWithin(item, allowed) && SanitizeComponent(item, observedAt, seen) == Ok(c)
    ensures KeysWithin(ComponentJson(c, observedAt), allowed)
  {
    ComponentParts(item, observedAt, seen, c);
    EvidenceWithin(Prop(item, Evidence).value, PolicyOf(c.id), c.status, c.evidence, allowed);
    ItemWithin(item, c.id, c.status, observedAt, EvidenceJson(c.evidence), allowed);
  }

  lemma {:induction false} AcceptedReleaseWithin(j: Json, r: ReleaseRecord, allowed: iset<Key>)
    requires SanitizeRelease(Some(j)) == Ok(r) && KeysWithin(j, allowed)
    requires forall k :: k in OPTIONAL_RELEASE_KEYS ==> k in allowed
    ensures KeysWithin(ReleaseJson(r), allowed)
  {
    ReleaseMeansParts(j, r);
    assert Product in j.fields && Version in j.fields;
    ReleaseWithin(j, r, allowed);
  }

  lemma {:induction false} StoredWithin(clock: Clock, raw: Json, v: Sanitized, others: seq<Json>, allowed: iset<Key>)
    requires ObservationParts(clock, raw, v) && KeysWithin(raw, allowed)
    requires forall k :: k in OPTIONAL_RELEASE_KEYS ==> k in allowed
    requires forall i :: 0 <= i < |others| ==> KeysWithin(others[i], allowed)
    ensures KeysWithin(ObservationJson(v.observation, others), allowed)
  {
    var o := v.observation;
    assert Release in raw.fields && Health in raw.fields && Components in raw.fields;
    AcceptedReleaseWithin(raw.fields[Release], o.release, allowed);
    HealthWithin(raw.fields[Health], o.health, allowed);
    ObservationWithin(raw, o, others, allowed);
  }

  lemma {:induction false} ObservationWithin(raw: Json, o: Observation, others: seq<Json>, allowed: iset<Key>)
    requires KeysWithin(raw, allowed) && raw.Obj?
    requires Schema in raw.fields && ObservedAt in raw.fields && SourceId in raw.fields && BootIdHash in raw.fields
    requires Release in raw.fields && Health in raw.fields && Components in raw.fields
    requires KeysWithin(ReleaseJson(o.release), allowed) && KeysWithin(HealthJson(o.health), allowed)
    requires forall i :: 0 <= i < |others| ==> KeysWithin(others[i], allowed)
    ensures KeysWithin(ObservationJson(o, others), allowed)
  {
  }

  lemma {:induction false} PublishableReleaseNames()
    ensures forall k :: k in OPTIONAL_RELEASE_KEYS ==> k in PUBLISHABLE
  {
    forall k | k in OPTIONAL_RELEASE_KEYS
      ensures k in PUBLISHABLE
    {
      OptionalReleaseNameIsClean(k);
    }
  }
}
