/** Whole observations: validation, the legacy RandomX form, the overall status,
    and the proof that what is stored validates to itself. */
module Observations {
  import opened Counting
  import opened Wrappers
  import opened StatusPolicy
  import opened Sanitizer

  // ----- release and health -----

  const RELEASE_KEYS: set<Key> := {Product, Version, ImageId, ImageVersion, Channel, BuildId, BuildCommit, Architecture}

  function SanitizeRelease(p: Option<Json>): Result<ReleaseRecord, Rejection> {
    if p.None? || !HasOnly(p.value, RELEASE_KEYS) then Err(InvalidObservation)
    else if Prop(p.value, Product) != Some(Str(PRODUCT)) then Err(InvalidProduct)
    else
      var j := p.value;
      var version := RequireToken(Prop(j, Version), 128);
      var imageId := OptionalString(Prop(j, ImageId), 128);
      var imageVersion := OptionalToken(Prop(j, ImageVersion), 128);
      var channel := OptionalToken(Prop(j, Channel), 32);
      var buildId := OptionalToken(Prop(j, BuildId), 128);
      var buildCommit := OptionalString(Prop(j, BuildCommit), 40);
      var architecture := OptionalString(Prop(j, Architecture), 64);
      if version.None? || imageId.None? || imageVersion.None? || channel.None? || buildId.None?
         || buildCommit.None? || architecture.None? then Err(InvalidObservation)
      else if imageId.value.Some? && imageId.value.value != IMAGE_ID then Err(InvalidProduct)
      else if buildCommit.value.Some? && !LowerHex(buildCommit.value.value, 40) then Err(InvalidObservation)
      else if architecture.value.Some? && architecture.value.value != ARCHITECTURE then Err(InvalidObservation)
      else Ok(ReleaseRecord(version.value, imageId.value, imageVersion.value, channel.value, buildId.value,
                            buildCommit.value, architecture.value))
  }

  const HEALTH_STATUS: set<string> := {"ok", "degraded", "failed", "unavailable"}

  predicate ExitCodeAllowed(j: Json) {
    j.Null? || (j.Num? && IsInteger(j.n) && 0.0 <= j.n <= 255.0)
  }

  function HealthSummary(status: string, exitCode: Option<real>): string {
    if status == "ok" && exitCode == Some(0.0) then "rig health completed successfully"
    else "rig health reported " + status
  }

  function SanitizeHealth(p: Option<Json>): Result<HealthRecord, Rejection> {
    if p.None? || !HasOnly(p.value, {Status, ExitCode, Summary}) then Err(InvalidObservation)
    else
      var status, code := Prop(p.value, Status), Prop(p.value, ExitCode);
      if status.None? || !status.value.Str? || status.value.s !in HEALTH_STATUS then Err(InvalidObservation)
      else if code.None? || !ExitCodeAllowed(code.value) then Err(InvalidObservation)
      else if RequireString(Prop(p.value, Summary), 240).None? then Err(InvalidObservation)
      else
        var exitCode := if code.value.Num? then Some(code.value.n) else None;
        Ok(HealthRecord(status.value.s, exitCode, HealthSummary(status.value.s, exitCode)))
  }

  // ----- validation -----

  function Distance(a: int, b: int): nat {
    if a >= b then a - b else b - a
  }

  const OBSERVATION_KEYS: set<Key> := {Schema, ObservedAt, SourceId, BootIdHash, Release, Health, Components}

  /** The observed second, if the observation names one in the accepted form. */
  function ReadTime(clock: Clock, raw: Json): Option<int> {
    var text := RequireString(Prop(raw, ObservedAt), 64);
    if text.None? then None else clock(text.value)
  }

  function RequireHash(p: Option<Json>): Option<string> {
    var text := RequireString(p, 64);
    if text.Some? && LowerHex(text.value, 64) then text else None
  }

  function SanitizeRegistry(p: Option<Json>, observedAt: string): Result<seq<Component>, Rejection> {
    if p.None? || !p.value.Arr? || |p.value.items| != |COMPONENT_IDS| then Err(ComponentRegistryMismatch)
    else
      var components :- VisitAll(p.value.items, {}, ComponentVisitor(observedAt));
      if |SetOf(Ids(components))| != |COMPONENT_IDS| then Err(ComponentRegistryMismatch)
      else Ok(components)
  }

  function Validate(clock: Clock, raw: Json, requestTimestamp: int): Result<Sanitized, Rejection> {
    if !raw.Obj? then Err(InvalidObservation)
    else if !Clean(raw) then Err(PrivateFieldRejected)
    else if !HasOnly(raw, OBSERVATION_KEYS) then Err(InvalidObservation)
    else if Prop(raw, Schema) != Some(Str(OBSERVATION_SCHEMA)) then Err(UnsupportedSchema)
    else
      var observed := ReadTime(clock, raw);
      if observed.None? then Err(InvalidObservation)
      else if Distance(observed.value, requestTimestamp) > MAX_CLOCK_SKEW then Err(ObservationClockSkew)
      else
        var sourceId, bootIdHash := RequireHash(Prop(raw, SourceId)), RequireHash(Prop(raw, BootIdHash));
        if sourceId.None? || bootIdHash.None? then Err(InvalidObservation)
        else
          var observedAt := Prop(raw, ObservedAt).value.s;
          var release :- SanitizeRelease(Prop(raw, Release));
          var health :- SanitizeHealth(Prop(raw, Health));
          var components :- SanitizeRegistry(Prop(raw, Components), observedAt);
          Ok(Sanitized(observed.value,
                       Observation(observedAt, sourceId.value, bootIdHash.value, release, health, components)))
  }

  // ----- overall status -----

  function Severity(status: string): nat {
    if status == "operational" then 0
    else if status == "unknown" then 1
    else if status == "degraded" then 2
    else if status == "partial_outage" then 3
    else 4
  }

  function Worse(a: string, b: string): string {
    if Severity(b) > Severity(a) then b else a
  }

  function Worst(components: seq<Component>): string {
    if components == [] then "operational"
    else Worse(Worst(components[..|components| - 1]), components[|components| - 1].status)
  }

  /** The running maximum over the components. */
  method WorstComponentStatus(components: seq<Component>) returns (status: string)
    ensures status == Worst(components)
  {
    status := "operational";
    for i := 0 to |components|
      invariant status == Worst(components[..i])
    {
      assert components[..i + 1][..i] == components[..i];
      if Severity(components[i].status) > Severity(status) {
        status := components[i].status;
      }
    }
    assert components[..|components|] == components;
  }

  /** `status` is one of the statuses, or "operational", and none is more severe. */
  ghost predicate IsMostSevere(status: string, components: seq<Component>) {
    && (status == "operational" || exists i :: 0 <= i < |components| && components[i].status == status)
    && forall i :: 0 <= i < |components| ==> Severity(components[i].status) <= Severity(status)
  }

  lemma {:induction false} WorstIsMostSevere(components: seq<Component>)
    ensures IsMostSevere(Worst(components), components)
  {
    if components != [] {
      var shorter := components[..|components| - 1];
      WorstIsMostSevere(shorter);
      assert forall i :: 0 <= i < |shorter| ==> components[i] == shorter[i];
    }
  }

  ghost predicate KnownStatuses(components: seq<Component>) {
    forall i :: 0 <= i < |components| ==> components[i].status in COMPONENT_STATUS
  }

  /** The overall status is determined by the set of components, so their order
      and repetitions do not matter. */
  lemma {:induction false} WorstIgnoresOrder(a: seq<Component>, b: seq<Component>)
    requires KnownStatuses(a) && KnownStatuses(b)
    requires forall c :: c in a <==> c in b
    ensures Worst(a) == Worst(b)
  {
    WorstIsMostSevere(a);
    WorstIsMostSevere(b);
    var x, y := Worst(a), Worst(b);
    assert Severity(x) == Severity(y) by {
      forall i | 0 <= i < |a| ensures Severity(a[i].status) <= Severity(y) { assert a[i] in b; }
      forall i | 0 <= i < |b| ensures Severity(b[i].status) <= Severity(x) { assert b[i] in a; }
    }
    assert x in COMPONENT_STATUS && y in COMPONENT_STATUS;
    SeverityIsInjective(x, y);
  }

  lemma {:induction false} SeverityIsInjective(a: string, b: string)
    requires a in COMPONENT_STATUS && b in COMPONENT_STATUS && Severity(a) == Severity(b)
    ensures a == b
  {
  }

  // ----- the component registry -----

  lemma {:induction false} ComponentIsRegistered(item: Json, seen: set<string>, observedAt: string)
    requires SanitizeComponent(item, observedAt, seen).Ok?
    ensures var c := SanitizeComponent(item, observedAt, seen).value;
            c.id in COMPONENT_IDS && c.id !in seen && c.status in COMPONENT_STATUS
  {
  }

  lemma {:induction false} VisitedIdsAreRegistered(items: seq<Json>, seen: set<string>, observedAt: string)
    requires VisitAll(items, seen, ComponentVisitor(observedAt)).Ok?
    ensures var components := VisitAll(items, seen, ComponentVisitor(observedAt)).value;
            && |components| == |items|
            && KnownStatuses(components)
            && forall c :: c in components ==> c.id in COMPONENT_IDS
  {
    if items != [] {
      var first := ComponentVisitor(observedAt)(items[0], seen).value;
      ComponentIsRegistered(items[0], seen, observedAt);
      VisitedIdsAreRegistered(items[1..], seen + {first.id}, observedAt);
    }
  }

  lemma {:induction false} IdsAreOfComponents(components: seq<Component>)
    ensures forall i :: 0 <= i < |components| ==> Ids(components)[i] == components[i].id
  {
    if components != [] {
      IdsAreOfComponents(components[..|components| - 1]);
    }
  }

  /** The components are those of `registry`, each once, with known statuses. */
  ghost predicate Covers(components: seq<Component>, registry: seq<string>) {
    multiset(Ids(components)) == multiset(registry) && KnownStatuses(components)
  }

  lemma {:induction false} RegistryIsPermutation(
      p: Option<Json>, observedAt: string, components: seq<Component>, registry: seq<string>)
    requires SanitizeRegistry(p, observedAt) == Ok(components) && registry == COMPONENT_IDS
    ensures Covers(components, registry)
  {
    VisitedIdsAreRegistered(p.value.items, {}, observedAt);
    IdsAreOfComponents(components);
    FullSelectionIsPermutation(Ids(components), registry);
  }
}
