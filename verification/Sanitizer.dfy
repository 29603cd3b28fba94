/** Validation and sanitizing of status observations: what is accepted, and the
    canonical form that is stored and published. */
module Sanitizer {
  import opened Counting
  import opened Wrappers
  import opened StatusPolicy

  const MAX_CLOCK_SKEW := 300

  datatype Rejection =
    | InvalidObservation
    | PrivateFieldRejected
    | UnsupportedSchema
    | ObservationClockSkew
    | InvalidProduct
    | ComponentRegistryMismatch

  /** Reads an ISO-8601 UTC timestamp as whole seconds; `None` if it is not one. */
  type Clock = string -> Option<int>

  // ----- sanitized observations -----

  /** The authority of accepted evidence is always the status agent. */
  datatype EvidenceRecord = EvidenceRecord(
    unit: Option<string>,
    activeState: Option<string>,
    subState: Option<string>,
    result: Option<string>,
    schema: Option<string>,
    outcome: Option<string>,
    facts: Option<Json>,
    summary: string)

  datatype Component = Component(id: string, status: string, evidence: EvidenceRecord)

  datatype ReleaseRecord = ReleaseRecord(
    version: string,
    imageId: Option<string>,
    imageVersion: Option<string>,
    channel: Option<string>,
    buildId: Option<string>,
    buildCommit: Option<string>,
    architecture: Option<string>)

  datatype HealthRecord = HealthRecord(status: string, exitCode: Option<real>, summary: string)

  /** Every component carries the observation's own time. */
  datatype Observation = Observation(
    observedAt: string,
    sourceId: string,
    bootIdHash: string,
    release: ReleaseRecord,
    health: HealthRecord,
    components: seq<Component>)

  datatype Sanitized = Sanitized(observedUnix: int, observation: Observation)

  const OBSERVATION_SCHEMA := "rigos.status-observation/v1"
  const AUTHORITY := "rigos-status-agent"
  const PRODUCT := "RIGOS"
  const IMAGE_ID := "rigos-usb-amd64"
  const ARCHITECTURE := "x86_64"

  // ----- serialisation of what is stored -----

  function AsProp(text: Option<string>): Option<Json> {
    if text.Some? then Some(Str(text.value)) else None
  }

  /** A property of stored evidence; absent fields are left out. */
  function EvidenceField(e: EvidenceRecord, k: Key): Option<Json> {
    match k
    case Authority => Some(Str(AUTHORITY))
    case Unit => AsProp(e.unit)
    case ActiveState => AsProp(e.activeState)
    case SubState => AsProp(e.subState)
    case ResultKey => AsProp(e.result)
    case Schema => AsProp(e.schema)
    case Outcome => AsProp(e.outcome)
    case Facts => e.facts
    case Summary => Some(Str(e.summary))
    case _ => None
  }

  const EVIDENCE_KEYS: set<Key> := {Authority, Summary, Unit, ActiveState, SubState, ResultKey, Schema, Outcome, Facts}

  function KeyIfPresent(e: EvidenceRecord, k: Key): seq<Key> {
    if EvidenceField(e, k).Some? then [k] else []
  }

  function EvidenceOrder(e: EvidenceRecord): seq<Key> {
    [Authority] + KeyIfPresent(e, Unit) + KeyIfPresent(e, ActiveState) + KeyIfPresent(e, SubState)
    + KeyIfPresent(e, ResultKey) + KeyIfPresent(e, Schema) + KeyIfPresent(e, Outcome)
    + KeyIfPresent(e, Facts) + [Summary]
  }

  function EvidenceJson(e: EvidenceRecord): Json {
    Obj(EvidenceOrder(e), map k | k in EVIDENCE_KEYS && EvidenceField(e, k).Some? :: EvidenceField(e, k).value)
  }

  function ItemJson(id: string, status: string, observedAt: string, evidence: Json): Json {
    Obj([Id, Status, ObservedAt, Evidence],
        map[Id := Str(id), Status := Str(status), ObservedAt := Str(observedAt), Evidence := evidence])
  }

  function ComponentJson(c: Component, observedAt: string): Json {
    ItemJson(c.id, c.status, observedAt, EvidenceJson(c.evidence))
  }

  function ComponentsJson(components: seq<Component>, observedAt: string): seq<Json> {
    seq(|components|, i requires 0 <= i < |components| => ComponentJson(components[i], observedAt))
  }

  function OrNull(text: Option<string>): Json {
    if text.Some? then Str(text.value) else Null
  }

  function ReleaseJson(r: ReleaseRecord): Json {
    Obj([Product, Version, ImageId, ImageVersion, Channel, BuildId, BuildCommit, Architecture],
        map[Product := Str(PRODUCT), Version := Str(r.version), ImageId := OrNull(r.imageId),
            ImageVersion := OrNull(r.imageVersion), Channel := OrNull(r.channel), BuildId := OrNull(r.buildId),
            BuildCommit := OrNull(r.buildCommit), Architecture := OrNull(r.architecture)])
  }

  function HealthJson(h: HealthRecord): Json {
    Obj([Status, ExitCode, Summary],
        map[Status := Str(h.status), ExitCode := if h.exitCode.Some? then Num(h.exitCode.value) else Null,
            Summary := Str(h.summary)])
  }

  function ObservationJson(o: Observation, items: seq<Json>): Json {
    Obj([Schema, ObservedAt, SourceId, BootIdHash, Release, Health, Components],
        map[Schema := Str(OBSERVATION_SCHEMA), ObservedAt := Str(o.observedAt), SourceId := Str(o.sourceId),
            BootIdHash := Str(o.bootIdHash), Release := ReleaseJson(o.release), Health := HealthJson(o.health),
            Components := Arr(items)])
  }

  /** The stored payload, parsed again. */
  function ToJson(o: Observation): Json {
    ObservationJson(o, ComponentsJson(o.components, o.observedAt))
  }

  // ----- elementary checks -----

  function RequireString(p: Option<Json>, maximum: nat): Option<string> {
    if p.Some? && p.value.Str? && 1 <= |p.value.s| <= maximum then Some(p.value.s) else None
  }

  /** An absent or null string is allowed; a present one must fit. */
  function OptionalString(p: Option<Json>, maximum: nat): Option<Option<string>> {
    if Nullish(p) then Some(None)
    else if RequireString(p, maximum).Some? then Some(RequireString(p, maximum))
    else None
  }

  predicate TokenStart(c: char) {
    'A' <= c <= 'Z' || 'a' <= c <= 'z' || '0' <= c <= '9'
  }

  predicate SafeToken(s: string) {
    s != "" && TokenStart(s[0]) &&
    forall i :: 0 < i < |s| ==>
      TokenStart(s[i]) || s[i] == '.' || s[i] == '_' || s[i] == '/' || s[i] == '+' || s[i] == ':' || s[i] == '-'
  }

  function RequireToken(p: Option<Json>, maximum: nat): Option<string> {
    var text := RequireString(p, maximum);
    if text.Some? && SafeToken(text.value) then text else None
  }

  function OptionalToken(p: Option<Json>, maximum: nat): Option<Option<string>> {
    if Nullish(p) then Some(None)
    else if RequireToken(p, maximum).Some? then Some(RequireToken(p, maximum))
    else None
  }

  predicate LowerHex(s: string, length: nat) {
    |s| == length && forall i :: 0 <= i < |s| ==> '0' <= s[i] <= '9' || 'a' <= s[i] <= 'f'
  }

  predicate HasOnly(j: Json, allowed: set<Key>) {
    j.Obj? && forall k :: k in j.fields ==> k in allowed
  }

  // ----- facts -----

  predicate IsInteger(n: real) {
    n == n.Floor as real
  }

  predicate Satisfies(value: Json, rule: Rule) {
    match rule
    case EnumRule(values) => value.Str? && value.s in values
    case IntegerRule(minimum, maximum) =>
      value.Num? && IsInteger(value.n) && minimum as real <= value.n <= maximum as real
    case NumberRule(minimum, maximum) => value.Num? && minimum as real <= value.n <= maximum as real
    case BooleanRule => value.Bool?
  }

  predicate AllowedFact(k: Key, value: Json, policy: ComponentPolicy) {
    k.Named? && k.name in policy.facts && Satisfies(value, policy.facts[k.name])
  }

  /** The facts that are kept: all of them, in order, or none. */
  function SanitizeFacts(p: Option<Json>, policy: ComponentPolicy): Option<Option<Json>> {
    if Nullish(p) then Some(None)
    else if !p.value.Obj? then None
    else if exists k :: k in p.value.fields && !AllowedFact(k, p.value.fields[k], policy) then None
    else Some(if |p.value.order| == 0 then None else p)
  }

  /** The order lists exactly the keys of the object. */
  ghost predicate Lists(order: seq<Key>, fields: map<Key, Json>) {
    (set k | k in order) == fields.Keys
  }

  /** The first `n` properties of an object. */
  ghost function Leading(order: seq<Key>, fields: map<Key, Json>, n: nat): map<Key, Json>
    requires n <= |order|
  {
    map k | k in fields && k in order[..n] :: fields[k]
  }

  lemma {:induction false} LeadingGrows(order: seq<Key>, fields: map<Key, Json>, n: nat)
    requires Lists(order, fields) && n < |order|
    ensures order[n] in fields
    ensures Leading(order, fields, n + 1) == Leading(order, fields, n)[order[n] := fields[order[n]]]
  {
    assert order[n] in set k | k in order;
    assert order[..n + 1] == order[..n] + [order[n]];
  }

  lemma {:induction false} LeadingIsAll(order: seq<Key>, fields: map<Key, Json>)
    requires Lists(order, fields)
    ensures Leading(order, fields, 0) == map[]
    ensures Leading(order, fields, |order|) == fields
  {
    assert order[..|order|] == order;
    assert forall k :: k in fields ==> k in set key | key in order;
  }

  /** The loop that fills the output object fact by fact. */
  method FillFacts(order: seq<Key>, fields: map<Key, Json>, policy: ComponentPolicy) returns (output: Option<Json>)
    requires Lists(order, fields)
    requires forall k :: k in fields ==> k.Named? && k.name in policy.facts
    ensures output.Some? <==> forall k :: k in fields ==> AllowedFact(k, fields[k], policy)
    ensures output.Some? ==> output.value == Obj(order, fields)
  {
    var copied: seq<Key>, values: map<Key, Json> := [], map[];
    LeadingIsAll(order, fields);
    for i := 0 to |order|
      invariant copied == order[..i]
      invariant values == Leading(order, fields, i)
      invariant forall k :: k in values ==> AllowedFact(k, values[k], policy)
    {
      LeadingGrows(order, fields, i);
      var k := order[i];
      if !Satisfies(fields[k], policy.facts[k.name]) {
        assert !AllowedFact(k, fields[k], policy);
        return None;
      }
      copied, values := copied + [k], values[k := fields[k]];
    }
    return Some(Obj(copied, values));
  }

  /** All facts of one piece of evidence. */
  method ReadFacts(p: Option<Json>, policy: ComponentPolicy) returns (result: Option<Option<Json>>)
    requires p.Some? ==> WellFormed(p.value)
    ensures result == SanitizeFacts(p, policy)
  {
    if Nullish(p) {
      return Some(None);
    }
    if !p.value.Obj? {
      return None;
    }
    if exists k :: k in p.value.fields && !(k.Named? && k.name in policy.facts) {
      return None;
    }
    assert Lists(p.value.order, p.value.fields);
    var output := FillFacts(p.value.order, p.value.fields, policy);
    if output.None? {
      return None;
    }
    return Some(if |output.value.order| == 0 then None else output);
  }

  // ----- evidence -----

  function Spaced(status: string): string {
    if status == "" then "" else [if status[0] == '_' then ' ' else status[0]] + Spaced(status[1..])
  }

  function FirstFact(facts: Option<Json>): Option<Json> {
    if facts.Some? && facts.value.Obj? && |facts.value.order| > 0 then Prop(facts.value, facts.value.order[0]) else None
  }

  function Detail(status: string, e: EvidenceRecord): string {
    var first := FirstFact(e.facts);
    if e.outcome.Some? then e.outcome.value
    else if e.activeState.Some? then
      if e.subState.Some? then e.activeState.value + "/" + e.subState.value else e.activeState.value
    else if first.Some? && first.value.Str? then first.value.s
    else if first.Some? && first.value.Bool? then (if first.value.b then "yes" else "no")
    else Spaced(status)
  }

  function SummaryOf(policy: ComponentPolicy, status: string, e: EvidenceRecord): string {
    policy.title + ": " + Detail(status, e)
  }

  /** What evidence of this policy may hold, field by field. */
  predicate AllowedEvidence(e: EvidenceRecord, policy: ComponentPolicy) {
    && (e.unit.Some? ==> policy.unit == e.unit)
    && (e.activeState.Some? ==> policy.unit.Some? && e.activeState.value in ACTIVE_STATES)
    && (e.subState.Some? ==> policy.unit.Some? && e.subState.value in SUB_STATES)
    && (e.result.Some? ==> policy.unit.Some? && e.result.value in RESULTS)
    && (e.schema.Some? ==> e.schema.value in policy.schemas)
    && (e.outcome.Some? ==> e.outcome.value in policy.outcomes)
  }

  /** The fields of evidence, each of an acceptable shape; the given summary is dropped. */
  function ReadEvidence(j: Json, policy: ComponentPolicy): Option<EvidenceRecord> {
    var authority := RequireString(Prop(j, Authority), 80);
    var summary := RequireString(Prop(j, Summary), 240);
    var unit := OptionalString(Prop(j, Unit), 160);
    var activeState := OptionalString(Prop(j, ActiveState), 80);
    var subState := OptionalString(Prop(j, SubState), 80);
    var result := OptionalString(Prop(j, ResultKey), 80);
    var schema := OptionalString(Prop(j, Schema), 160);
    var outcome := OptionalString(Prop(j, Outcome), 128);
    var facts := SanitizeFacts(Prop(j, Facts), policy);
    if authority != Some(AUTHORITY) || summary.None? || unit.None? || activeState.None? || subState.None?
       || result.None? || schema.None? || outcome.None? || facts.None? then None
    else
      Some(EvidenceRecord(unit.value, activeState.value, subState.value, result.value, schema.value, outcome.value,
                          facts.value, ""))
  }

  function SanitizeEvidence(p: Option<Json>, policy: ComponentPolicy, status: string): Option<EvidenceRecord> {
    if p.None? || !HasOnly(p.value, EVIDENCE_KEYS) then None
    else
      var e := ReadEvidence(p.value, policy);
      if e.None? || !AllowedEvidence(e.value, policy) then None
      else Some(e.value.(summary := SummaryOf(policy, status, e.value)))
  }

  // ----- components -----

  const COMPONENT_STATUS: set<string> := {"operational", "unknown", "degraded", "partial_outage", "major_outage"}

  /** A component whose id has been read and is a registered one. */
  function SanitizeNamed(item: Json, id: string, observedAt: string): Result<Component, Rejection> {
    var status := Prop(item, Status);
    if status.None? || !status.value.Str? || status.value.s !in COMPONENT_STATUS then Err(InvalidObservation)
    else if Prop(item, ObservedAt) != Some(Str(observedAt)) then Err(InvalidObservation)
    else
      var evidence := SanitizeEvidence(Prop(item, Evidence), PolicyOf(id), status.value.s);
      if evidence.None? then Err(InvalidObservation) else Ok(Component(id, status.value.s, evidence.value))
  }

  function SanitizeComponent(item: Json, observedAt: string, seen: set<string>): Result<Component, Rejection> {
    if !HasOnly(item, {Id, Status, ObservedAt, Evidence}) then Err(InvalidObservation)
    else
      var id := RequireString(Prop(item, Id), 80);
      if id.None? then Err(InvalidObservation)
      else if id.value !in COMPONENT_IDS || id.value in seen then Err(ComponentRegistryMismatch)
      else SanitizeNamed(item, id.value, observedAt)
  }

  /** What is done with one component, given the ids seen so far. */
  type Visitor = (Json, set<string>) -> Result<Component, Rejection>

  function ComponentVisitor(observedAt: string): Visitor {
    (item, seen) => SanitizeComponent(item, observedAt, seen)
  }

  /** Visit the items in order, collecting results and ids, up to the first rejection. */
  function VisitAll(items: seq<Json>, seen: set<string>, visit: Visitor): Result<seq<Component>, Rejection> {
    if items == [] then Ok([])
    else
      var first :- visit(items[0], seen);
      var rest :- VisitAll(items[1..], seen + {first.id}, visit);
      Ok([first] + rest)
  }

  function Ids(components: seq<Component>): (ids: seq<string>)
    ensures |ids| == |components|
  {
    if components == [] then [] else Ids(components[..|components| - 1]) + [components[|components| - 1].id]
  }

  /** Visiting the rest, with `done` already collected. */
  function Continue(
      done: seq<Component>, items: seq<Json>, seen: set<string>, visit: Visitor): Result<seq<Component>, Rejection> {
    match VisitAll(items, seen, visit)
    case Ok(rest) => Ok(done + rest)
    case Err(e) => Err(e)
  }

  lemma {:induction false} ContinueStep(done: seq<Component>, items: seq<Json>, seen: set<string>, visit: Visitor)
    requires items != []
    ensures var one := visit(items[0], seen);
            Continue(done, items, seen, visit) ==
            if one.Err? then Err(one.error)
            else Continue(done + [one.value], items[1..], seen + {one.value.id}, visit)
  {
    var one := visit(items[0], seen);
    if one.Ok? {
      var rest := VisitAll(items[1..], seen + {one.value.id}, visit);
      if rest.Ok? {
        assert done + ([one.value] + rest.value) == (done + [one.value]) + rest.value;
      }
    }
  }

  lemma {:induction false} ContinueEdges(done: seq<Component>, items: seq<Json>, seen: set<string>, visit: Visitor)
    ensures Continue([], items, seen, visit) == VisitAll(items, seen, visit)
    ensures Continue(done, [], seen, visit) == Ok(done)
  {
    var all := VisitAll(items, seen, visit);
    assert all.Ok? ==> [] + all.value == all.value;
    assert done + [] == done;
  }

  lemma {:induction false} SeenGrows(components: seq<Component>, c: Component)
    ensures Ids(components + [c]) == Ids(components) + [c.id]
    ensures SetOf(Ids(components + [c])) == SetOf(Ids(components)) + {c.id}
  {
    assert (components + [c])[..|components|] == components;
  }

  /** The loop over the components, growing the set of ids seen. */
  method VisitComponents(items: seq<Json>, visit: Visitor)
    returns (result: Result<seq<Component>, Rejection>, seen: set<string>)
    ensures result == VisitAll(items, {}, visit)
    ensures result.Ok? ==> seen == SetOf(Ids(result.value))
  {
    seen := {};
    var components: seq<Component> := [];
    assert items[0..] == items;
    ContinueEdges([], items, {}, visit);
    for i := 0 to |items|
      invariant seen == SetOf(Ids(components))
      invariant VisitAll(items, {}, visit) == Continue(components, items[i..], seen, visit)
    {
      ContinueStep(components, items[i..], seen, visit);
      var one := visit(items[i], seen);
      if one.Err? {
        return Err(one.error), seen;
      }
      SeenGrows(components, one.value);
      assert items[i..][1..] == items[i + 1..];
      components, seen := components + [one.value], seen + {one.value.id};
    }
    ContinueEdges(components, items, seen, visit);
    return Ok(components), seen;
  }
}
