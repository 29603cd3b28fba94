/** Parsed JSON values as the status service sees them, the names it must never
    publish, and its fixed component registry. */
module StatusPolicy {
  import opened Wrappers

  // ----- parsed JSON -----

  /** Object keys: the names the service looks up, and any other name.
      `Named` is never used for the spelling of one of the other constructors. */
  datatype Key =
    | Schema | ObservedAt | SourceId | BootIdHash | Release | Health | Components
    | Product | Version | ImageId | ImageVersion | Channel | BuildId | BuildCommit | Architecture
    | Status | ExitCode | Summary
    | Id | Evidence
    | Authority | Unit | ActiveState | SubState | ResultKey | Outcome | Facts
    | Named(name: string)

  function Spelling(k: Key): string {
    match k
    case Schema => "schema" case ObservedAt => "observedAt" case SourceId => "sourceId"
    case BootIdHash => "bootIdHash" case Release => "release" case Health => "health"
    case Components => "components" case Product => "product" case Version => "version"
    case ImageId => "imageId" case ImageVersion => "imageVersion" case Channel => "channel"
    case BuildId => "buildId" case BuildCommit => "buildCommit" case Architecture => "architecture"
    case Status => "status" case ExitCode => "exitCode" case Summary => "summary"
    case Id => "id" case Evidence => "evidence" case Authority => "authority"
    case Unit => "unit" case ActiveState => "activeState" case SubState => "subState"
    case ResultKey => "result" case Outcome => "outcome" case Facts => "facts"
    case Named(name) => name
  }

  /** A finite JSON value. Strings are sequences of UTF-16 code units; an object
      lists each of its keys once, in order. */
  datatype Json =
    | Null
    | Bool(b: bool)
    | Num(n: real)
    | Str(s: string)
    | Arr(items: seq<Json>)
    | Obj(order: seq<Key>, fields: map<Key, Json>)

  predicate WellFormed(j: Json) {
    match j
    case Arr(items) => forall i :: 0 <= i < |items| ==> WellFormed(items[i])
    case Obj(order, fields) =>
      && (forall i, k :: 0 <= i < k < |order| ==> order[i] != order[k])
      && (forall k :: k in order ==> k in fields)
      && (forall k :: k in fields ==> k in order)
      && (forall k :: k in fields ==> WellFormed(fields[k]))
    case _ => true
  }

  /** A property of an object; `None` is `undefined`. */
  function Prop(j: Json, k: Key): Option<Json> {
    if j.Obj? && k in j.fields then Some(j.fields[k]) else None
  }

  predicate Nullish(p: Option<Json>) {
    p.None? || p.value.Null?
  }

  // ----- sensitive names -----

  function LowerCase(c: char): char {
    if 'A' <= c <= 'Z' then (c as int + 32) as char else c
  }

  /** The first `n` characters in lower case, without dashes and underscores. */
  function NormalizedPrefix(key: string, n: nat): string
    requires n <= |key|
  {
    if n == 0 then ""
    else NormalizedPrefix(key, n - 1) + if key[n - 1] == '-' || key[n - 1] == '_' then "" else [LowerCase(key[n - 1])]
  }

  function NormalizedKey(key: string): string {
    NormalizedPrefix(key, |key|)
  }

  predicate FoundAt(text: string, token: string, i: nat) {
    i + |token| <= |text| && text[i..i + |token|] == token
  }

  predicate Includes(text: string, token: string) {
    exists i :: 0 <= i <= |text| && FoundAt(text, token, i)
  }

  const SENSITIVE_EXACT: seq<string> := ["ip", "ipaddress", "acceptedshares", "rejectedshares"]

  const SENSITIVE_TOKENS: seq<string> := [
    "wallet", "worker", "pool", "hashrate", "share", "hostname", "password", "secret",
    "token", "privatekey", "miningidentity", "credential", "account"]

  predicate IsSensitiveName(name: string) {
    var normalized := NormalizedKey(name);
    normalized in SENSITIVE_EXACT || exists t :: t in SENSITIVE_TOKENS && Includes(normalized, t)
  }

  predicate IsSensitiveKey(k: Key) {
    IsSensitiveName(Spelling(k))
  }

  /** No key of any object, at any depth, is sensitive. */
  predicate Clean(j: Json) {
    match j
    case Arr(items) => forall i :: 0 <= i < |items| ==> Clean(items[i])
    case Obj(_, fields) => forall k :: k in fields ==> !IsSensitiveKey(k) && Clean(fields[k])
    case _ => true
  }

  /** `k` is a key of some object inside `j`, at any depth. */
  ghost predicate Occurs(j: Json, k: Key) {
    match j
    case Arr(items) => exists i :: 0 <= i < |items| && Occurs(items[i], k)
    case Obj(_, fields) => k in fields || exists outer :: outer in fields && Occurs(fields[outer], k)
    case _ => false
  }

  /** The recursive check is exact: it passes if and only if no key that occurs
      anywhere normalizes to a sensitive name. */
  lemma {:induction false} CleanMeansNothingSensitiveOccurs(j: Json)
    ensures Clean(j) <==> forall k :: Occurs(j, k) ==> !IsSensitiveKey(k)
    decreases j
  {
    match j
    case Arr(items) =>
      forall i | 0 <= i < |items|
        ensures Clean(items[i]) <==> forall k :: Occurs(items[i], k) ==> !IsSensitiveKey(k)
      {
        CleanMeansNothingSensitiveOccurs(items[i]);
      }
    case Obj(_, fields) =>
      forall outer | outer in fields
        ensures Clean(fields[outer]) <==> forall k :: Occurs(fields[outer], k) ==> !IsSensitiveKey(k)
      {
        CleanMeansNothingSensitiveOccurs(fields[outer]);
      }
    case _ =>
  }

  // ----- the component registry -----

  datatype Rule =
    | EnumRule(values: set<string>)
    | IntegerRule(minimum: int, maximum: int)
    | NumberRule(minimum: int, maximum: int)
    | BooleanRule

  /** `schemas` and `outcomes` are empty where the registry names none. */
  datatype ComponentPolicy = ComponentPolicy(
    title: string,
    unit: Option<string>,
    schemas: set<string>,
    outcomes: set<string>,
    facts: map<string, Rule>)

  const ACTIVE_STATES: set<string> := {"active", "inactive", "failed", "activating", "deactivating", "unknown"}
  const SUB_STATES: set<string> := {"running", "exited", "dead", "failed", "waiting", "unknown"}
  const RESULTS: set<string> := {"success", "exit-code", "signal", "timeout", "unknown"}
  const YES_NO_UNKNOWN: set<string> := {"yes", "no", "unknown"}
  const UNIT_FILE_STATES: set<string> := {"enabled", "disabled", "static", "masked", "indirect", "generated", "unknown"}
  const READY_STATES: set<string> := {"ready", "verified", "unavailable", "unknown", "failed", "blocked", "degraded"}

  const COMPONENT_IDS: seq<string> := [
    "boot-device-verification", "persistent-state", "state-readiness", "recovery-access",
    "ssh-host-identity", "configuration-activation", "profile-apply", "runtime-render",
    "huge-page-authority", "randomx-msr", "network-readiness", "root-filesystem-integrity",
    "failed-unit-set", "operator-health", "kernel-integrity", "state-capacity",
    "time-synchronization", "ssh-service", "remote-access-observer"]

  predicate ShortTexts(texts: set<string>) {
    forall t :: t in texts ==> |t| <= 64
  }

  predicate BriefRule(rule: Rule) {
    rule.EnumRule? ==> ShortTexts(rule.values)
  }

  /** Summaries built from this policy stay within the published length. */
  predicate Brief(policy: ComponentPolicy) {
    && |policy.title| <= 40
    && forall name :: name in policy.facts ==> BriefRule(policy.facts[name])
  }

  lemma {:induction false} StatesAreBrief()
    ensures ShortTexts(ACTIVE_STATES) && ShortTexts(YES_NO_UNKNOWN)
    ensures ShortTexts(UNIT_FILE_STATES) && ShortTexts(READY_STATES)
  {
  }

  function UnitPolicy(title: string, unit: string): (policy: ComponentPolicy)
    requires |title| <= 40
    ensures Brief(policy)
  {
    StatesAreBrief();
    ComponentPolicy(title, Some(unit), {}, {},
                    map["conditionResult" := EnumRule(YES_NO_UNKNOWN), "unitFileState" := EnumRule(UNIT_FILE_STATES)])
  }

  function RecordPolicy(title: string, schema: string, facts: map<string, Rule>): (policy: ComponentPolicy)
    requires |title| <= 40 && forall name :: name in facts ==> BriefRule(facts[name])
    ensures Brief(policy)
  {
    ComponentPolicy(title, None, {schema}, READY_STATES, facts)
  }

  function ReadyPolicy(title: string, schema: string, fact: string): (policy: ComponentPolicy)
    requires |title| <= 40
    ensures Brief(policy)
  {
    StatesAreBrief();
    RecordPolicy(title, schema, map[fact := EnumRule(READY_STATES)])
  }

  function FactsPolicy(title: string, facts: map<string, Rule>): (policy: ComponentPolicy)
    requires |title| <= 40 && forall name :: name in facts ==> BriefRule(facts[name])
    ensures Brief(policy)
  {
    ComponentPolicy(title, None, {}, {}, facts)
  }

  const RANDOMX_ID := "randomx-msr"
  const RANDOMX_UNIT := "rigos-randomx-msr.service"
  const RANDOMX_POLICY := ReadyPolicy("RandomX MSR", "rigos.randomx-msr-status/v1", "verificationOutcome")

  /** The policy of a registered component. */
  function PolicyOf(id: string): (policy: ComponentPolicy)
    ensures Brief(policy)
  {
    if id == RANDOMX_ID then RANDOMX_POLICY
    else
      match UnitOf(id)
      case Some((title, unit)) => UnitPolicy(title, unit)
      case None => RecordOrFactsPolicy(id)
  }

  /** Title and unit of the components that report on one systemd unit. */
  function UnitOf(id: string): (r: Option<(string, string)>)
    ensures r.Some? ==> |r.value.0| <= 40
  {
    if id == "state-readiness" then Some(("State readiness", "rigos-state-ready.service"))
    else if id == "ssh-host-identity" then Some(("SSH host identity", "rigos-ssh-hostkeys.service"))
    else if id == "profile-apply" then Some(("Profile apply", "rigos-profile-apply.service"))
    else if id == "runtime-render" then Some(("Runtime render", "rigos-runtime-render.service"))
    else if id == "network-readiness" then Some(("Network readiness", "NetworkManager.service"))
    else if id == "ssh-service" then Some(("SSH service", "ssh.service"))
    else if id == "remote-access-observer" then Some(("Remote-access observer", "rigos-remote-access-observe.service"))
    else None
  }

  function RecordOrFactsPolicy(id: string): (policy: ComponentPolicy)
    ensures Brief(policy)
  {
    if id == "boot-device-verification"
    then ReadyPolicy("Boot-device verification", "rigos.boot-device/v1", "verificationOutcome")
    else if id == "persistent-state" then ReadyPolicy("Persistent state", "rigos.state-status/v1", "stateOutcome")
    else if id == "recovery-access"
    then ReadyPolicy("Recovery access", "rigos.recovery-access-status/v1", "stateOutcome")
    else if id == "configuration-activation" then
      RecordPolicy("Configuration activation", "rigos.activation-status/v1",
                   map["configurationState" := EnumRule({"ready", "unconfigured", "unavailable", "unknown", "failed"})])
    else if id == "huge-page-authority" then
      RecordPolicy("Huge-page authority", "rigos.performance-status/v1",
                   map["actualPages" := IntegerRule(0, 1_000_000_000),
                       "allocationPercent" := NumberRule(0, 100),
                       "targetPages" := IntegerRule(0, 1_000_000_000)])
    else if id == "root-filesystem-integrity" then RootFilesystemPolicy()
    else if id == "failed-unit-set" then
      FactsPolicy("Failed unit set",
                  map["failedUnits" := IntegerRule(0, 100_000), "ignoredObserverFailures" := IntegerRule(0, 100_000)])
    else if id == "operator-health" then FactsPolicy("Operator health", map["commandExitCode" := IntegerRule(0, 255)])
    else if id == "kernel-integrity" then
      FactsPolicy("Kernel integrity",
                  map["severeEvents" := IntegerRule(0, 1_000_000), "warningEvents" := IntegerRule(0, 1_000_000)])
    else if id == "state-capacity" then FactsPolicy("State capacity", map["freePercent" := NumberRule(0, 100)])
    else TimePolicy()
  }

  function RootFilesystemPolicy(): (policy: ComponentPolicy)
    ensures Brief(policy)
  {
    FactsPolicy("Root filesystem integrity",
                map["immutableLowerLayer" := BooleanRule,
                    "rootFileSystem" := EnumRule({"overlay", "squashfs", "ext4", "unknown"}),
                    "rootMode" := EnumRule({"read-only", "read-write", "unknown"}),
                    "rootReadOnly" := BooleanRule])
  }

  /** The policy of `time-synchronization`, the last registered component. */
  function TimePolicy(): (policy: ComponentPolicy)
    ensures Brief(policy)
  {
    StatesAreBrief();
    FactsPolicy("Time synchronization",
                map["ntpSynchronized" := BooleanRule, "timeServiceActiveState" := EnumRule(ACTIVE_STATES)])
  }
}
