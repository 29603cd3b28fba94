/** Configuration revisions: what one commit request writes, and which identity
    files of the previous revision it carries over. */
module Revisions {
  import opened SheetPaths
  import opened Wrappers

  // ----- names -----

  predicate AsciiAlphanumeric(c: char) {
    '0' <= c <= '9' || 'A' <= c <= 'Z' || 'a' <= c <= 'z'
  }

  predicate ValidSlug(value: string, maximum: nat) {
    && 0 < |value| <= maximum
    && AsciiAlphanumeric(value[0])
    && forall i :: 0 <= i < |value| ==> AsciiAlphanumeric(value[i]) || value[i] == '-'
  }

  predicate StartsWith(value: string, prefix: string) {
    prefix <= value
  }

  predicate EndsWith(value: string, suffix: string) {
    |suffix| <= |value| && value[|value| - |suffix|..] == suffix
  }

  predicate ContainsDotDot(value: string) {
    exists i :: 0 <= i < |value| - 1 && value[i] == '.' && value[i + 1] == '.'
  }

  predicate SafeJsonBasename(name: string) {
    && !StartsWith(name, ".")
    && EndsWith(name, ".json")
    && |name| <= 128
    && !ContainsDotDot(name)
    && forall i :: 0 <= i < |name| ==> AsciiAlphanumeric(name[i]) || name[i] in ".-_"
  }

  function AliasFile(alias: string): string {
    alias + ".json"
  }

  /** The carry-over filter accepts the file name of every valid alias, so no
      committed identity is dropped by a later commit. */
  lemma {:induction false} AliasFilePassesCarryFilter(alias: string)
    requires ValidSlug(alias, 64)
    ensures SafeJsonBasename(AliasFile(alias))
  {
    var name := AliasFile(alias);
    assert name[|alias|..] == ".json";
    assert forall i :: 0 <= i < |alias| ==> name[i] == alias[i] != '.';
    assert forall i :: |alias| < i < |name| ==> name[i] == ".json"[i - |alias|] != '.';
  }

  lemma {:induction false} AliasFileInjective(a: string, b: string)
    requires AliasFile(a) == AliasFile(b)
    ensures a == b
  {
    assert a == AliasFile(a)[..|a|];
    assert b == AliasFile(b)[..|b|];
  }

  // ----- requests -----

  datatype MinerStartMode = Manual | OnBoot

  datatype RigProfile = RigProfile(nodeName: string, timezone: string, minerStartMode: MinerStartMode)

  /** `settings` stands for the remaining sheet fields, which are copied verbatim. */
  datatype FlightSheet = FlightSheet(name: string, identityRef: string, settings: string)

  datatype Provenance = Provenance(record: string, externalReference: Option<string>)

  datatype IdentityRecord = IdentityRecord(schema: string, alias: string, kind: string, value: string,
                                           createdLocally: bool)

  datatype Request = Request(
    profile: RigProfile,
    flightSheet: FlightSheet,
    provenance: Option<Provenance>,
    sourceSha256: string,
    identity: IdentityRecord)

  predicate IsWhitespaceOrControl(c: char) {
    || c <= ' '
    || '\U{7F}' <= c <= '\U{A0}'
    || c == '\U{1680}'
    || '\U{2000}' <= c <= '\U{200A}'
    || c in ['\U{2028}', '\U{2029}', '\U{202F}', '\U{205F}', '\U{3000}']
  }

  /** `identity.value` is measured in characters here and in bytes in the program. */
  predicate ValidIdentity(identity: IdentityRecord) {
    && identity.schema == "rigos.identity/v1"
    && identity.kind == "mining_identity"
    && ValidSlug(identity.alias, 64)
    && 0 < |identity.value| <= 512
    && forall i :: 0 <= i < |identity.value| ==> !IsWhitespaceOrControl(identity.value[i])
  }

  /** The condition under which the runtime documents of a request can be built. */
  predicate Resolvable(request: Request) {
    && ValidIdentity(request.identity)
    && (|| request.identity.alias == request.flightSheet.identityRef
        || request.flightSheet.identityRef == "unresolved"
        || StartsWith(request.flightSheet.identityRef, "hive-wal-"))
  }

  // ----- revisions -----

  datatype RevisionFile =
    | PolicyFile
    | XmrigFile
    | SheetFile(name: string)
    | IdentityFile(name: string)
    | ProvenanceFile
    | IdentityMapFile
    | OtherFile(name: string)

  datatype Document =
    | Policy(profile: RigProfile, activeSheet: string, identityRef: string)
    | Xmrig(sheet: FlightSheet, user: string, worker: string)
    | Sheet(sheet: FlightSheet)
    | Identity(record: IdentityRecord)
    | Imported(provenance: Provenance)
    | IdentityMap(reference: string, alias: string, sourceSha256: string)

  /** A directory entry; `Special` is anything that is not a regular file. */
  datatype Entry = Regular(document: Document) | Special

  type Revision = map<RevisionFile, Entry>

  predicate PassesCarryFilter(prior: Revision, alias: string, file: RevisionFile)
    requires file in prior
  {
    && file.IdentityFile?
    && prior[file].Regular?
    && SafeJsonBasename(file.name)
    && file.name != AliasFile(alias)
  }

  function Carried(prior: Option<Revision>, alias: string): Revision {
    match prior
    case None => map[]
    case Some(revision) => map f | f in revision && PassesCarryFilter(revision, alias, f) :: revision[f]
  }

  function IdentityEntry(request: Request): Entry {
    Regular(Identity(request.identity))
  }

  function ProvenanceFiles(request: Request): Revision {
    match request.provenance
    case None => map[]
    case Some(provenance) =>
      var record := map[ProvenanceFile := Regular(Imported(provenance))];
      match provenance.externalReference
      case None => record
      case Some(reference) =>
        record[IdentityMapFile := Regular(IdentityMap(reference, request.identity.alias, request.sourceSha256))]
  }

  /** The file of a sheet that is written where it belongs. */
  function SheetEntry(name: string): RevisionFile {
    SheetFile(FileName(name))
  }

  function SheetDocument(request: Request): Entry {
    Regular(Sheet(request.flightSheet))
  }

  function DocumentFiles(request: Request): Revision {
    map[
      PolicyFile := Regular(Policy(request.profile, request.flightSheet.name, request.identity.alias)),
      XmrigFile := Regular(Xmrig(request.flightSheet, request.identity.value, request.profile.nodeName))
    ]
  }

  function RuntimeFiles(request: Request): Revision {
    DocumentFiles(request)[SheetEntry(request.flightSheet.name) := SheetDocument(request)]
  }

  /** A revision whose first files are `base`: then come the identities, old and new, and the provenance. */
  function Assembled(base: Revision, prior: Option<Revision>, request: Request): Revision {
    var carried := base + Carried(prior, request.identity.alias);
    carried[IdentityFile(AliasFile(request.identity.alias)) := IdentityEntry(request)] + ProvenanceFiles(request)
  }

  /** The revision a commit of `request` is meant to put in place of `prior`. */
  function Successor(prior: Option<Revision>, request: Request): Revision {
    Assembled(RuntimeFiles(request), prior, request)
  }

  // ----- what is built, wherever the sheet goes -----

  /** The entry of a revision that a file of this name is. */
  function FileAt(place: Place, file: string): RevisionFile {
    match place
    case Sheets => SheetFile(file)
    case CurrentSheets => SheetFile(file)
    case CurrentIdentities => IdentityFile(file)
    case _ =>
      if file == "policy.json" then PolicyFile
      else if file == "xmrig.json" then XmrigFile
      else if file == "import-provenance.json" then ProvenanceFile
      else if file == "external-identity-map.json" then IdentityMapFile
      else OtherFile(file)
  }

  /** The first files of a revision: the sheet is among them only if its name leads into the revision. */
  function BaseFiles(request: Request): Revision {
    var landing := Landed(request.flightSheet.name);
    if landing.At? && (landing.place.Sheets? || landing.place.Staging?)
    then DocumentFiles(request)[FileAt(landing.place, landing.file) := SheetDocument(request)]
    else DocumentFiles(request)
  }

  /** The revision a commit of `request` does put in place of `prior`. */
  function Built(prior: Option<Revision>, request: Request): Revision {
    Assembled(BaseFiles(request), prior, request)
  }

  predicate NoSheet(revision: Revision) {
    forall f :: f in revision ==> !f.SheetFile?
  }

  lemma {:induction false} AssembledHasNoSheet(base: Revision, prior: Option<Revision>, request: Request)
    requires NoSheet(base)
    ensures NoSheet(Assembled(base, prior, request))
  {
  }

  /** What is built is what is meant exactly if the sheet stays in its directory. */
  lemma {:induction false} BuiltExactlyIfConfined(prior: Option<Revision>, meant: Option<Revision>, request: Request)
    ensures Confined(request.flightSheet.name) ==> Built(prior, request) == Successor(prior, request)
    ensures Built(prior, request) == Successor(meant, request) ==> Confined(request.flightSheet.name)
  {
    if Confined(request.flightSheet.name) {
      ConfinedFile(request.flightSheet.name);
    } else {
      AssembledHasNoSheet(BaseFiles(request), prior, request);
      SuccessorRuntimeFiles(meant, request);
    }
  }

  lemma {:induction false} SuccessorRuntimeFiles(prior: Option<Revision>, request: Request)
    ensures var revision := Successor(prior, request);
            && PolicyFile in revision
            && revision[PolicyFile] ==
                 Regular(Policy(request.profile, request.flightSheet.name, request.identity.alias))
            && XmrigFile in revision
            && revision[XmrigFile] ==
                 Regular(Xmrig(request.flightSheet, request.identity.value, request.profile.nodeName))
            && SheetEntry(request.flightSheet.name) in revision
            && revision[SheetEntry(request.flightSheet.name)] == Regular(Sheet(request.flightSheet))
  {
  }

  /** Building without the identities of `prior` makes no difference exactly if there are none to carry over. */
  lemma {:induction false} SeenUnlessNothingToCarry(prior: Option<Revision>, request: Request)
    ensures Built(None, request) == Built(prior, request) <==> Carried(prior, request.identity.alias) == map[]
  {
    var base, carried := BaseFiles(request), Carried(prior, request.identity.alias);
    if file :| file in carried {
      assert file in Built(prior, request) && file !in base;
      assert file !in Built(None, request);
    } else {
      assert base + carried == base + Carried(None, request.identity.alias);
    }
  }

  predicate HoldsDocument(revision: Revision, file: RevisionFile) {
    file in revision && revision[file].Regular?
  }

  /** Every file the miner start path reads is present, and they agree: the
      miner runs as the identity the policy names, with the sheet it names. */
  predicate Complete(revision: Revision) {
    && HoldsDocument(revision, PolicyFile)
    && HoldsDocument(revision, XmrigFile)
    && var policy, xmrig := revision[PolicyFile].document, revision[XmrigFile].document;
    && policy.Policy?
    && xmrig.Xmrig?
    && xmrig.worker == policy.profile.nodeName
    && SheetEntry(policy.activeSheet) in revision
    && revision[SheetEntry(policy.activeSheet)] == Regular(Sheet(xmrig.sheet))
    && var identity := IdentityFile(AliasFile(policy.identityRef));
    && HoldsDocument(revision, identity)
    && revision[identity].document.Identity?
    && revision[identity].document.record.value == xmrig.user
  }

  /** Whatever came before, a committed revision is self-consistent: the miner
      configuration uses the value of the identity the policy names, and the
      sheet the policy names is present. */
  lemma {:induction false} SuccessorIsComplete(prior: Option<Revision>, request: Request)
    ensures Complete(Successor(prior, request))
  {
  }

  /** Every file of `older` is in `newer`, unchanged. */
  predicate Extends(newer: Revision, older: Revision) {
    forall f :: f in older ==> f in newer && newer[f] == older[f]
  }

  // ----- the register specification -----

  /** The content of an atomic register after the given successful commits. */
  function Fold(log: seq<Request>): Option<Revision> {
    if log == [] then None
    else Some(Successor(Fold(log[..|log| - 1]), log[|log| - 1]))
  }

  /** The last identity committed under `alias`. */
  function Latest(log: seq<Request>, alias: string): Option<IdentityRecord> {
    if log == [] then None
    else if log[|log| - 1].identity.alias == alias then Some(log[|log| - 1].identity)
    else Latest(log[..|log| - 1], alias)
  }

  predicate HoldsIdentity(content: Option<Revision>, alias: string, record: Option<IdentityRecord>) {
    var file := IdentityFile(AliasFile(alias));
    match record
    case None => content.Some? ==> file !in content.value
    case Some(r) => content.Some? && file in content.value && content.value[file] == Regular(Identity(r))
  }

  lemma {:induction false} CommitUpdatesIdentity(
      prior: Option<Revision>, request: Request, alias: string, record: Option<IdentityRecord>)
    requires Resolvable(request)
    requires HoldsIdentity(prior, alias, record)
    requires record.Some? ==> ValidSlug(alias, 64)
    ensures HoldsIdentity(Some(Successor(prior, request)), alias,
                          if request.identity.alias == alias then Some(request.identity) else record)
  {
    if AliasFile(alias) == AliasFile(request.identity.alias) {
      AliasFileInjective(alias, request.identity.alias);
    }
    if record.Some? {
      AliasFilePassesCarryFilter(alias);
    }
  }

  /** Identities are a last-writer-wins fold: the folded revision holds every
      alias ever committed, with its latest record, and no other alias. */
  lemma {:induction false} LatestIdentityWins(log: seq<Request>, alias: string)
    requires forall i :: 0 <= i < |log| ==> Resolvable(log[i])
    ensures HoldsIdentity(Fold(log), alias, Latest(log, alias))
    ensures Latest(log, alias).Some? ==> ValidSlug(alias, 64)
  {
    if log != [] {
      var last := log[|log| - 1];
      var earlier := log[..|log| - 1];
      LatestIdentityWins(earlier, alias);
      CommitUpdatesIdentity(Fold(earlier), last, alias, Latest(earlier, alias));
    }
  }
}
