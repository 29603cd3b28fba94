/** The configuration transaction as a protocol of atomic steps.

    A `State` is everything that survives a crash of the program together with
    the machine runtime it controls. `Step` lists the atomic changes the program
    and its surroundings make, each under the condition that makes it safe in an
    undo-log protocol. The methods of `Appliance` are proved to make no other
    change, so every theorem about `Run` below holds of every execution, at every
    intermediate point, including executions cut short by a crash. */
module Protocol {
  import opened Wrappers
  import opened Revisions
  import opened SheetPaths
  import opened Texts

  type RevisionId = nat

  datatype LinkName = PolicyLink | XmrigLink | SheetsLink | IdentitiesLink | IdentityMapLink

  const ALL_LINKS: set<LinkName> := {PolicyLink, XmrigLink, SheetsLink, IdentitiesLink, IdentityMapLink}

  datatype Snapshot = Snapshot(
    bootId: nat,
    previous: Option<RevisionId>,
    timezone: string,
    enabled: bool,
    active: bool)

  /** `Torn` is a journal file that exists but does not parse. */
  datatype Journal = Absent | Torn | Holds(snapshot: Snapshot)

  /** What the present transaction began with, and what it is about. The program does not
      write this down; the journal holds the pointer only as the program read it. */
  datatype Origin = Origin(pointer: Option<RevisionId>, strays: nat, request: Request)

  /** What the present state does not tell. Two events that the program has not noticed:
      `slipped`, a removal has failed since the present undo began; `unseen`, the revision
      installed last was built without seeing the identities before it. Then the requests
      committed so far, in order; how often the journal was dropped after an undo in which a
      removal had slipped or the pointer had not been read; how many sheets were written
      outside their directory; how many requests were committed with unseen identities; and
      what the last journal was opened for. */
  datatype History = History(
    slipped: bool,
    unseen: bool,
    log: seq<Request>,
    doubtful: nat,
    strays: nat,
    forgotten: nat,
    origin: Origin)

  /** `links` are the public names that are links, `files` those taken by a regular
      file instead. */
  datatype State = State(
    current: Option<RevisionId>,
    revisions: map<RevisionId, Revision>,
    links: set<LinkName>,
    files: set<LinkName>,
    journal: Journal,
    timezone: string,
    enabled: bool,
    active: bool,
    bootId: nat,
    past: History)

  lemma {:induction false} LinkListIsComplete(link: LinkName)
    ensures link in ALL_LINKS
  {
    match link
    case PolicyLink =>
    case XmrigLink =>
    case SheetsLink =>
    case IdentitiesLink =>
    case IdentityMapLink =>
  }

  // ----- what a reader sees -----

  function Lookup(revisions: map<RevisionId, Revision>, pointer: Option<RevisionId>): Option<Revision> {
    if pointer.Some? && pointer.value in revisions then Some(revisions[pointer.value]) else None
  }

  /** The revision reached through the `current` link. */
  function Content(s: State): Option<Revision> {
    Lookup(s.revisions, s.current)
  }

  /** A public link resolves only through `current`. */
  function Resolve(s: State, link: LinkName): Option<Revision> {
    if link in s.links then Content(s) else None
  }

  /** The start gate: whether the miner may start, or `None` when the policy is unreadable. */
  function Gate(s: State, blocked: bool): Option<bool> {
    var content := Content(s);
    if content.None? || !HoldsDocument(content.value, PolicyFile) || !content.value[PolicyFile].document.Policy?
    then None
    else
      Some(&& content.value[PolicyFile].document.profile.minerStartMode.OnBoot?
           && !blocked
           && HoldsDocument(content.value, XmrigFile))
  }

  function SnapshotOf(s: State): Snapshot {
    Snapshot(s.bootId, s.current, s.timezone, s.enabled, s.active)
  }

  /** The snapshot is of this state, but the pointer may have been unreadable. */
  predicate Describes(snapshot: Snapshot, s: State) {
    snapshot == SnapshotOf(s) || snapshot == SnapshotOf(s).(previous := None)
  }

  function OriginOf(s: State, request: Request): Origin {
    Origin(s.current, s.past.strays, request)
  }

  function SheetName(s: State): string {
    s.past.origin.request.flightSheet.name
  }

  // ----- atomic steps -----

  /** The timezone, the enabled state and the miner change; nothing on disk does. */
  predicate ChangeRuntime(s: State, s': State) {
    s' == s.(timezone := s'.timezone, enabled := s'.enabled, active := s'.active)
  }

  /** A reboot stops the miner and may lose the last timezone and enabled state. */
  predicate Reboot(s: State, s': State) {
    s' == s.(timezone := s'.timezone, enabled := s'.enabled, active := false, bootId := s.bootId + 1)
  }

  predicate OpenJournal(s: State, s': State) {
    && s.journal.Absent?
    && s' == s.(journal := s'.journal, past := s.past.(origin := s'.past.origin, slipped := false, unseen := false))
    && s'.past.origin == OriginOf(s, s'.past.origin.request)
    && (s'.journal.Torn? || (s'.journal.Holds? && Describes(s'.journal.snapshot, s)))
  }

  /** Every installed revision is still there with at least the files it had. */
  predicate OnlyGrew(older: map<RevisionId, Revision>, newer: map<RevisionId, Revision>) {
    forall id :: id in older ==> id in newer && Extends(newer[id], older[id])
  }

  /** Every installed revision is still there, unchanged. */
  predicate Kept(older: map<RevisionId, Revision>, newer: map<RevisionId, Revision>) {
    forall id :: id in older ==> id in newer && newer[id] == older[id]
  }

  /** The public names that a regular file of this name in the state directory takes. */
  function TakenBy(file: string): set<LinkName> {
    if file == "policy.json" then {PolicyLink}
    else if file == "xmrig.json" then {XmrigLink}
    else if file == "external-identity-map.json" then {IdentityMapLink}
    else {}
  }

  /** One file has joined the current revision; the other revisions are kept. */
  predicate AddedToCurrent(s: State, revisions: map<RevisionId, Revision>, file: RevisionFile, entry: Entry) {
    && s.current.Some?
    && s.current.value in s.revisions
    && s.current.value in revisions
    && file !in s.revisions[s.current.value]
    && revisions[s.current.value] == s.revisions[s.current.value][file := entry]
    && forall id :: id in s.revisions && id != s.current.value ==> id in revisions && revisions[id] == s.revisions[id]
  }

  /** The revisions and the files in public names after one file was created outside the
      directory for sheets. Nothing exact is said about directories that are not described. */
  predicate CreatedAt(
      s: State, revisions: map<RevisionId, Revision>, files: set<LinkName>, place: Place, file: string,
      entry: Entry) {
    match place
    case Current | CurrentSheets | CurrentIdentities =>
      AddedToCurrent(s, revisions, FileAt(place, file), entry) && files == s.files
    case StateDirectory =>
      TakenBy(file) !! s.links + s.files && files == s.files + TakenBy(file) && Kept(s.revisions, revisions)
    case Beyond =>
      OnlyGrew(s.revisions, revisions) && s.files <= files
    case _ =>
      Kept(s.revisions, revisions) && files == s.files
  }

  /** The sheet is not in the way of a file that the revision has anyway. */
  predicate Fits(request: Request) {
    var landing := Landed(request.flightSheet.name);
    landing.At? && landing.place.Staging? ==>
      FileAt(landing.place, landing.file) !in DocumentFiles(request) + ProvenanceFiles(request)
  }

  /** Where the name of the sheet leads, its file can be created: every directory on the way
      is there, and the file is not. */
  predicate Creatable(s: State, request: Request) {
    CreatableIn(s.current, s.revisions, s.links, s.files, request)
  }

  predicate CreatableIn(
      current: Option<RevisionId>, revisions: map<RevisionId, Revision>, links: set<LinkName>, files: set<LinkName>,
      request: Request) {
    var name, landing := request.flightSheet.name, Landed(request.flightSheet.name);
    && Storable(name)
    && landing.At?
    && Fits(request)
    && (landing.place.Sheets? ||
        (&& (CrossesCurrent(name) ==> current.Some? && SheetsLink in links && IdentitiesLink in links)
         && FreeAt(current, revisions, links + files, landing.place, landing.file)))
  }

  predicate FreeAt(
      current: Option<RevisionId>, revisions: map<RevisionId, Revision>, taken: set<LinkName>, place: Place,
      file: string) {
    match place
    case Current | CurrentSheets | CurrentIdentities =>
      current.Some? && current.value in revisions && FileAt(place, file) !in revisions[current.value]
    case StateDirectory => TakenBy(file) != {} && TakenBy(file) !! taken
    case Staging => true
    case _ => false
  }

  /** A sheet whose name leads out of its directory creates its file there. */
  predicate StrayOf(s: State, s': State, entry: Entry) {
    var landing := Landed(SheetName(s));
    && s.journal.Holds?
    && landing.At? && !landing.place.Sheets?
    && s'.revisions.Keys == s.revisions.Keys
    && OnlyGrew(s.revisions, s'.revisions)
    && s.files <= s'.files
    && CreatedAt(s, s'.revisions, s'.files, landing.place, landing.file, entry)
    && s' == s.(revisions := s'.revisions, files := s'.files, past := s.past.(strays := s.past.strays + 1))
  }

  ghost predicate Stray(s: State, s': State) {
    exists entry: Entry :: StrayOf(s, s', entry)
  }

  /** Without its sheet a revision is only built once the sheet has gone astray. */
  predicate SheetAccounted(s: State) {
    Confined(SheetName(s)) || s.past.strays > s.past.origin.strays
  }

  /** A finished staging directory is renamed into place under an unused name. It is built
      on what is current, or on nothing if the identities of that could not be seen. */
  predicate InstallAs(s: State, s': State, id: RevisionId) {
    && s.journal.Holds?
    && s.current == s.past.origin.pointer
    && id !in s.revisions
    && Resolvable(s.past.origin.request)
    && SheetAccounted(s)
    && id in s'.revisions
    && s'.revisions[id] == Built(if s'.past.unseen then None else Content(s), s.past.origin.request)
    && s' == s.(revisions := s.revisions[id := s'.revisions[id]], past := s.past.(unseen := s'.past.unseen))
  }

  ghost predicate Install(s: State, s': State) {
    exists id: RevisionId :: InstallAs(s, s', id)
  }

  /** The `current` link is swapped to an installed revision. */
  predicate Publish(s: State, s': State) {
    && s.journal.Holds?
    && !s.active
    && s'.current.Some?
    && s'.current.value in s.revisions
    && s' == s.(current := s'.current)
  }

  predicate AddLink(s: State, s': State) {
    && s.journal.Holds?
    && s.current.Some?
    && s.links <= s'.links
    && s' == s.(links := s'.links)
  }

  /** `current` is put back; service commands are trusted only if `faithful`. */
  predicate RestoreCurrent(faithful: bool, s: State, s': State) {
    && s.journal.Holds?
    && (faithful ==> !s.active)
    && s' == s.(current := s.journal.snapshot.previous)
  }

  /** An undo begins, perhaps not for the first time. */
  predicate BeginUndo(s: State, s': State) {
    s.journal.Holds? && s' == s.(past := s.past.(slipped := false))
  }

  /** The removal of `current` or of a public name fails, and nobody notices. */
  predicate MissRemoval(s: State, s': State) {
    s.journal.Holds? && s.journal.snapshot.previous.None? && s' == s.(past := s.past.(slipped := true))
  }

  predicate RemoveLink(s: State, s': State) {
    && s.journal.Holds?
    && s.journal.snapshot.previous.None?
    && s'.links <= s.links
    && s'.files <= s.files
    && s' == s.(links := s'.links, files := s'.files)
  }

  /** The runtime agrees with what a committed request asks for. */
  predicate Applied(faithful: bool, s: State, request: Request) {
    var onBoot := request.profile.minerStartMode.OnBoot?;
    && (faithful ==> s.timezone == request.profile.timezone && s.enabled == onBoot)
    && (s.active ==> onBoot)
  }

  /** The runtime agrees with the snapshot; a miner is only running if it was
      running before, in the same boot. */
  predicate Reverted(faithful: bool, s: State, snapshot: Snapshot) {
    faithful ==>
      && s.timezone == snapshot.timezone
      && s.enabled == snapshot.enabled
      && (s.active ==> snapshot.active && s.bootId == snapshot.bootId)
  }

  /** What the installed revision was built on. */
  function Basis(s: State): Option<Revision> {
    if s.past.unseen then None else Lookup(s.revisions, s.past.origin.pointer)
  }

  /** Removing the journal after a complete change decides for the new state. */
  predicate Commit(faithful: bool, s: State, s': State) {
    && s.journal.Holds?
    && s.current.Some?
    && s.links + s.files == ALL_LINKS
    && Resolvable(s.past.origin.request)
    && SheetAccounted(s)
    && Content(s) == Some(Built(Basis(s), s.past.origin.request))
    && Applied(faithful, s, s.past.origin.request)
    && s' ==
         s.(journal := Absent,
            past := s.past.(log := s.past.log + [s.past.origin.request],
                            forgotten := if s.past.unseen then s.past.forgotten + 1 else s.past.forgotten))
  }

  /** The journal names the pointer that the transaction began with. */
  predicate Named(s: State) {
    s.journal.Holds? && s.journal.snapshot.previous == s.past.origin.pointer
  }

  /** The pointer is back where the journal has it. Without a pointer no public name is left. */
  predicate PointerUndone(s: State, previous: Option<RevisionId>) {
    s.current == previous && (previous.None? ==> s.links == {} && s.files == {})
  }

  /** An undo without the pointer, or in which a removal has slipped, cannot be relied on. */
  function DoubtfulAfterAbort(s: State): nat {
    if Named(s) && !s.past.slipped then s.past.doubtful else s.past.doubtful + 1
  }

  /** Removing the journal after an undo decides for the old state. The undo is complete
      unless a removal has slipped, which it cannot where there is a pointer to put back. */
  predicate Abort(faithful: bool, s: State, s': State) {
    && s.journal.Holds?
    && Reverted(faithful, s, s.journal.snapshot)
    && (s.past.slipped ==> s.journal.snapshot.previous.None?)
    && (!s.past.slipped ==> PointerUndone(s, s.journal.snapshot.previous))
    && s' == s.(journal := Absent, past := s.past.(doubtful := DoubtfulAfterAbort(s)))
  }

  /** The steps of the forward half of a transaction. */
  ghost predicate Forth(s: State, s': State) {
    Stray(s, s') || Install(s, s') || Publish(s, s') || AddLink(s, s')
  }

  /** The steps of an undo. */
  ghost predicate Back(faithful: bool, s: State, s': State) {
    RestoreCurrent(faithful, s, s') || BeginUndo(s, s') || MissRemoval(s, s') || RemoveLink(s, s')
  }

  /** The steps that decide a transaction. */
  ghost predicate Decision(faithful: bool, s: State, s': State) {
    Commit(faithful, s, s') || Abort(faithful, s, s')
  }

  ghost predicate Step(faithful: bool, s: State, s': State) {
    || ChangeRuntime(s, s')
    || Reboot(s, s')
    || OpenJournal(s, s')
    || Forth(s, s')
    || Back(faithful, s, s')
    || Decision(faithful, s, s')
  }

  predicate Initial(s: State) {
    && s.current.None?
    && s.revisions == map[]
    && s.links == {}
    && s.files == {}
    && s.journal.Absent?
    && s.past.log == []
    && s.past.doubtful == 0
    && s.past.strays == 0
    && s.past.forgotten == 0
  }

  ghost predicate StepAt(faithful: bool, trace: seq<State>, i: nat)
    requires 0 < i < |trace|
  {
    Step(faithful, trace[i - 1], trace[i])
  }

  ghost predicate Run(faithful: bool, trace: seq<State>) {
    && |trace| > 0
    && Initial(trace[0])
    && forall i :: 0 < i < |trace| ==> StepAt(faithful, trace, i)
  }

  lemma {:induction false} RunExtends(faithful: bool, trace: seq<State>, s': State)
    requires Run(faithful, trace)
    requires Step(faithful, trace[|trace| - 1], s')
    ensures Run(faithful, trace + [s'])
  {
    var longer := trace + [s'];
    forall i | 0 < i < |longer|
      ensures StepAt(faithful, longer, i)
    {
      if i < |trace| {
        assert StepAt(faithful, trace, i);
      }
    }
  }

  lemma {:induction false} Then(faithful: bool, trace: seq<State>, s': State) returns (longer: seq<State>)
    requires Run(faithful, trace)
    requires Step(faithful, trace[|trace| - 1], s')
    ensures longer == trace + [s'] && Run(faithful, longer)
  {
    RunExtends(faithful, trace, s');
    longer := trace + [s'];
  }

  // ----- the invariant -----

  predicate PointerResolves(s: State, pointer: Option<RevisionId>) {
    pointer.Some? ==> pointer.value in s.revisions
  }

  /** The pointer a decided register would be read through. */
  function DecidedPointer(s: State): Option<RevisionId> {
    if s.journal.Holds? then s.past.origin.pointer else s.current
  }

  /** Nothing has happened unnoticed that could do harm: no journal was dropped after an
      undo that had slipped or had no pointer, no sheet went astray, and no request was
      committed with the identities before it unseen. */
  predicate Unharmed(s: State) {
    s.past.doubtful == 0 && s.past.strays == 0 && s.past.forgotten == 0
  }

  ghost predicate Invariant(s: State) {
    && PointerResolves(s, s.current)
    && PointerResolves(s, DecidedPointer(s))
    && (s.past.strays == 0 ==> s.files == {} && forall id :: id in s.revisions ==> Complete(s.revisions[id]))
    && (forall i :: 0 <= i < |s.past.log| ==> Resolvable(s.past.log[i]))
    && (s.journal.Holds? ==>
          s.journal.snapshot.bootId <= s.bootId && s.journal.snapshot.previous in {None, s.past.origin.pointer})
    && (Unharmed(s) ==>
          && Lookup(s.revisions, DecidedPointer(s)) == Fold(s.past.log)
          && (s.past.log != [] && (!s.journal.Holds? || Named(s)) ==> s.links == ALL_LINKS)
          && (s.past.log == [] && !s.journal.Holds? ==> s.links == {}))
  }

  lemma {:induction false} BuiltIsComplete(prior: Option<Revision>, request: Request)
    requires Confined(request.flightSheet.name)
    ensures Complete(Built(prior, request))
  {
    BuiltExactlyIfConfined(prior, prior, request);
    SuccessorIsComplete(prior, request);
  }

  lemma {:induction false} InstalledIsComplete(s: State, s': State, id: RevisionId)
    requires InstallAs(s, s', id) && s.past.strays == 0
    ensures Complete(s'.revisions[id])
  {
    BuiltIsComplete(Content(s), s.past.origin.request);
    BuiltIsComplete(None, s.past.origin.request);
  }

  lemma {:induction false} InstallKeepsInvariant(s: State, s': State)
    requires Invariant(s) && Install(s, s')
    ensures Invariant(s')
  {
    var id: RevisionId :| InstallAs(s, s', id);
    if s.past.strays == 0 {
      InstalledIsComplete(s, s', id);
    }
    assert Kept(s.revisions, s'.revisions);
  }

  lemma {:induction false} OnlyLinksAreTaken(names: set<LinkName>)
    ensures names <= ALL_LINKS
  {
    forall name | name in names
      ensures name in ALL_LINKS
    {
      LinkListIsComplete(name);
    }
  }

  lemma {:induction false} CommitKeepsInvariant(faithful: bool, s: State, s': State)
    requires Invariant(s) && Commit(faithful, s, s')
    ensures Invariant(s')
  {
    assert s'.past.log[..|s'.past.log| - 1] == s.past.log;
    if Unharmed(s') {
      BuiltExactlyIfConfined(Fold(s.past.log), Fold(s.past.log), s.past.origin.request);
    }
  }

  lemma {:induction false} RuntimeStepKeepsInvariant(s: State, s': State)
    requires Invariant(s) && (ChangeRuntime(s, s') || Reboot(s, s'))
    ensures Invariant(s')
  {
  }

  lemma {:induction false} OpenJournalKeepsInvariant(s: State, s': State)
    requires Invariant(s) && OpenJournal(s, s')
    ensures Invariant(s')
  {
  }

  lemma {:induction false} ForwardStepKeepsInvariant(s: State, s': State)
    requires Invariant(s) && (Publish(s, s') || AddLink(s, s'))
    ensures Invariant(s')
  {
    OnlyLinksAreTaken(s'.links);
  }

  lemma {:induction false} StrayKeepsInvariant(s: State, s': State)
    requires Invariant(s) && Stray(s, s')
    ensures Invariant(s')
  {
  }

  lemma {:induction false} BackwardStepKeepsInvariant(faithful: bool, s: State, s': State)
    requires Invariant(s) && (RestoreCurrent(faithful, s, s') || RemoveLink(s, s'))
    ensures Invariant(s')
  {
  }

  lemma {:induction false} UndoEventKeepsInvariant(s: State, s': State)
    requires Invariant(s) && (BeginUndo(s, s') || MissRemoval(s, s'))
    ensures Invariant(s')
  {
  }

  lemma {:induction false} AbortKeepsInvariant(faithful: bool, s: State, s': State)
    requires Invariant(s) && Abort(faithful, s, s')
    ensures Invariant(s')
  {
  }

  lemma {:induction false} ForthKeepsInvariant(s: State, s': State)
    requires Invariant(s) && Forth(s, s')
    ensures Invariant(s')
  {
    if Install(s, s') {
      InstallKeepsInvariant(s, s');
    } else if Stray(s, s') {
      StrayKeepsInvariant(s, s');
    } else {
      ForwardStepKeepsInvariant(s, s');
    }
  }

  lemma {:induction false} BackKeepsInvariant(faithful: bool, s: State, s': State)
    requires Invariant(s) && Back(faithful, s, s')
    ensures Invariant(s')
  {
    if BeginUndo(s, s') || MissRemoval(s, s') {
      UndoEventKeepsInvariant(s, s');
    } else {
      BackwardStepKeepsInvariant(faithful, s, s');
    }
  }

  lemma {:induction false} StepKeepsInvariant(faithful: bool, s: State, s': State)
    requires Invariant(s) && Step(faithful, s, s')
    ensures Invariant(s')
  {
    if Forth(s, s') {
      ForthKeepsInvariant(s, s');
    } else if Back(faithful, s, s') {
      BackKeepsInvariant(faithful, s, s');
    } else if Commit(faithful, s, s') {
      CommitKeepsInvariant(faithful, s, s');
    } else if Abort(faithful, s, s') {
      AbortKeepsInvariant(faithful, s, s');
    } else if OpenJournal(s, s') {
      OpenJournalKeepsInvariant(s, s');
    } else {
      RuntimeStepKeepsInvariant(s, s');
    }
  }

  lemma {:induction false} RunKeepsInvariant(faithful: bool, trace: seq<State>, i: nat)
    requires Run(faithful, trace) && i < |trace|
    ensures Invariant(trace[i])
    decreases i
  {
    if i > 0 {
      RunKeepsInvariant(faithful, trace, i - 1);
      assert StepAt(faithful, trace, i);
      StepKeepsInvariant(faithful, trace[i - 1], trace[i]);
    }
  }

  /** Nothing is decided. */
  predicate SameHistory(s: State, s': State) {
    && s'.journal == s.journal
    && s'.past == s.past.(slipped := s'.past.slipped, unseen := s'.past.unseen, strays := s'.past.strays)
  }

  lemma {:induction false} ForthKeepsHistory(s: State, s': State)
    requires Forth(s, s')
    ensures s.journal.Holds? && SameHistory(s, s') && s'.past.slipped == s.past.slipped && s.links <= s'.links
    ensures s'.past.strays >= s.past.strays
  {
  }

  lemma {:induction false} BackKeepsHistory(faithful: bool, s: State, s': State)
    requires Back(faithful, s, s')
    ensures s.journal.Holds? && SameHistory(s, s') && s'.past.strays == s.past.strays && s'.revisions == s.revisions
    ensures s.journal.snapshot.previous.Some? ==> s'.links == s.links && (s'.past.slipped ==> s.past.slipped)
    ensures s'.current != s.current ==> RestoreCurrent(faithful, s, s')
  {
  }

  /** Nothing undoes what has happened unnoticed. */
  predicate HarmGrew(s: State, s': State) {
    && s.past.doubtful <= s'.past.doubtful
    && s.past.strays <= s'.past.strays
    && s.past.forgotten <= s'.past.forgotten
  }

  lemma {:induction false} StepGrowsHarm(faithful: bool, s: State, s': State)
    requires Step(faithful, s, s')
    ensures HarmGrew(s, s')
  {
    if Forth(s, s') {
      ForthKeepsHistory(s, s');
    } else if Back(faithful, s, s') {
      BackKeepsHistory(faithful, s, s');
    }
  }

  lemma {:induction false} HarmIsPermanent(faithful: bool, trace: seq<State>, i: nat, j: nat)
    requires Run(faithful, trace) && i <= j < |trace|
    ensures HarmGrew(trace[i], trace[j])
    decreases j
  {
    if i < j {
      HarmIsPermanent(faithful, trace, i, j - 1);
      assert StepAt(faithful, trace, j);
      StepGrowsHarm(faithful, trace[j - 1], trace[j]);
    }
  }

  // ----- theorems over all runs -----

  /** Refinement to an atomic register. Whenever no transaction is undecided, what
      is read through `current`, and through every public link, is exactly the
      result of the committed requests, and the gate decides by the last of them. */
  lemma {:induction false} RegisterRefinement(faithful: bool, trace: seq<State>, i: nat, link: LinkName, blocked: bool)
    requires Run(faithful, trace) && i < |trace|
    requires !trace[i].journal.Holds? && Unharmed(trace[i])
    ensures var s := trace[i];
            && Content(s) == Fold(s.past.log)
            && Resolve(s, link) == Fold(s.past.log)
            && Gate(s, blocked) ==
               if s.past.log == [] then None
               else Some(s.past.log[|s.past.log| - 1].profile.minerStartMode.OnBoot? && !blocked)
  {
    RunKeepsInvariant(faithful, trace, i);
    LinkListIsComplete(link);
    var log := trace[i].past.log;
    if log != [] {
      SuccessorRuntimeFiles(Fold(log[..|log| - 1]), log[|log| - 1]);
    }
  }

  /** At rest the current revision holds every alias ever committed with its
      latest record, and nothing under any other alias. */
  lemma {:induction false} IdentitiesSurviveRuns(faithful: bool, trace: seq<State>, i: nat, alias: string)
    requires Run(faithful, trace) && i < |trace|
    requires !trace[i].journal.Holds? && Unharmed(trace[i])
    ensures HoldsIdentity(Content(trace[i]), alias, Latest(trace[i].past.log, alias))
  {
    RunKeepsInvariant(faithful, trace, i);
    LatestIdentityWins(trace[i].past.log, alias);
  }

  /** At every intermediate point `current` is absent or names an installed revision,
      and that is whole and self-consistent unless a sheet has gone astray. */
  lemma {:induction false} CurrentIsAlwaysComplete(faithful: bool, trace: seq<State>, i: nat)
    requires Run(faithful, trace) && i < |trace|
    ensures trace[i].current.Some? ==> trace[i].current.value in trace[i].revisions
    ensures trace[i].current.Some? && trace[i].past.strays == 0 ==> Complete(trace[i].revisions[trace[i].current.value])
  {
    RunKeepsInvariant(faithful, trace, i);
  }

  /** With truthful service commands, `current` changes only while the miner is stopped. */
  lemma {:induction false} CurrentMovesOnlyWhileStopped(trace: seq<State>, i: nat)
    requires Run(true, trace) && 0 < i < |trace|
    requires trace[i - 1].current != trace[i].current
    ensures !trace[i - 1].active && !trace[i].active
  {
    assert StepAt(true, trace, i);
    MovesOnlyWhileStopped(trace[i - 1], trace[i]);
  }

  lemma {:induction false} MovesOnlyWhileStopped(s: State, s': State)
    requires Step(true, s, s') && s'.current != s.current
    ensures !s.active && !s'.active
  {
    if Back(true, s, s') {
      BackKeepsHistory(true, s, s');
    }
  }

  /** What holds while the transaction that began in `start` is undecided. */
  ghost predicate Undecided(start: State, s: State) {
    && s.journal.Holds?
    && Describes(s.journal.snapshot, start)
    && s.past.origin == OriginOf(start, s.past.origin.request)
    && s.past.log == start.past.log
    && s.past.doubtful == start.past.doubtful
    && s.past.forgotten == start.past.forgotten
    && (s.journal.snapshot.previous.Some? ==> start.links <= s.links && !s.past.slipped)
    && s.past.strays >= start.past.strays
    && (Confined(SheetName(s)) ==> s.past.strays == start.past.strays)
    && OnlyGrew(start.revisions, s.revisions)
    && (s.past.strays == start.past.strays ==> Kept(start.revisions, s.revisions))
  }

  lemma {:induction false} UndecidedBegins(faithful: bool, start: State, s': State)
    requires start.journal.Absent? && s'.journal.Holds? && Step(faithful, start, s')
    ensures Undecided(start, s')
  {
    assert OpenJournal(start, s');
  }

  lemma {:induction false} GrowthIsTransitive(
      a: map<RevisionId, Revision>, b: map<RevisionId, Revision>, c: map<RevisionId, Revision>)
    requires OnlyGrew(a, b) && OnlyGrew(b, c)
    ensures OnlyGrew(a, c)
  {
  }

  lemma {:induction false} UndecidedAfterStray(start: State, s: State, s': State)
    requires Undecided(start, s) && Stray(s, s')
    ensures Undecided(start, s') && s'.journal == s.journal && s'.past.origin == s.past.origin
  {
    GrowthIsTransitive(start.revisions, s.revisions, s'.revisions);
  }

  lemma {:induction false} UndecidedAfterInstall(start: State, s: State, s': State)
    requires Undecided(start, s) && Install(s, s')
    ensures Undecided(start, s') && s'.journal == s.journal && s'.past.origin == s.past.origin
  {
  }

  lemma {:induction false} UndecidedAfterBack(faithful: bool, start: State, s: State, s': State)
    requires Undecided(start, s) && Back(faithful, s, s')
    ensures Undecided(start, s') && s'.journal == s.journal && s'.past.origin == s.past.origin
  {
    BackKeepsHistory(faithful, s, s');
  }

  lemma {:induction false} UndecidedAfterForth(start: State, s: State, s': State)
    requires Undecided(start, s) && Forth(s, s')
    ensures Undecided(start, s') && s'.journal == s.journal && s'.past.origin == s.past.origin
  {
    if Stray(s, s') {
      UndecidedAfterStray(start, s, s');
    } else if Install(s, s') {
      UndecidedAfterInstall(start, s, s');
    }
  }

  lemma {:induction false} UndecidedContinues(faithful: bool, start: State, s: State, s': State)
    requires Undecided(start, s) && s'.journal.Holds? && Step(faithful, s, s')
    ensures Undecided(start, s') && s'.journal == s.journal && s'.past.origin == s.past.origin
  {
    if Forth(s, s') {
      UndecidedAfterForth(start, s, s');
    } else if Back(faithful, s, s') {
      UndecidedAfterBack(faithful, start, s, s');
    } else {
      OnlyRuntimeElse(faithful, s, s');
      UndecidedAfterRuntime(start, s, s');
    }
  }

  lemma {:induction false} OnlyRuntimeElse(faithful: bool, s: State, s': State)
    requires s.journal.Holds? && s'.journal.Holds? && Step(faithful, s, s') && !Forth(s, s') && !Back(faithful, s, s')
    ensures ChangeRuntime(s, s') || Reboot(s, s')
  {
  }

  lemma {:induction false} UndecidedAfterRuntime(start: State, s: State, s': State)
    requires Undecided(start, s) && (ChangeRuntime(s, s') || Reboot(s, s'))
    ensures Undecided(start, s') && s'.journal == s.journal && s'.past.origin == s.past.origin
  {
  }

  /** While a transaction is undecided the journal is never overwritten, nothing
      is committed, and no installed revision loses or changes a file; none gains one
      either, unless the sheet of this transaction has gone astray. */
  lemma {:induction false} UndecidedKeepsJournal(faithful: bool, trace: seq<State>, a: nat, b: nat)
    requires Run(faithful, trace) && a < b < |trace|
    requires trace[a].journal.Absent?
    requires forall k :: a < k <= b ==> trace[k].journal.Holds?
    ensures Undecided(trace[a], trace[b])
    ensures trace[b].journal == trace[a + 1].journal && trace[b].past.origin == trace[a + 1].past.origin
    decreases b
  {
    assert StepAt(faithful, trace, b);
    if b == a + 1 {
      UndecidedBegins(faithful, trace[a], trace[b]);
    } else {
      UndecidedKeepsJournal(faithful, trace, a, b - 1);
      UndecidedContinues(faithful, trace[a], trace[b - 1], trace[b]);
    }
  }

  /** The old state is in force again, as far as the journal of the undo describes it. Where
      the journal has a pointer, that is the old one, every public name is still there, and
      the content is exact unless this very sheet went astray. Where it has none, everything
      is gone unless a removal has slipped; this is the old state unless the pointer was
      there and was not read. */
  ghost predicate Reinstated(faithful: bool, before: State, after: State, snapshot: Snapshot, slipped: bool) {
    && after.past.log == before.past.log
    && after.past.forgotten == before.past.forgotten
    && Reverted(faithful, after, SnapshotOf(before))
    && (snapshot.previous.Some? ==>
          && !slipped
          && after.current == before.current
          && before.links <= after.links
          && (after.past.strays == before.past.strays ==> Content(after) == Content(before)))
    && (snapshot.previous.None? && !slipped ==> PointerUndone(after, None))
    && after.past.doubtful ==
         if snapshot.previous == before.current && !slipped then before.past.doubtful else before.past.doubtful + 1
  }

  /** The old content is advanced by one whole request, and by nothing else, exactly if the
      sheet is confined and the old identities were seen or there were none to carry over. */
  ghost predicate AdvancedBy(faithful: bool, before: State, after: State, request: Request, unseen: bool) {
    && after.past.log == before.past.log + [request]
    && Resolvable(request)
    && Applied(faithful, after, request)
    && after.past.doubtful == before.past.doubtful
    && after.past.forgotten == (if unseen then before.past.forgotten + 1 else before.past.forgotten)
    && (after.past.strays == before.past.strays <==> Confined(request.flightSheet.name))
    && Content(after) == Some(Built(if unseen then None else Lookup(after.revisions, before.current), request))
    && (Content(after) == Some(Successor(Content(before), request)) <==>
          && Confined(request.flightSheet.name)
          && (unseen ==> Carried(Content(before), request.identity.alias) == map[]))
  }

  lemma {:induction false} AbortReinstates(faithful: bool, before: State, s: State, s': State)
    requires Invariant(before) && Undecided(before, s) && Abort(faithful, s, s')
    ensures Reinstated(faithful, before, s', s.journal.snapshot, s.past.slipped)
  {
    assert s.past.strays == before.past.strays ==> Lookup(s.revisions, before.current) == Content(before);
  }

  lemma {:induction false} CommitAdvances(faithful: bool, before: State, s: State, s': State)
    requires Invariant(before) && Undecided(before, s) && Commit(faithful, s, s')
    ensures AdvancedBy(faithful, before, s', s.past.origin.request, s.past.unseen)
  {
    var request := s.past.origin.request;
    assert s.past.strays == before.past.strays ==> Lookup(s.revisions, before.current) == Content(before);
    BuiltExactlyIfConfined(Basis(s), Content(before), request);
    if Confined(request.flightSheet.name) {
      BuiltExactlyIfConfined(Content(before), Content(before), request);
      SeenUnlessNothingToCarry(Content(before), request);
    }
  }

  lemma {:induction false} JournalEnds(faithful: bool, s: State, s': State)
    requires s.journal.Holds? && !s'.journal.Holds? && Step(faithful, s, s')
    ensures s'.journal.Absent? && Decision(faithful, s, s')
  {
    if Forth(s, s') {
      ForthKeepsHistory(s, s');
    } else if Back(faithful, s, s') {
      BackKeepsHistory(faithful, s, s');
    }
  }

  /** Crash recovery is all-or-nothing. However many failures, crashes, reboots
      and repeated recoveries lie between the writing of a journal and its
      removal, the outcome is either the old state, or the old content advanced by the one
      whole request the journal was opened for. The old pointer, names and content are back
      without condition wherever the journal has the pointer. */
  lemma {:induction false} TransactionIsAtomic(faithful: bool, trace: seq<State>, a: nat, b: nat)
    requires Run(faithful, trace) && a < b < |trace| - 1
    requires trace[a].journal.Absent?
    requires forall k :: a < k <= b ==> trace[k].journal.Holds?
    requires !trace[b + 1].journal.Holds?
    ensures trace[b + 1].journal.Absent?
    ensures || Reinstated(faithful, trace[a], trace[b + 1], trace[a + 1].journal.snapshot, trace[b].past.slipped)
            || AdvancedBy(faithful, trace[a], trace[b + 1], trace[a + 1].past.origin.request, trace[b].past.unseen)
  {
    UndecidedKeepsJournal(faithful, trace, a, b);
    RunKeepsInvariant(faithful, trace, a);
    assert StepAt(faithful, trace, b + 1);
    JournalEnds(faithful, trace[b], trace[b + 1]);
    if Abort(faithful, trace[b], trace[b + 1]) {
      AbortReinstates(faithful, trace[a], trace[b], trace[b + 1]);
    } else {
      CommitAdvances(faithful, trace[a], trace[b], trace[b + 1]);
    }
  }

  lemma {:induction false} OnlyAbortDoubts(faithful: bool, s: State, s': State)
    requires Step(faithful, s, s') && s'.past.doubtful != s.past.doubtful
    ensures Abort(faithful, s, s')
  {
    if Forth(s, s') {
      ForthKeepsHistory(s, s');
    } else if Back(faithful, s, s') {
      BackKeepsHistory(faithful, s, s');
    }
  }

  /** An undo is only ever doubtful where the journal has no pointer. */
  lemma {:induction false} DoubtfulOnlyWithoutPointer(faithful: bool, trace: seq<State>, i: nat)
    requires Run(faithful, trace) && 0 < i < |trace|
    requires trace[i].past.doubtful != trace[i - 1].past.doubtful
    ensures trace[i - 1].journal.Holds? && trace[i - 1].journal.snapshot.previous.None?
    ensures trace[i - 1].past.slipped || trace[i - 1].past.origin.pointer.Some?
  {
    RunKeepsInvariant(faithful, trace, i - 1);
    assert StepAt(faithful, trace, i);
    OnlyAbortDoubts(faithful, trace[i - 1], trace[i]);
  }

  /** A torn journal is never repaired: no later transaction or recovery changes
      the configuration or removes the file. */
  lemma {:induction false} TornJournalIsPermanent(faithful: bool, trace: seq<State>, i: nat, j: nat)
    requires Run(faithful, trace) && i <= j < |trace|
    requires trace[i].journal.Torn?
    ensures trace[j] ==
              trace[i].(timezone := trace[j].timezone, enabled := trace[j].enabled, active := trace[j].active,
                        bootId := trace[j].bootId)
    decreases j
  {
    if i < j {
      TornJournalIsPermanent(faithful, trace, i, j - 1);
      assert StepAt(faithful, trace, j);
    }
  }

  /** The register property needs removals to succeed: undoing a first
      configuration while the removal of `current` fails unnoticed ends with the
      journal gone, nothing committed, and the undone revision in force. */
  lemma {:induction false} UnnoticedRemovalFailureLeavesNewRevision(start: State, request: Request)
    returns (trace: seq<State>)
    requires Initial(start) && !start.active && Resolvable(request) && Confined(request.flightSheet.name)
    ensures Run(true, trace)
    ensures var last := trace[|trace| - 1];
            && last.journal.Absent?
            && last.past.log == []
            && last.past.doubtful == 1
            && last.past.strays == 0
            && last.past.forgotten == 0
            && Content(last) == Some(Successor(None, request))
  {
    var journaled :=
      start.(journal := Holds(SnapshotOf(start)),
             past := start.past.(origin := OriginOf(start, request), slipped := false, unseen := false));
    var installed := journaled.(revisions := journaled.revisions[0 := Built(None, request)]);
    var published := installed.(current := Some(0));
    var missed := published.(past := published.past.(slipped := true));
    var aborted := missed.(journal := Absent, past := missed.past.(doubtful := 1));
    BuiltExactlyIfConfined(None, None, request);
    assert InstallAs(journaled, installed, 0);
    assert OpenJournal(start, journaled) && Publish(installed, published);
    assert MissRemoval(published, missed) && Abort(true, missed, aborted);
    trace := Then(true, [start], journaled);
    trace := Then(true, trace, installed);
    trace := Then(true, trace, published);
    trace := Then(true, trace, missed);
    trace := Then(true, trace, aborted);
  }
}
