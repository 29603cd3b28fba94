# RIGOS verification model

RIGOS is a mining appliance that boots from a USB disk. This project models four
of its parts in Dafny and proves what they promise: the transaction that changes
the local configuration, the repair of embedded configuration fragments, the
signed status service, and the initialization of the state partition.
`dafny verify dfyconfig.toml` checks all of it.

**The configuration transaction** (`Revisions`, `SheetPaths`, `Protocol`,
`Appliance`, `Lifetime`, `Mishaps`, `FlightSheets`). A commit writes a journal with a snapshot of
the pointer and the miner runtime, stops the miner, builds a whole revision beside the
old ones, swaps the `current` link, applies the runtime settings and removes the
journal. A failure undoes everything; a crash is undone later, by recovery that may
crash itself. `Appliance` is the program: a class over the state directory and the
runtime in which operations may fail and the program may be killed before, during or
after each. Its methods record their atomic steps, so every run of the class is a run
of the state machine in `Protocol`, where the theorems over whole runs are proved
against an atomic register, which is a fold over the log of committed requests
(`Revisions`). `SheetPaths` follows the name of a mining sheet, which a transaction
does not check, to the directory its file is created in; `Revisions.Built` is the
revision that results wherever that is. `Lifetime` is the life of an appliance: any
number of boots, each with any number of transactions and recoveries that may be killed
anywhere. `Mishaps` runs the program on machines where nothing fails but what is named, and
shows where it does less than it promises. `FlightSheets` is the in-place validation of a sheet, which the preparing command does.

Six operations fail without the program noticing: the checks whether the journal, the
identities of the last revision or a public name is there, the reading of the `current`
link and of the kernel command line, and the removal of public names. Each may fail in
the model too, into the answer the program takes it for; `Unnoticed` says which did.

Beside what is on the disk and in the runtime, a state has a `History` of events. Two are
what the program did not notice: `slipped`, a removal has failed since the present undo
began; `unseen`, the revision installed last was built without seeing the identities
before it. Three count what cannot be undone. `doubtful` counts journals dropped after an
undo in which a removal had slipped or whose journal did not name the pointer; where the
journal holds a pointer, no removal is even tried, and the undo is exact
(`Protocol.DoubtfulOnlyWithoutPointer`). `strays` counts sheets written outside their
directory, which happens only for sheet names that are not `Confined`, as a caller can
compute. `forgotten` counts commits of a revision built on unseen identities.
`Unharmed` says that all three are zero. They are in every life of a machine on which every
sheet name is confined and three of the six operations never fail, the reading of the
pointer, the check for the last identities and the removals, whatever else fails and
wherever the program is killed (`Lifetime.Boots`); so the theorems that need it apply.

A `Setting` says what is assumed of the environment. `faithful`: a service command that
reports success has taken effect; without it, nothing is claimed about timezone, enabled
state and miner. `reliable`: no operation fails but those of the six in `failing`, which
fail whenever they are tried. `dependable`: those of the six that never fail. `Station` has
the first two, `reliable` for the present run. Queries of the service manager that answer
at all answer truthfully.

**Fragment repair** (`MemberCommas`, `JsonText`, `FragmentRepair`). Embedded
configuration is a list of JSON members in which commas may be missing.
`MemberCommas` is the scanner that inserts them, `JsonText` the grammar and parser
of JSON text, and `FragmentRepair` proves that repairing and parsing gives exactly
the map the members stand for.

**The status service** (`StatusPolicy`, `SensitiveNames`, `Sanitizer`,
`Observations`, `Acceptance`, `StoredForm`, `LegacyRandomx`, `LegacyAcceptance`,
`RoundTrip`, `Privacy`, `StatusStore`, `Replay`, `StatusRead`). Signed observations are
validated and reduced to allow-listed facts, stored one row per source with a table
of used nonces, and validated again on every read. `Acceptance.AnyOrderIsAccepted`
and `LegacyAcceptance.LegacyFormIsAccepted` give observations of both forms that
meet the preconditions of the theorems, as `LayoutFacts.BuiltImageIsAccepted` does
for disks.

**The state partition** (`Layout`, `LayoutFacts`, `Growth`, `GrownDisk`,
`Station`). The boot disk is compared with the image manifest; the last partition
is then grown to the end of the disk, checked again, mounted and recorded. `Station` is
the program; its last method is any number of boots, each with any number of runs.

`Counting` holds the pigeonhole that the component registry and the partition
table share, `Multiples` the arithmetic of alignment, `Texts` the cutting of texts at a
separator, and `Wrappers` the failure datatypes.

## Where the code does less than it says

Each of these is proved, either as a concrete run or as an exact condition.

- A transaction reads its request without checking the sheet name
  (crates/rigos-config/src/main.rs:185-193) and makes it part of a path
  (crates/rigos-config/src/lib.rs:907-914). A name can lead through `current` into an
  installed revision, where the file survives the commit as an alias that was never
  committed (`Mishaps.StrayIdentity`); it can take a public name before its link is made
  (`Mishaps.StrayPublicName`); and it can name a directory that does not exist, so that
  the commit fails where nothing else does (`Mishaps.StrayNowhere`). A name that leads
  into the revision being staged is refused if another file of the revision has that name,
  as `../policy` always is, and taken otherwise: the sheet of a request without provenance
  can become its provenance (`Mishaps.SheetAmongDocuments`). What is built is what
  is meant exactly if the name is confined (`Revisions.BuiltExactlyIfConfined`), which
  every name without a slash is (`SheetPaths.SlashFreeIsConfined`) and every name the
  preparing command accepts (`FlightSheets.AcceptedNameIsConfined`).
- A `current` link that cannot be read counts as missing
  (crates/rigos-config/src/main.rs:519): an undo then removes the configuration
  (`Mishaps.BlindUndo`).
- Identities whose directory cannot be seen are not carried over
  (crates/rigos-config/src/lib.rs:916-917): the commit succeeds without them
  (`Mishaps.ForgottenIdentities`).
- A journal that cannot be seen counts as none (crates/rigos-config/src/main.rs:672):
  recovery reports success and leaves it (`Mishaps.OverlookedJournal`). A transaction
  that overlooks it fails when it creates its own (`Appliance.Machine.Transact`).
- A kernel command line that cannot be read blocks nothing
  (crates/rigos-config/src/main.rs:708-713, crates/rigos-state/src/main.rs:94-101): the
  miner starts (`Mishaps.UnreadCommandLine`), and a stateless boot is initialized
  (`Station.Station.Execute`).
- Removing the public links is best effort (crates/rigos-config/src/main.rs:694).
  Undoing a first configuration leaves nothing behind exactly if no removal slipped;
  otherwise the abandoned configuration can stay in force without a journal
  (`Protocol.UnnoticedRemovalFailureLeavesNewRevision`).
- The journal is created and then written (crates/rigos-config/src/main.rs:789-800),
  so a crash can leave a file that does not parse. It is never repaired and blocks
  every later transaction (`Protocol.TornJournalIsPermanent`).
- docs/local-rig-config.md:37 says that the miner remains stopped when restoration
  is incomplete. The rollback makes one last attempt to stop it and ignores its
  failure; the contract of `RollbackTransaction` therefore says it only for a stop
  that succeeded. The journal is retained in any case.
- A request can be replayed when server clocks disagree by more than 300 seconds;
  the bound is exact (`Replay.SignedRequestIsAcceptedTwice`). It is accepted again exactly
  if a batch accepted in between has a clock past the expiry of its nonce
  (`StatusStore.ReplayedExactly`).
- The loop over listed partitions does not check that their numbers differ
  (`LayoutFacts.RepeatedListingIsAccepted`, `LayoutFacts.EveryPartitionListed`).
- The growth commands name partition 4 whatever the manifest says, so no other state
  partition can grow (`GrownDisk.OtherPartitionNeverGrows`, `Station.Station.GrowState`).
- A run that is cut short between writing the table and refreshing the kernel makes the
  next run of the same boot write the table again; no later boot does
  (`Station.Station.Boots`).
- A partition that already reaches beyond the last aligned boundary is recorded as
  smaller than it is (`Growth.RecordIsExact`).
- While the state partition is mounted, a second initializing run of the same boot
  is refused (`GrownDisk.MountedStateNeedsAttestation`).

## Model

| member | source | states |
|---|---|---|
| `Revisions.AliasFilePassesCarryFilter` | crates/rigos-config/src/lib.rs:1008-1016 | The file name of every alias that passes the slug check passes the carry-over filter, so no valid identity is dropped by name. |
| `Revisions.AliasFileInjective` | crates/rigos-config/src/lib.rs:922-938 | Different aliases have different identity files, so carrying one never overwrites another. |
| `Revisions.SuccessorRuntimeFiles` | crates/rigos-config/src/lib.rs:904-961 | Carried identities never displace the policy, miner and sheet documents of a new revision. |
| `Revisions.SuccessorIsComplete` | crates/rigos-config/src/lib.rs:897-979 | Whatever was current before, a committed revision holds every file the start path reads, and policy, miner document, sheet and identity agree. |
| `Revisions.BuiltExactlyIfConfined` | crates/rigos-config/src/lib.rs:904-978 | The revision that is built, wherever the sheet goes, is the one that is meant exactly if the sheet name is confined. |
| `Revisions.SeenUnlessNothingToCarry` | crates/rigos-config/src/lib.rs:915-931 | Building a revision without the identities of the last one makes no difference exactly if none of them passes the carry-over filter. |
| `Revisions.CommitUpdatesIdentity` | crates/rigos-config/src/lib.rs:915-938 | One commit sets the record of its own alias and keeps the latest record of every other alias. |
| `Revisions.LatestIdentityWins` | crates/rigos-config/src/lib.rs:915-938 | Over any sequence of commits the current revision holds every alias ever committed, with its last record, and no other alias. |
| `Protocol.RunKeepsInvariant` | crates/rigos-config/src/main.rs:500-698 | Every state of every run of steps, failures, crashes, reboots and recoveries keeps the protocol invariant. |
| `Protocol.RegisterRefinement` | crates/rigos-config/src/main.rs:500-572 | Refinement to an atomic register: at rest, what is read through `current` and through each public link, and what the start gate answers, is what the last committed request put there, or nothing; for every run in which no undo was doubtful, no sheet went astray and no identities were unseen. |
| `Protocol.IdentitiesSurviveRuns` | crates/rigos-config/src/lib.rs:915-938 | At rest in any unharmed run `current` holds every alias ever committed with its latest record, and no other alias. |
| `Protocol.CurrentIsAlwaysComplete` | crates/rigos-config/src/lib.rs:979-996 | At every intermediate point `current` is absent or names an installed revision, and that is complete while no sheet has gone astray. |
| `Protocol.CurrentMovesOnlyWhileStopped` | crates/rigos-config/src/main.rs:525-541 | With truthful service commands the pointer changes only while the miner is stopped. |
| `Protocol.UndecidedKeepsJournal` | crates/rigos-config/src/main.rs:506-571 | While a transaction is undecided its journal is never overwritten and describes the state it started from, but for a pointer that could not be read; nothing is committed, and no older revision loses or changes a file, nor gains one unless its own sheet went astray. |
| `Protocol.TransactionIsAtomic` | crates/rigos-config/src/main.rs:605-678 | However many failures, crashes, reboots and interrupted recoveries lie between, a transaction ends all-old or advanced by the one request it was opened for. Wherever the journal names a pointer, all-old is the old pointer, every old name and the old content, without condition but for a sheet of its own that went astray. Advanced means that the content is exactly that of the request if and only if its sheet is confined and the old identities were seen or there were none to carry over. |
| `Protocol.DoubtfulOnlyWithoutPointer` | crates/rigos-config/src/main.rs:680-698 | An undo is only ever doubtful where its journal has no pointer, and then because a removal slipped or because the pointer was there and was not read. |
| `Protocol.HarmIsPermanent` | crates/rigos-config/src/main.rs:500-698 | No step of any run takes back a doubtful undo, a stray sheet or a forgotten identity: a run that ends unharmed was so all along. |
| `Protocol.TornJournalIsPermanent` | crates/rigos-config/src/main.rs:670-678 | A journal file that does not parse blocks every later transaction and recovery: nothing on disk changes any more. |
| `Protocol.UnnoticedRemovalFailureLeavesNewRevision` | crates/rigos-config/src/main.rs:680-698 | A run in which an ignored removal failure makes an abandoned first configuration stay in force, with no journal left: why the register property needs removals that do not slip. |
| `SheetPaths.SlashFreeIsConfined` | crates/rigos-config/src/lib.rs:907-914 | A sheet whose name has no slash is written into its directory, under its own name. |
| `SheetPaths.IntoCurrentIdentities` | crates/rigos-config/src/lib.rs:907-914 | For every file name there is a sheet name that leads through `current` to that file among the installed identities. |
| `SheetPaths.IntoStateDirectory` | crates/rigos-config/src/lib.rs:907-914 | For every file name there is a sheet name that leads to that file in the state directory. |
| `SheetPaths.IntoStaging` | crates/rigos-config/src/lib.rs:907-914 | For every file name there is a sheet name that leads to that file beside the documents of the revision being staged. |
| `SheetPaths.MissingDirectory` | crates/rigos-config/src/lib.rs:907-914 | A sheet name that starts with an unknown directory leads nowhere. |
| `Appliance.Machine.SetTimezone` | crates/rigos-config/src/main.rs:452-454 | Success of a truthful tool sets the timezone; failure may leave any value; a killed program changes nothing. |
| `Appliance.Machine.WriteJournal` | crates/rigos-config/src/main.rs:789-800 | Success leaves exactly the snapshot; failure leaves no journal or a torn one. |
| `Appliance.Machine.RemoveJournal` | crates/rigos-config/src/main.rs:545-554 | Removal is the one step that decides: it is allowed only when the change, or the undo, is complete. |
| `Appliance.Machine.CarryIdentities` | crates/rigos-config/src/lib.rs:916-931 | The loop copies exactly the identity files of the prior revision that pass the filter. |
| `Appliance.Machine.WriteSheet` | crates/rigos-config/src/lib.rs:907-914 | Success creates the file of the sheet where its name leads and stages nothing else: in the revision if it leads there, astray if the name is not confined; a name that leads nowhere fails and changes nothing; where nothing fails and the file can be created, it is. |
| `Appliance.Machine.StageRevision` | crates/rigos-config/src/lib.rs:904-978 | A successful staging holds exactly what is built of the request on the revision that is current, or on nothing if its identities could not be seen. |
| `Appliance.Machine.EnsurePublicLinks` | crates/rigos-config/src/lib.rs:1282-1288 | Success leaves each public name a link or, where it was one, a regular file, and removes none; a name that is not seen to be taken is in the way. |
| `Appliance.Machine.PublishRevision` | crates/rigos-config/src/lib.rs:979-1000 | Success installs exactly what was staged under an unused name, makes it current, names everything and keeps every other revision. |
| `Appliance.Machine.CommitRevision` | crates/rigos-config/src/lib.rs:892-1006 | Success makes exactly what is built of the request current, in a new revision, with its sheet where the name leads; older revisions only gain files, and for a confined name none; an unresolvable request changes nothing. |
| `Appliance.Machine.RestorePointer` | crates/rigos-config/src/main.rs:680-698 | With a target: the pointer is put back, and nothing else changes. Without: success is always reported, and pointer and public names are all gone exactly if no removal slipped. |
| `Appliance.Machine.RestoreRuntime` | crates/rigos-config/src/main.rs:640-668 | Success restores timezone and enabled state, and starts the miner only if asked and it was running. |
| `Appliance.Machine.RollbackTransaction` | crates/rigos-config/src/main.rs:605-638 | Success is the snapshot again, with the miner running exactly if it was and the boot is the same; without a pointer everything is gone exactly if no removal slipped; on failure the miner is stopped if the last stop succeeded, and the journal stays. |
| `Appliance.Machine.RecoverPending` | crates/rigos-config/src/main.rs:670-678 | Once the journal is gone the snapshot is restored, even if the program was killed before it could say so, but for removals that slipped where there was no pointer; the undo is doubtful exactly if one did, or if the journal did not name the pointer; Ok means that the journal is gone, or that it was overlooked and nothing changed; a torn journal that is seen is an error that changes nothing. |
| `Appliance.Machine.ApplyNewRuntime` | crates/rigos-config/src/main.rs:574-599 | Success leaves timezone, enabled state and miner as the profile and the kernel command line ask; one that could not be read blocks nothing. |
| `Appliance.Machine.Operate` | crates/rigos-config/src/main.rs:525-544 | Success is the whole new state, with exactly what is built of the request in force; in any outcome older revisions only gain files, and for a confined sheet name none; where nothing fails and the sheet file can be created, a request succeeds exactly if it is resolvable. |
| `Appliance.Machine.TakeSnapshot` | crates/rigos-config/src/main.rs:513-523 | A snapshot, if taken, is of the present state, its pointer missing if it could not be read; taking it changes nothing. |
| `Appliance.Machine.Transact` | crates/rigos-config/src/main.rs:500-572 | Ok is all-new, with the content of the request if and only if its sheet name is confined and the old identities were seen or there were none to carry over; an error without a journal is all-old unless the pointer was not read or, where there was none, a removal slipped; a crash without a journal is one of the two; with a journal the result is an error, nothing is decided and the journal holds the starting snapshot; where nothing fails and the sheet file can be created, it succeeds exactly if the request is resolvable, and never if the sheet is in the way of another file of the revision. |
| `Lifetime.Boots` | crates/rigos-config/src/main.rs:500-698 | Over any number of boots with any number of transactions with confined sheets and of recoveries, each killed anywhere, in which anything may fail but the reading of the pointer, the check for the last identities and the removals: no undo is ever doubtful and no identity forgotten; at every moment at which no transaction is undecided, the content, every public link and every identity are those of the requests committed so far; these are requests that were made, in order and each at most once, and every request reported as applied is among them. |
| `Mishaps.StrayIdentity` | crates/rigos-config/src/lib.rs:907-931 | Where nothing fails, a transaction whose sheet name leads into the identities of `current` is committed, changes the revision that was current and leaves an alias that was never committed in force. |
| `Mishaps.StrayPublicName` | crates/rigos-config/src/lib.rs:1282-1288 | Where nothing fails, a first configuration whose sheet name leads to a public name is committed, and the name does not resolve through `current`. |
| `Mishaps.SheetAmongDocuments` | crates/rigos-config/src/lib.rs:904-961 | A resolvable request whose sheet name leads into the revision being staged succeeds, where nothing fails, exactly if no other file of the revision has that name, and with one never succeeds; the sheet of a request without provenance can stand in force as its provenance. |
| `Mishaps.StrayNowhere` | crates/rigos-config/src/lib.rs:907-914 | Where nothing fails, a resolvable request whose sheet name starts with an unknown directory is refused and undone. |
| `Mishaps.BlindUndo` | crates/rigos-config/src/main.rs:519 | Where only the `current` link cannot be read, a refused request loses the configuration. |
| `Mishaps.ForgottenIdentities` | crates/rigos-config/src/lib.rs:916-931 | Where only the old identities cannot be seen, a commit succeeds and drops every alias but its own. |
| `Mishaps.OverlookedJournal` | crates/rigos-config/src/main.rs:670-678 | Where the journal cannot be seen, recovery reports success and leaves it. |
| `Mishaps.UnreadCommandLine` | crates/rigos-config/src/main.rs:708-713 | Where only the kernel command line cannot be read, an item that blocks mining does not keep the miner stopped. |
| `Texts.SplitJoins` | crates/rigos-config/src/lib.rs:1079-1088 | The labels of a host name are the name cut at all of its dots. |
| `FlightSheets.AcceptedNameIsConfined` | crates/rigos-config/src/lib.rs:393-410 | The name of a sheet the preparing command accepts keeps its file in the sheet directory of the revision, and every file system can hold it. |
| `FlightSheets.SortingOrders` | crates/rigos-config/src/lib.rs:446 | Sorting orders the pools by priority and keeps exactly the same pools. |
| `FlightSheets.OrderIsUnique` | crates/rigos-config/src/lib.rs:433-446 | Pools of distinct priorities have only one order. |
| `FlightSheets.CanonicalIsFixpoint` | crates/rigos-config/src/lib.rs:433-446 | The form an accepted sheet is left in is ordered, holds the given pools in lower case, and is accepted again unchanged. |
| `FlightSheets.CanonicalIgnoresOrder` | crates/rigos-config/src/lib.rs:433-446 | Sheets that list the same pools in another order or case end in the same form. |
| `FlightSheets.FlightSheet.CheckPools` | crates/rigos-config/src/lib.rs:433-445 | The in-place loop succeeds exactly if every pool is good and no priority repeats, and then has lowered every host and nothing else. |
| `FlightSheets.FlightSheet.Validate` | crates/rigos-config/src/lib.rs:393-470 | Accepts exactly the good sheets and leaves their pools in canonical form. |
| `MemberCommas.InsertTopLevelMemberCommas` | crates/rigos-config/src/lib.rs:790-855 | The two nested loops terminate and compute the one-character-at-a-time transducer. |
| `MemberCommas.SkipBlankRun` | crates/rigos-config/src/lib.rs:827-832 | The inner loop consumes a maximal run of whitespace and copies it unchanged. |
| `MemberCommas.FeedAppend` | crates/rigos-config/src/lib.rs:790-855 | Scanning a concatenation is scanning its parts in order. |
| `MemberCommas.InsertsExactlyTheMissingCommas` | crates/rigos-config/src/lib.rs:790-855 | The scanner succeeds exactly if brackets outside strings never close below zero, never nest beyond a 32-bit depth and end balanced outside a string, and the text does not open with blank space and a quote; the output is the text with a comma before exactly those quotes at depth 0 that follow a value and whitespace. |
| `MemberCommas.ErasureRestoresInput` | crates/rigos-config/src/lib.rs:790-855 | Erasing the inserted commas gives back the input character for character, and each stands outside strings at depth 0 just before a quote. |
| `MemberCommas.InsertionIsIdempotent` | crates/rigos-config/src/lib.rs:790-855 | Repairing a repaired text changes nothing. |
| `JsonText.ValueReadBack` | crates/rigos-config/src/lib.rs:786-788 | Every JSON value (sections 2 to 7 of RFC 8259) that is written out parses back to itself. |
| `JsonText.FragmentReadBack` | crates/rigos-config/src/lib.rs:758-784 | Comma-separated members parse back to themselves; the first separator that is whitespace alone makes parsing fail. |
| `JsonText.DocumentIsExact` | crates/rigos-config/src/lib.rs:786-788 | The parser accepts exactly the texts of the grammar. |
| `FragmentRepair.VisitMembers` | crates/rigos-config/src/lib.rs:769-780 | The visiting loop inserts member by member and fails at the first repeated name. |
| `FragmentRepair.CollectingIsMapping` | crates/rigos-config/src/lib.rs:758-784 | Collecting succeeds exactly if all names differ, and then maps every name to its own value and nothing else. |
| `FragmentRepair.ScannerRepairs` | crates/rigos-config/src/lib.rs:790-855 | The scanner turns a fragment of well-formed members into the same fragment with its missing commas. |
| `FragmentRepair.RepairPreservesMeaning` | crates/rigos-config/src/lib.rs:725-744 | For any well-formed members separated by commas or by whitespace alone, with white space around, nested to any depth: the result is exactly the map of the members if their names differ and they are within the limits of the parsing library (127 brackets, its numbers), and failure otherwise. |
| `FragmentRepair.ObjectKeepsMeaning` | crates/rigos-config/src/lib.rs:725-744 | The same for members that are already enclosed in braces. |
| `StatusPolicy.CleanMeansNothingSensitiveOccurs` | functions/_lib/status-v2.js:502-524 | The recursive check passes exactly if no key at any nesting depth normalizes to a sensitive one. |
| `Privacy.AcceptedNamesNothingSensitive` | functions/_lib/status-v2.js:649-766 | An observation accepted in the present form has no sensitive key at any depth. |
| `Privacy.PublishedNamesNothingSensitive` | functions/_lib/status-multi.js:111-193 | What is stored and published of an accepted observation, in either form, has no sensitive key at any depth. |
| `Sanitizer.FillFacts` | functions/_lib/status-v2.js:553-564 | The loop over the facts succeeds exactly if every fact is allowed with its value, and then copies all of them in order. |
| `Sanitizer.ReadFacts` | functions/_lib/status-v2.js:553-564 | All facts of one piece of evidence are kept, or the evidence is rejected. |
| `Sanitizer.VisitComponents` | functions/_lib/status-v2.js:722-748 | The loop with its growing set of seen ids is the in-order visit of all components, and the set is that of their ids. |
| `Observations.WorstComponentStatus` | functions/_lib/status-v2.js:768-774 | The loop computes the running maximum of the severities. |
| `Observations.WorstIsMostSevere` | functions/_lib/status-v2.js:768-774 | The overall status is the status of some component, or operational, and no component is more severe. |
| `Observations.WorstIgnoresOrder` | functions/_lib/status-v2.js:768-774 | The overall status depends only on which components there are, not on their order. |
| `Counting.FullSelectionIsPermutation` | functions/_lib/status-v2.js:718-752 | The pigeonhole: as many entries as the registry, all from it and none repeated, are a permutation of it. |
| `Observations.RegistryIsPermutation` | functions/_lib/status-v2.js:718-752 | An accepted component list is a permutation of the 19 registered ids, with known statuses. |
| `Acceptance.VisitAcceptsExactly` | functions/_lib/status-v2.js:722-748 | The loop with its set of seen ids accepts exactly the lists whose components are acceptable alone and have different ids. |
| `Acceptance.RegistryAcceptedExactly` | functions/_lib/status-v2.js:718-752 | A component list is accepted exactly if it has the registry's length, every component is acceptable alone, and the ids differ. |
| `Acceptance.AnyOrderIsAccepted` | functions/_lib/status-v2.js:649-766 | An observation with the least evidence is accepted for every order of the registered ids and any known statuses. |
| `StoredForm.EvidenceReadsBack` | functions/_lib/status-v2.js:581-638 | Sanitized evidence, stored and sanitized again, is unchanged, its generated summary included. |
| `StoredForm.ComponentReadsBack` | functions/_lib/status-v2.js:723-748 | A sanitized component, stored and sanitized again, is unchanged. |
| `RoundTrip.ModernReadsBack` | functions/_lib/status-v2.js:649-766 | The stored payload of an accepted observation is accepted at its own time with the identical result. |
| `RoundTrip.LegacyReadsBack` | functions/_lib/status-multi.js:111-193 | The same for an observation accepted in the legacy RandomX form, which is recognised again and gives the same evidence. |
| `RoundTrip.StoredObservationReadsBack` | functions/_lib/status-read.js:17-29 | In either form, sanitizing is idempotent through storage. |
| `LegacyAcceptance.StandInIsAcceptable` | functions/_lib/status-multi.js:86-98 | The evidence that stands in for legacy evidence passes the RandomX policy for every status. |
| `LegacyAcceptance.LegacyFormIsAccepted` | functions/_lib/status-multi.js:100-193 | Any legacy evidence may take the place of the RandomX evidence of any accepted observation: the result is accepted and differs only in that evidence. |
| `RoundTrip.AcceptedAnyPermutesRegistry` | functions/_lib/status-multi.js:111-193 | In either form, accepted components are a permutation of the registry with known statuses. |
| `StatusStore.Database.StoreObservation` | functions/_lib/status-multi.js:258-315 | One transaction: purge, insert and upsert, or nothing if the nonce is still recorded; the result tells which. |
| `StatusStore.Database.AcceptObservation` | functions/_lib/status-multi.js:317-341 | A refused request changes nothing; an admitted one is stored as one transaction, and a replay is answered as such. |
| `StatusStore.AdmittedIsGenuine` | functions/_lib/status-v2.js:424-431 | What is admitted was signed within the allowed skew of the server clock, for a registered source, with a well-formed nonce. |
| `StatusStore.GenuineIsTimely` | functions/_lib/status-v2.js:661-664 | The server clock and the observation time of an admitted batch are each within 300 seconds of the signed time. |
| `StatusStore.NonceIsRemembered` | functions/_lib/status-multi.js:263-269 | An accepted nonce stays recorded until some clock passes its expiry. |
| `StatusStore.NoReplay` | functions/_lib/status-multi.js:263-269 | Over unbounded runs in which no clock is more than 300 seconds behind an earlier one, no pair of timestamp and nonce is accepted twice. |
| `StatusStore.NonceReusedExactly` | functions/_lib/status-multi.js:263-269 | A nonce is accepted again exactly if its own clock, or that of a batch accepted since its last use, is past the expiry it had then. |
| `StatusStore.ReplayedExactly` | functions/_lib/status-multi.js:263-269 | A repeated pair of timestamp and nonce is accepted exactly if a batch accepted since its last use has a clock past the expiry of the nonce; no clock bound is assumed. |
| `StatusStore.ReplayBeyondTheAllowance` | functions/_lib/status-multi.js:263-269 | For the tables alone: with batches whose clocks disagree by one second more, the same timestamp and nonce is accepted twice. |
| `Replay.SignedRequestIsAcceptedTwice` | functions/_lib/status-multi.js:263-269 | With clocks that disagree by one second more, a signed request that passes every check is admitted and accepted twice: the bound is exact. |
| `Replay.AcceptTwice` | functions/_lib/status-multi.js:317-341 | The same as a run of the service: the repeated request is answered as a new one. |
| `StatusStore.RowIsLatest` | functions/_lib/status-multi.js:270-295 | The table refines the history: a source has a row exactly if a batch of it was accepted, and the row is the latest arrival among those with the greatest observation time. |
| `StatusStore.RowsNeverGoBack` | functions/_lib/status-multi.js:284 | A row never disappears and its observation time never decreases. |
| `StatusStore.RowIsFresh` | functions/_lib/status-v2.js:661-664 | Every row was received within 600 seconds of its observation time. |
| `StatusStore.LaterObservationReplaces` | functions/_lib/status-multi.js:270-295 | An accepted observation made 600 seconds after the row was received, or arriving 1200 seconds after, replaces it. |
| `StatusRead.StoredRowParses` | functions/_lib/status-read.js:17-29 | Every row written by ingest parses back to exactly the accepted observation. |
| `StatusRead.NoRowIsDropped` | functions/_lib/status-read.js:38-88 | Every selected row is published as one node, in order, with the overall status stored with the row. |
| `StatusRead.ReadIsConsistent` | functions/_lib/status-read.js:57-89 | In every state ingest can reach, nodeCount is the smaller of 32 and the number of sources, and the list is marked truncated exactly if there are more. |
| `LayoutFacts.EveryRowHasContract` | crates/rigos-state/src/lib.rs:181-221 | The pigeonhole across the length check, the map and the table loop: the manifest's numbers are 1 to n without repeats. |
| `LayoutFacts.PartitionsCheckedExactly` | crates/rigos-state/src/lib.rs:187-232 | The two loops pass exactly if the numbering is good, every table row matches its contract in start, type, least size and boot flag, and every listed partition matches the contract of its number. |
| `LayoutFacts.AcceptsExactly` | crates/rigos-state/src/lib.rs:148-293 | The validator accepts a disk exactly if it is laid out as the manifest describes, with the booted root, the state partition last and no foreign mount. |
| `LayoutFacts.BuiltImageIsAccepted` | crates/rigos-state/src/lib.rs:441-444 | The image as it is built, from any manifest numbered in order, is accepted on media of sufficient size. |
| `LayoutFacts.EveryPartitionListed` | crates/rigos-state/src/lib.rs:193-215 | Every partition of an accepted table is listed exactly if the listed numbers differ. |
| `LayoutFacts.RepeatedListingIsAccepted` | crates/rigos-state/src/lib.rs:193-215 | The listed numbers need not differ: listing one partition again in place of another that has no role is accepted too. |
| `Layout.FirstErrorIsFirst` | crates/rigos-state/src/lib.rs:193-232 | The error of each loop is that of the first listed partition, or table row, that is wrong. |
| `Growth.GrowthReachesLastBoundary` | crates/rigos-state/src/main.rs:184-193 | The grown partition ends on the last aligned boundary of the disk; a size is produced exactly if a boundary lies beyond the start. |
| `Growth.RecordFor` | crates/rigos-state/src/main.rs:324-335 | The recorded end and capacity are computed in 64 bits without overflow; the recorded extent lies on the disk, ends on a boundary, and its capacity is its length. |
| `Growth.RecordIsExact` | crates/rigos-state/src/main.rs:324-335 | The record is the partition's real extent exactly if the intended size is the partition's size; a larger partition is understated. |
| `Growth.TrimmedTypeReadsTheSame` | crates/rigos-state/src/main.rs:197 | Trimming a readable partition type before writing it back does not change what it says. |
| `Growth.DoublePrefixChangesType` | crates/rigos-state/src/main.rs:197 | A type with a doubled prefix is unreadable before and readable after trimming. |
| `GrownDisk.GrowthIsAccepted` | crates/rigos-state/src/main.rs:195-235 | The grown disk is accepted again exactly if its type survives being written back; it then has the intended size, so the next run has nothing to grow. |
| `GrownDisk.OtherPartitionNeverGrows` | crates/rigos-state/src/main.rs:202-233 | If the state partition is not the one the growth command names, the listing never shows the intended size after it, and with too few rows the table is refused. |
| `GrownDisk.OverwrittenRowIsRefused` | crates/rigos-state/src/main.rs:202-217 | If the row that is overwritten belongs to a partition that starts elsewhere, no listing at all is accepted with the new table. |
| `GrownDisk.GrowthOverlapsNothingNew` | crates/rigos-state/src/lib.rs:245-262 | The grown state partition overlaps a listed partition it did not overlap before exactly if it was empty and started inside it. |
| `GrownDisk.EvolvedDiskAccepted` | crates/rigos-state/src/lib.rs:148-293 | A disk that differs from an accepted one only in an enlarged, relabelled or permissibly mounted state partition is accepted. |
| `GrownDisk.MountedStateNeedsAttestation` | crates/rigos-state/src/lib.rs:263-276 | Once the state partition is mounted, the attestation naming its mount point accepts the disk with the same report, and the initializing run refuses it as foreign-mounted. |
| `GrownDisk.UnmountedAccepted` | crates/rigos-state/src/lib.rs:263-276 | A disk that is accepted with its state partition mounted is accepted by the initializing run, with the same report, once it is unmounted. |
| `Station.Station.Identify` | crates/rigos-state/src/main.rs:102-172 | The attestation is written only for a disk the validator accepts; every rejection is the validator's own. |
| `Station.Station.GrowState` | crates/rigos-state/src/main.rs:195-235 | Success means a fresh reading was validated with the old start and the intended size, whatever the tools did; where nothing fails, a growth of the fourth partition that keeps its type succeeds; with faithful tools a growth of any other fails. |
| `Station.Station.PrepareState` | crates/rigos-state/src/main.rs:237-270 | Success leaves exactly the record of the intended extent; the disk is at most labelled and mounted. |
| `Station.Station.Provision` | crates/rigos-state/src/main.rs:195-276 | Success achieves the plan on a disk that is still accepted; without a larger plan the table is not touched. |
| `Station.Station.Execute` | crates/rigos-state/src/main.rs:93-277 | A dry run, or one that sees it is not wanted, changes nothing; a stateless boot whose command line could not be read is initialized; the table is written only after the disk was proven and only to enlarge; grown and ready mean what they say; where nothing fails and the plan can be carried out, the run succeeds. |
| `Station.Station.Initialize` | crates/rigos-state/src/main.rs:52-67 | Ready and grown are reported only with a fresh attestation of a verified USB disk and the matching record; a disk that is not found is reported as ambiguous or limited; where nothing fails, grown or ready is reported as planned. |
| `Station.AchievedIsSettled` | crates/rigos-state/src/main.rs:195-276 | What a run that reports ready or grown leaves behind is a settled disk: accepted, as large as it can be, and listed as it is. |
| `Station.SettledStaysRebooted` | crates/rigos-state/src/main.rs:125-136 | After a reboot a settled disk is still settled, and the initializing run accepts it with the same plan, which has nothing to grow. |
| `Station.GrowsOnlyOnce` | crates/rigos-state/src/main.rs:195-235 | A plan that has to grow the partition finds it listed with its original size and ends in the one intended table; a grown table that is listed as it is gives no growing plan. |
| `Station.Station.RunOnce` | crates/rigos-state/src/main.rs:93-277 | One run of faithful tools in which anything may fail: the table is unchanged or the one intended growth; success leaves a settled disk; on a settled disk nothing is written, and where nothing fails the run reports ready. |
| `Station.Station.Boots` | crates/rigos-state/src/main.rs:93-277 | Over any number of boots with any number of runs each, in which anything may fail, the table is the original or its one intended growth; only runs of one boot write it, each at most once; after a run that reports ready or grown no run writes it, and every later run in which nothing fails, that is the first of its boot or attests, reports ready, or stateless if it is. |

## Left out

- Recovery from a torn journal: there is none in the program; the model shows that it stays.
- The `previous` link: written as the program does, but nothing is claimed about it, since undoing does not restore it.
- Staging leftovers, temporary links, file modes, ownership, fsync and the text of the runtime documents: a revision holds the values the documents are made from.
- Interference with the state directory or the runtime by other programs during a transaction.
- Appliance.Machine.WriteSheet: of a sheet that leads to a directory not described in `SheetPaths` it says only that one file may join some revision or take public names; files elsewhere are outside the modelled state.
- UUIDs: names are numbers, and a collision shows as a failing creation or rename.
- Profile validation of the preparing command; a transaction repeats neither it nor the sheet validation, which `FlightSheets` models.
- Appliance.Machine.Transact: does not say that a sheet name beyond 250 bytes, or with a NUL, or one that leads to a file that may be there already without being described, fails or succeeds, because that depends on the file system.
- Lengths of identity values, host names and coin names are counted in characters, in the program in bytes.
- FlightSheets.FlightSheet.Validate: which of several errors is reported first is in the body only, because the callers print one and discard the sheet.
- Sorting in `FlightSheets` is the library's stable sort, modelled by a function and assigned element by element.
- The scanner works on characters, in the program on the bytes of UTF-8; all characters it looks at are ASCII.
- FragmentRepair.RepairPreservesMeaning: which numbers the parsing library can represent is a parameter, and numbers keep their digits.
- Importing hive-style workloads, profile parsing, the command line, locks, HTML pages and the machine and miner inspection.
- The second comma scanner in crates/rigos-config/src/lib_entry.rs: it is the same algorithm.
- HMAC and UTF-8: a submission says whether its signature verifies; transport checks and the parsing of the source registry come before the model.
- Parsing of dates: reading a timestamp is a function parameter; received_at as text is left out.
- JSON numbers that overflow, negative zero, and lower-casing of non-ASCII letters in keys; strings are UTF-16 code units.
- The database: one batch is all or nothing, with the nonce and the source as keys.
- Error messages and paths of the status service: reduced to error codes.
- The legacy rewrite copies and overwrites an object; it is modelled on values, which leaves aliasing out.
- Real devices and tools of the state initializer: each command is a step that may fail, and unless the tools are faithful they may leave anything behind; the type that is written back is read back as written.
- A zero sector size or alignment makes the program panic; both are required to be positive.
- Station.Station.Boots: assumes faithful tools, partition 4, and a kernel that lists row 4 with its size at the start and after every reboot; a reboot unmounts the state partition and leaves the other mounts.
- The start gate: its argument `blocked` is what reading the kernel command line has answered; where its other reads fail, the miner stays stopped.
- The status file of the initializer, which is written best effort, and the node identity it creates.
