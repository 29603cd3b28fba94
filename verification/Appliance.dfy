/** The configuration transaction as the program performs it: methods over the
    state directory and the miner runtime. Every elementary operation may fail,
    and the program may be killed before, during or after it; once killed
    (`crashed`), every further operation does nothing until `Restart` or `Reboot`.
    Some failures the program does not notice: a read that fails is taken for an answer,
    or a removal that fails for a success. */
module Appliance {
  import opened Wrappers
  import opened Revisions
  import opened Protocol
  import opened SheetPaths

  datatype Stage = StopBeforeCommit | PointerSwap | ApplyTimezone | ApplyEnabled | StartNewMiner | QueryMiner

  /** `Failed` tells which stage failed and whether the change was undone. */
  datatype TransactError =
    | Busy
    | SnapshotFailed
    | JournalFailed
    | Failed(stage: Stage, undone: bool)
    | JournalNotRemoved

  /** The operations whose failure the program does not notice. */
  datatype Swallowed =
    | PendingProbe
    | CurrentProbe
    | IdentitiesProbe
    | NameProbe
    | CmdlineRead
    | NameRemoval

  /** What is assumed of the environment. `faithful`: a service command that reports success
      has taken effect; queries that answer are always truthful. `reliable`: no operation
      fails but those in `failing`, the program is never killed and new names are unused.
      `failing`: these fail whenever they are tried, without being noticed. `dependable`:
      these never do. */
  datatype Setting = Setting(faithful: bool, reliable: bool, failing: set<Swallowed>, dependable: set<Swallowed>) {
    /** The operation is certain to succeed. */
    predicate Sure(operation: Swallowed) {
      operation !in failing && (reliable || operation in dependable)
    }
  }

  /** What a transaction or a recovery has not noticed: a journal; the pointer; the
      identities of the last revision; the kernel command line; a name that could not be
      removed; and whether the boot id was read, without which the miner stays stopped. */
  datatype Unnoticed = Unnoticed(overlooked: bool, blind: bool, forgot: bool, unread: bool, missed: bool,
                                 bootKnown: bool)

  const NOTHING := Unnoticed(false, false, false, false, false, true)

  /** One kernel command line item is enough to keep the miner stopped. */
  predicate BlocksMining(cmdline: seq<string>) {
    "rigos.nomine=1" in cmdline || "rigos.stateless=1" in cmdline
  }

  /** The carried identity files, except those still to be visited. */
  function CarriedSoFar(prior: Revision, alias: string, unvisited: set<RevisionFile>): Revision {
    map f | f in prior && PassesCarryFilter(prior, alias, f) && f !in unvisited :: prior[f]
  }

  lemma {:induction false} NothingCarriedYet(prior: Revision, alias: string, unvisited: set<RevisionFile>)
    requires unvisited == set f | f in prior && f.IdentityFile?
    ensures CarriedSoFar(prior, alias, unvisited) == map[]
    ensures CarriedSoFar(prior, alias, {}) == Carried(Some(prior), alias)
  {
  }

  lemma {:induction false} VisitOne(
      base: Revision, prior: Revision, alias: string, unvisited: set<RevisionFile>, file: RevisionFile)
    requires file in unvisited && unvisited <= prior.Keys
    ensures base + CarriedSoFar(prior, alias, unvisited - {file}) ==
            if PassesCarryFilter(prior, alias, file)
            then (base + CarriedSoFar(prior, alias, unvisited))[file := prior[file]]
            else base + CarriedSoFar(prior, alias, unvisited)
  {
  }

  /** Nothing of these files is in the way of those that are written last. */
  predicate LeavesRoom(base: Revision, request: Request) {
    IdentityFile(AliasFile(request.identity.alias)) !in base && ProvenanceFiles(request).Keys !! base.Keys
  }

  lemma {:induction false} CarriedLeavesRoom(base: Revision, prior: Option<Revision>, request: Request)
    requires LeavesRoom(base, request)
    ensures LeavesRoom(base + Carried(prior, request.identity.alias), request)
  {
    var carried := base + Carried(prior, request.identity.alias);
    forall f | f in ProvenanceFiles(request)
      ensures f !in carried
    {
      assert f !in base;
    }
  }

  /** Room is left exactly if the sheet is not where another file of the revision goes. */
  lemma {:induction false} BaseLeavesRoom(request: Request)
    requires var landing := Landed(request.flightSheet.name);
             landing.At? && landing.place.Staging? ==> FileAt(landing.place, landing.file) !in DocumentFiles(request)
    ensures LeavesRoom(BaseFiles(request), request) <==> Fits(request)
  {
    var landing := Landed(request.flightSheet.name);
    if LeavesRoom(BaseFiles(request), request) && landing.At? && landing.place.Staging? {
      assert FileAt(landing.place, landing.file) in BaseFiles(request);
    }
  }

  lemma {:induction false} BaseHasNoIdentity(request: Request)
    ensures IdentityFile(AliasFile(request.identity.alias)) !in BaseFiles(request)
  {
  }

  lemma {:induction false} NoLinksLeft(links: set<LinkName>)
    ensures links == {} <==>
            && PolicyLink !in links
            && XmrigLink !in links
            && SheetsLink !in links
            && IdentitiesLink !in links
            && IdentityMapLink !in links
  {
    if link :| link in links {
      LinkListIsComplete(link);
    }
  }

  /** The links with one more, unless a file has its name. */
  function Linked(links: set<LinkName>, files: set<LinkName>, link: LinkName): set<LinkName> {
    if link in files then links else links + {link}
  }

  /** Every public name is a link or taken by a file, and no link was made in place of a file. */
  predicate AllNamed(older: set<LinkName>, links: set<LinkName>, files: set<LinkName>) {
    links + files == ALL_LINKS && links - older !! files
  }

  lemma {:induction false} AllLinked(links: set<LinkName>, files: set<LinkName>)
    ensures var two := Linked(Linked(links, files, PolicyLink), files, XmrigLink);
            var four := Linked(Linked(two, files, SheetsLink), files, IdentitiesLink);
            AllNamed(links, Linked(four, files, IdentityMapLink), files)
  {
    var two := Linked(Linked(links, files, PolicyLink), files, XmrigLink);
    var all := Linked(Linked(Linked(two, files, SheetsLink), files, IdentitiesLink), files, IdentityMapLink);
    forall link | link in all + files
      ensures link in ALL_LINKS
    {
      LinkListIsComplete(link);
    }
    assert all + files == ALL_LINKS;
  }

  lemma {:induction false} GrownByOne(
      revisions: map<RevisionId, Revision>, id: RevisionId, file: RevisionFile, entry: Entry)
    requires id in revisions && file !in revisions[id]
    ensures revisions[id := revisions[id][file := entry]].Keys == revisions.Keys
    ensures OnlyGrew(revisions, revisions[id := revisions[id][file := entry]])
  {
  }

  lemma {:induction false} UnchangedIsGrown(revisions: map<RevisionId, Revision>)
    ensures OnlyGrew(revisions, revisions) && Kept(revisions, revisions)
  {
  }

  /** A name no listed revision uses, as a random UUID practically is. */
  method FreshName(names: set<RevisionId>) returns (unused: RevisionId)
    ensures unused !in names
  {
    unused := 0;
    var rest := names;
    while rest != {}
      invariant forall name :: name in names ==> name in rest || name < unused
    {
      var name :| name in rest;
      if name >= unused {
        unused := name + 1;
      }
      rest := rest - {name};
    }
  }

  class Machine {
    // the state directory
    var current: Option<RevisionId>
    var previous: Option<RevisionId>
    var revisions: map<RevisionId, Revision>
    var staging: map<RevisionId, Revision>
    var links: set<LinkName>
    /** The public names that are taken by a regular file. */
    var files: set<LinkName>
    var journal: Journal
    // the runtime
    var timezone: string
    var enabled: bool
    var active: bool
    var bootId: nat
    // the program
    var crashed: bool
    const setting: Setting
    // history
    ghost var past: History
    ghost var trace: seq<State>

    ghost function View(): State
      reads this
    {
      State(current, revisions, links, files, journal, timezone, enabled, active, bootId, past)
    }

    /** The history is a run of the protocol that ends in the present state. */
    ghost predicate Valid()
      reads this
    {
      Run(setting.faithful, trace) && trace[|trace| - 1] == View()
    }

    constructor (setting: Setting, timezone: string)
      ensures Valid() && !crashed && Initial(View()) && this.timezone == timezone && !active
      ensures this.setting == setting
    {
      this.setting := setting;
      current, previous, revisions, staging, links, files := None, None, map[], map[], {}, {};
      journal, this.timezone, enabled, active, bootId := Absent, timezone, false, false, 0;
      crashed := false;
      ghost var nothing: Origin := *;
      past := History(false, false, [], 0, 0, 0, nothing);
      trace := [State(None, map[], {}, {}, Absent, timezone, false, false, 0,
                      History(false, false, [], 0, 0, 0, nothing))];
    }

    lemma {:induction false} Facts()
      requires Valid()
      ensures Invariant(View())
    {
      RunKeepsInvariant(setting.faithful, trace, |trace| - 1);
    }

    /** The present state is the next one of the run. */
    ghost method Record()
      requires Run(setting.faithful, trace)
      requires Step(setting.faithful, trace[|trace| - 1], View())
      modifies `trace
      ensures Valid() && old(trace) <= trace
    {
      RunExtends(setting.faithful, trace, View());
      trace := trace + [View()];
    }

    /** The same, where the step has been shown to be one before it was taken. */
    ghost method RecordAs(next: State)
      requires Run(setting.faithful, trace + [next]) && View() == next
      modifies `trace
      ensures Valid() && old(trace) <= trace
    {
      trace := trace + [next];
    }

    // ----- elementary operations -----

    /** What became of one operation: `ok` is what the caller is told, `applied`
        whether the change took place. Only a crash separates the two. */
    method Attempt() returns (ok: bool, applied: bool)
      modifies `crashed
      ensures old(crashed) ==> crashed && !applied
      ensures setting.reliable && !old(crashed) ==> ok
      ensures ok ==> applied && !crashed
      ensures applied ==> ok || crashed
    {
      if crashed {
        return false, false;
      }
      var happened: bool := *;
      var killed: bool := *;
      crashed := killed && !setting.reliable;
      applied := happened || setting.reliable;
      return applied && !crashed, applied;
    }

    /** An operation whose effect is outside the modelled state. */
    method Try() returns (ok: bool)
      modifies `crashed
      ensures old(crashed) ==> crashed
      ensures setting.reliable && !old(crashed) ==> ok
      ensures ok ==> !crashed
    {
      var applied;
      ok, applied := Attempt();
    }

    /** Whether an operation succeeds whose failure nobody notices. */
    method Passes(operation: Swallowed) returns (passed: bool)
      ensures operation in setting.failing ==> !passed
      ensures setting.Sure(operation) ==> passed
    {
      passed := *;
      passed := operation !in setting.failing && (setting.Sure(operation) || passed);
    }

    method SetTimezone(zone: string) returns (ok: bool)
      requires Valid()
      modifies `timezone, `crashed, `trace
      ensures Valid() && old(trace) <= trace
      ensures old(crashed) ==> crashed && timezone == old(timezone)
      ensures setting.reliable && !old(crashed) ==> ok
      ensures ok ==> !crashed && (setting.faithful ==> timezone == zone)
    {
      if crashed {
        return false;
      }
      ok := Try();
      if ok && setting.faithful {
        timezone := zone;
      } else {
        timezone := *;
      }
      Record();
    }

    method SetMinerEnabled(value: bool) returns (ok: bool)
      requires Valid()
      modifies `enabled, `crashed, `trace
      ensures Valid() && old(trace) <= trace
      ensures old(crashed) ==> crashed && enabled == old(enabled)
      ensures setting.reliable && !old(crashed) ==> ok
      ensures ok ==> !crashed && (setting.faithful ==> enabled == value)
    {
      if crashed {
        return false;
      }
      ok := Try();
      if ok && setting.faithful {
        enabled := value;
      } else {
        enabled := *;
      }
      Record();
    }

    method StopMiner() returns (ok: bool)
      requires Valid()
      modifies `active, `crashed, `trace
      ensures Valid() && old(trace) <= trace
      ensures old(crashed) ==> crashed && active == old(active)
      ensures setting.reliable && !old(crashed) ==> ok
      ensures ok ==> !crashed && (setting.faithful ==> !active)
    {
      if crashed {
        return false;
      }
      ok := Try();
      if ok && setting.faithful {
        active := false;
      } else {
        active := *;
      }
      Record();
    }

    method StartMiner() returns (ok: bool)
      requires Valid()
      modifies `active, `crashed, `trace
      ensures Valid() && old(trace) <= trace
      ensures old(crashed) ==> crashed && active == old(active)
      ensures setting.reliable && !old(crashed) ==> ok
      ensures ok ==> !crashed && (setting.faithful ==> active)
    {
      if crashed {
        return false;
      }
      ok := Try();
      if ok && setting.faithful {
        active := true;
      } else {
        active := *;
      }
      Record();
    }

    method MinerActive() returns (answer: Option<bool>)
      modifies `crashed
      ensures old(crashed) ==> crashed
      ensures setting.reliable && !old(crashed) ==> answer.Some?
      ensures answer.Some? ==> !crashed && answer.value == active
    {
      var ok := Try();
      return if ok then Some(active) else None;
    }

    static function Opened(s: State, journal: Journal, request: Request): State {
      s.(journal := journal, past := s.past.(origin := OriginOf(s, request), slipped := false, unseen := false))
    }

    /** Create the journal file and write the snapshot; a failure may leave a torn file. */
    method WriteJournal(snapshot: Snapshot, ghost request: Request) returns (ok: bool)
      requires Valid() && Describes(snapshot, View())
      modifies `journal, `past, `crashed, `trace
      ensures Valid() && old(trace) <= trace
      ensures old(crashed) ==> crashed && View() == old(View())
      ensures setting.reliable && !old(crashed) ==> !crashed && (old(journal).Absent? ==> ok)
      ensures !old(journal).Absent? ==> !ok && View() == old(View())
      ensures ok ==> !crashed && journal.Holds?
      ensures !ok && !crashed && old(journal).Absent? ==> !journal.Holds?
      ensures old(journal).Absent? ==>
                || View() == old(View())
                || View() == Opened(old(View()), Torn, request)
                || View() == Opened(old(View()), Holds(snapshot), request)
    {
      if crashed {
        return false;
      }
      var applied;
      ok, applied := Attempt();
      if !journal.Absent? {
        return false;
      }
      var torn: bool := *;
      if applied || torn {
        past := past.(origin := OriginOf(View(), request), slipped := false, unseen := false);
        journal := if applied then Holds(snapshot) else Torn;
        assert OpenJournal(trace[|trace| - 1], View());
        Record();
      }
    }

    /** Remove the journal file. This is the step that decides: for the request that `decided`
        logs, or for the state before. */
    method RemoveJournal(ghost decided: State) returns (ok: bool)
      requires Valid()
      requires decided == View().(journal := Absent, past := decided.past)
      requires !crashed ==> journal.Holds? && Run(setting.faithful, trace + [decided])
      modifies `journal, `past, `crashed, `trace
      ensures Valid() && old(trace) <= trace
      ensures old(crashed) ==> crashed && View() == old(View())
      ensures setting.reliable && !old(crashed) ==> ok
      ensures ok ==> !crashed && View() == decided
      ensures !ok && !crashed ==> View() == old(View())
      ensures View() == old(View()) || View() == decided
    {
      var applied;
      ok, applied := Attempt();
      if applied {
        journal, past := Absent, decided.past;
        RecordAs(decided);
      }
    }

    method CreateStaging(id: RevisionId) returns (ok: bool)
      modifies `staging, `crashed
      ensures old(crashed) ==> crashed
      ensures setting.reliable && !old(crashed) ==> !crashed
      ensures setting.reliable && !old(crashed) && id !in old(staging) ==> ok && staging == old(staging)[id := map[]]
      ensures ok ==> !crashed && id in staging && staging[id] == map[]
    {
      var applied;
      ok, applied := Attempt();
      if applied && id in staging {
        return false;
      }
      if applied {
        staging := staging[id := map[]];
      }
    }

    /** Write one file of a staging directory; an exclusive write needs the file to be new. */
    method WriteStaged(id: RevisionId, file: RevisionFile, entry: Entry, exclusive: bool) returns (ok: bool)
      modifies `staging, `crashed
      ensures old(crashed) ==> crashed && staging == old(staging)
      ensures setting.reliable && !old(crashed) ==> !crashed
      ensures setting.reliable && !old(crashed) && id in old(staging) && (exclusive ==> file !in old(staging)[id]) ==>
                ok
      ensures ok ==> !crashed && id in old(staging) && id in staging && staging[id] == old(staging)[id][file := entry]
      ensures staging.Keys == old(staging).Keys
      ensures ok && exclusive ==> file !in old(staging)[id]
    {
      var applied;
      ok, applied := Attempt();
      if applied && (id !in staging || (exclusive && file in staging[id])) {
        return false;
      }
      if applied {
        staging := staging[id := staging[id][file := entry]];
      }
    }

    /** How far a written sheet may reach: not at all, unless it has gone astray. */
    static ghost predicate SheetWritten(before: State, after: State) {
      && after == before.(revisions := after.revisions, files := after.files,
                          past := before.past.(strays := after.past.strays))
      && after.past.strays >= before.past.strays
      && before.files <= after.files
      && after.revisions.Keys == before.revisions.Keys
      && OnlyGrew(before.revisions, after.revisions)
      && (after.past.strays == before.past.strays ==> after == before)
    }

    lemma {:induction false} NothingWritten()
      ensures SheetWritten(View(), View())
    {
      UnchangedIsGrown(revisions);
    }

    static function Astray(s: State, revisions: map<RevisionId, Revision>, files: set<LinkName>): State {
      s.(revisions := revisions, files := files, past := s.past.(strays := s.past.strays + 1))
    }

    /** The sheet goes astray: these are the revisions and the files in public names from now on. */
    method GoAstray(revisions': map<RevisionId, Revision>, files': set<LinkName>, ghost entry: Entry)
      requires && Valid()
               && StrayOf(View(), Astray(View(), revisions', files'), entry)
      modifies `revisions, `files, `past, `trace
      ensures Valid() && old(trace) <= trace
      ensures View() == Astray(old(View()), revisions', files')
    {
      ghost var next := Astray(View(), revisions', files');
      StrayRuns(setting.faithful, trace, next, entry);
      revisions, files := revisions', files';
      past := past.(strays := past.strays + 1);
      RecordAs(next);
    }

    static lemma {:induction false} StrayRuns(faithful: bool, trace: seq<State>, next: State, entry: Entry)
      requires Run(faithful, trace) && StrayOf(trace[|trace| - 1], next, entry)
      ensures Run(faithful, trace + [next])
    {
      RunExtends(faithful, trace, next);
    }

    /** Create a file in an installed revision. */
    method CreateIn(id: RevisionId, file: RevisionFile, entry: Entry) returns (created: bool)
      requires Valid() && journal.Holds?
      requires var landing := Landed(SheetName(View()));
               landing.At? && (landing.place.Beyond? ||
                               (&& InCurrent(landing.place)
                                && current == Some(id)
                                && file == FileAt(landing.place, landing.file)))
      modifies `revisions, `files, `past, `trace
      ensures Valid() && old(trace) <= trace
      ensures SheetWritten(old(View()), View())
      ensures created <==> id in old(revisions) && file !in old(revisions)[id]
      ensures created ==>
                && revisions == old(revisions)[id := old(revisions)[id][file := entry]]
                && files == old(files)
                && past.strays == old(past).strays + 1
      ensures !created ==> View() == old(View())
    {
      NothingWritten();
      if id !in revisions || file in revisions[id] {
        return false;
      }
      GrownByOne(revisions, id, file, entry);
      GoAstray(revisions[id := revisions[id][file := entry]], files, entry);
      return true;
    }

    /** Create a file that belongs to no revision; it may take public names. */
    method CreateBeside(names: set<LinkName>, ghost entry: Entry) returns (created: bool)
      requires Valid() && journal.Holds?
      requires var landing := Landed(SheetName(View()));
               && landing.At? && !landing.place.Sheets? && !InCurrent(landing.place)
               && (landing.place.StateDirectory? ==> names == TakenBy(landing.file))
               && (landing.place.Staging? || landing.place.RevisionsDirectory? ==> names == {})
      modifies `revisions, `files, `past, `trace
      ensures Valid() && old(trace) <= trace
      ensures SheetWritten(old(View()), View())
      ensures created <==> names !! old(links) + old(files)
      ensures created ==>
                revisions == old(revisions) && files == old(files) + names && past.strays == old(past).strays + 1
      ensures !created ==> View() == old(View())
    {
      NothingWritten();
      if !(names !! links + files) {
        return false;
      }
      UnchangedIsGrown(revisions);
      GoAstray(revisions, files + names, entry);
      return true;
    }

    /** Create the file of the sheet outside the staging directory, or note that it is in it. */
    method CreateOutside(place: Place, file: string, entry: Entry) returns (created: bool)
      requires Valid() && journal.Holds? && Landed(SheetName(View())) == At(place, file) && !place.Sheets?
      modifies `revisions, `files, `past, `trace
      ensures Valid() && old(trace) <= trace
      ensures SheetWritten(old(View()), View())
      ensures created ==>
                past.strays == old(past).strays + 1 && CreatedAt(old(View()), revisions, files, place, file, entry)
      ensures !created ==> View() == old(View())
      ensures FreeAt(old(current), old(revisions), old(links) + old(files), place, file) ==> created
    {
      NothingWritten();
      UnchangedIsGrown(revisions);
      match place
      case StateDirectory =>
        if file == ".pending-transaction.json" {
          return false;
        }
        created := CreateBeside(TakenBy(file), entry);
      case Staging | RevisionsDirectory =>
        created := CreateBeside({}, entry);
      case Beyond =>
        var id: RevisionId, other: RevisionFile, names: set<LinkName>, inRevision: bool := *, *, *, *;
        if inRevision {
          created := CreateIn(id, other, entry);
        } else {
          created := CreateBeside(names, entry);
        }
      case Current | CurrentSheets | CurrentIdentities =>
        if current.None? {
          return false;
        }
        created := CreateIn(current.value, FileAt(place, file), entry);
    }

    /** The staged files after a sheet has been written where its name leads. */
    static function WithSheet(staged: Revision, place: Place, file: string, entry: Entry): Revision {
      if place.Sheets? || place.Staging? then staged[FileAt(place, file) := entry] else staged
    }

    /** Begin to write a file and finish it: what is not described may be in the way, and a
        failure may come after the file has been created. */
    method BeginWriting(sure: bool) returns (begun: bool, whole: bool)
      modifies `crashed
      ensures old(crashed) ==> crashed && !begun
      ensures setting.reliable && !old(crashed) ==> !crashed && (sure ==> whole)
      ensures whole ==> begun && !crashed
    {
      var done, applied := Attempt();
      var possible: bool := *;
      begun := applied && (possible || (sure && setting.reliable));
      whole := *;
      whole := begun && done && (whole || (sure && setting.reliable));
    }

    /** Create the file of a sheet whose name leads out of its directory, with any content. */
    method CreateSheet(id: RevisionId, place: Place, file: string, content: Entry) returns (created: bool)
      requires && Valid()
               && id in staging
               && journal.Holds?
               && Landed(SheetName(View())) == At(place, file)
               && !place.Sheets?
      modifies `staging, `revisions, `files, `past, `trace
      ensures Valid() && old(trace) <= trace
      ensures id in staging
      ensures SheetWritten(old(View()), View())
      ensures !created ==> View() == old(View())
      ensures created ==>
                && past.strays == old(past).strays + 1
                && CreatedAt(old(View()), revisions, files, place, file, content)
                && (place.Staging? ==> FileAt(place, file) !in old(staging[id]))
                && staging[id] == WithSheet(old(staging[id]), place, file, content)
      ensures FreeAt(old(current), old(revisions), old(links) + old(files), place, file) &&
              (place.Staging? ==> FileAt(place, file) !in old(staging[id])) ==>
                created
    {
      NothingWritten();
      created := false;
      if !(place.Staging? && FileAt(place, file) in staging[id]) {
        created := CreateOutside(place, file, content);
        if created {
          staging := staging[id := WithSheet(staging[id], place, file, content)];
        }
      }
    }

    /** Write the sheet where its name leads, out of its directory. A failure may leave its
        file with any content. */
    method WriteElsewhere(id: RevisionId, request: Request) returns (ok: bool)
      requires Valid() && id in staging
      requires Landed(request.flightSheet.name).At? && !Landed(request.flightSheet.name).place.Sheets?
      requires !crashed ==> journal.Holds? && past.origin.request == request
      modifies `staging, `revisions, `files, `past, `crashed, `trace
      ensures Valid() && old(trace) <= trace
      ensures id in staging
      ensures WritesElsewhere(setting.reliable, old(View()), View(), old(crashed), crashed, request, old(staging[id]),
                              staging[id], ok)
    {
      NothingWritten();
      var landing := Landed(request.flightSheet.name);
      var begun, whole := BeginWriting(CreatableIn(current, revisions, links, files, request));
      var content: Entry := *;
      content := if whole then SheetDocument(request) else content;
      ok := false;
      if begun {
        var created := CreateSheet(id, landing.place, landing.file, content);
        ok := whole && created;
      }
    }

    static ghost predicate WritesElsewhere(
        reliable: bool, before: State, after: State, wasCrashed: bool, crashed: bool, request: Request, was: Revision,
        staged: Revision, ok: bool)
      requires Landed(request.flightSheet.name).At?
    {
      var place, file := Landed(request.flightSheet.name).place, Landed(request.flightSheet.name).file;
      && (wasCrashed ==> crashed && after == before)
      && (reliable && !wasCrashed ==> !crashed)
      && SheetWritten(before, after)
      && (ok ==>
            && !crashed
            && after.past.strays == before.past.strays + 1
            && CreatedAt(before, after.revisions, after.files, place, file, SheetDocument(request))
            && (place.Staging? ==> FileAt(place, file) !in was)
            && staged == WithSheet(was, place, file, SheetDocument(request)))
      && (reliable && !wasCrashed && Creatable(before, request) && (place.Staging? ==> FileAt(place, file) !in was) ==>
            ok)
    }

    /** Write the flight sheet under its name, which has not been checked. */
    method WriteSheet(id: RevisionId, request: Request) returns (ok: bool)
      requires Valid() && id in staging
      requires !crashed ==> journal.Holds? && past.origin.request == request
      modifies `staging, `revisions, `files, `past, `crashed, `trace
      ensures Valid() && old(trace) <= trace
      ensures old(crashed) ==> crashed && View() == old(View())
      ensures SheetWritten(old(View()), View())
      ensures setting.reliable && !old(crashed) ==> !crashed
      ensures Confined(request.flightSheet.name) || Landed(request.flightSheet.name).Nowhere? ==> View() == old(View())
      ensures ok ==>
                var landing := Landed(request.flightSheet.name);
                && !crashed
                && id in staging
                && landing.At?
                && (landing.place.Staging? ==> FileAt(landing.place, landing.file) !in old(staging[id]))
                && staging[id] == WithSheet(old(staging[id]), landing.place, landing.file, SheetDocument(request))
                && (!Confined(request.flightSheet.name) ==>
                      && past.strays == old(past).strays + 1
                      && CreatedAt(old(View()), revisions, files, landing.place, landing.file, SheetDocument(request)))
      ensures var landing := Landed(request.flightSheet.name);
              && setting.reliable && !old(crashed) && Creatable(old(View()), request)
              && (landing.place.Sheets? || landing.place.Staging? ==>
                    FileAt(landing.place, landing.file) !in old(staging[id])) ==>
                ok
    {
      NothingWritten();
      var landing, entry := Landed(request.flightSheet.name), SheetDocument(request);
      if landing.Nowhere? {
        return false;
      }
      if !landing.place.Sheets? {
        ok := WriteElsewhere(id, request);
        return;
      }
      var held: bool := *;
      if !Storable(request.flightSheet.name) && !held {
        return false;
      }
      ok := WriteStaged(id, SheetFile(landing.file), entry, true);
    }

    static function Installed(s: State, id: RevisionId, staged: Revision, forgot: bool): State {
      s.(revisions := s.revisions[id := staged], past := s.past.(unseen := forgot))
    }

    /** Rename a staging directory to its final name; an installed revision is never replaced. */
    method InstallStaged(id: RevisionId, ghost installed: State) returns (ok: bool)
      requires Valid() && id in staging
      requires installed == Installed(View(), id, staging[id], installed.past.unseen)
      requires !crashed && id !in revisions ==> Run(setting.faithful, trace + [installed])
      modifies `staging, `revisions, `past, `crashed, `trace
      ensures Valid() && old(trace) <= trace
      ensures old(crashed) ==> crashed && View() == old(View())
      ensures setting.reliable && !old(crashed) ==> !crashed && (id !in old(revisions) ==> ok)
      ensures ok ==> !crashed && id !in old(revisions) && View() == installed
      ensures View() == old(View()) || (id !in old(revisions) && View() == installed)
    {
      var applied;
      ok, applied := Attempt();
      if applied && id in revisions {
        return false;
      }
      if applied {
        revisions := revisions[id := staging[id]];
        staging := staging - {id};
        past := installed.past;
        RecordAs(installed);
      }
    }

    method SwapCurrent(id: RevisionId) returns (ok: bool)
      requires Valid()
      requires !crashed ==> journal.Holds? && !active && id in revisions
      modifies `current, `crashed, `trace
      ensures Valid() && old(trace) <= trace
      ensures old(crashed) ==> crashed && current == old(current)
      ensures setting.reliable && !old(crashed) ==> ok
      ensures ok ==> !crashed && current == Some(id)
    {
      var applied;
      ok, applied := Attempt();
      if applied {
        current := Some(id);
        Record();
      }
    }

    /** Make a link unless its name is taken; a name that is not seen to be taken is in the way. */
    method EnsurePublicLink(link: LinkName) returns (ok: bool)
      requires Valid()
      requires !crashed ==> journal.Holds? && current.Some?
      modifies `links, `crashed, `trace
      ensures Valid() && old(trace) <= trace
      ensures old(crashed) ==> crashed && links == old(links)
      ensures setting.reliable && !old(crashed) ==> !crashed && (setting.Sure(NameProbe) ==> ok)
      ensures ok ==> links == Linked(old(links), files, link)
      ensures ok && !old(crashed) ==> !crashed
      ensures old(links) <= links
    {
      var seen := Passes(NameProbe);
      if (link in links || link in files) && seen {
        return true;
      }
      var applied;
      ok, applied := Attempt();
      if link in links || link in files {
        return false;
      }
      if applied {
        links := links + {link};
        Record();
      }
    }

    method RenameOverCurrent(target: RevisionId) returns (ok: bool)
      requires Valid()
      requires !crashed ==>
                 journal.Holds? && journal.snapshot.previous == Some(target) && (setting.faithful ==> !active)
      modifies `current, `crashed, `trace
      ensures Valid() && old(trace) <= trace
      ensures old(crashed) ==> crashed && current == old(current)
      ensures setting.reliable && !old(crashed) ==> ok
      ensures ok ==> !crashed && current == Some(target)
    {
      var applied;
      ok, applied := Attempt();
      if applied {
        current := Some(target);
        Record();
      }
    }

    /** Remove an entry, ignoring any failure to do so; only a crash or a failure keeps it. */
    method Removal() returns (applied: bool)
      modifies `crashed
      ensures old(crashed) ==> crashed && !applied
      ensures setting.reliable && !old(crashed) ==> !crashed
      ensures setting.Sure(NameRemoval) ==> applied || crashed
      ensures NameRemoval in setting.failing ==> !applied
    {
      if crashed {
        return false;
      }
      var passed := Passes(NameRemoval);
      var killed, before: bool := *, *;
      crashed := killed && !setting.reliable;
      return passed && !(crashed && before);
    }

    /** Note that a removal has failed unnoticed. */
    ghost method Slip()
      requires Valid() && journal.Holds? && journal.snapshot.previous.None?
      modifies `past, `trace
      ensures Valid() && old(trace) <= trace && past == old(past).(slipped := true)
    {
      past := past.(slipped := true);
      assert MissRemoval(trace[|trace| - 1], View());
      Record();
    }

    /** Remove the `current` link, ignoring any failure to do so. */
    method RemoveCurrent()
      requires Valid()
      requires !crashed ==> journal.Holds? && journal.snapshot.previous.None? && (setting.faithful ==> !active)
      modifies `current, `past, `crashed, `trace
      ensures Valid() && old(trace) <= trace
      ensures old(crashed) ==> crashed && current == old(current) && past == old(past)
      ensures setting.reliable && !old(crashed) ==> !crashed
      ensures past == old(past).(slipped := past.slipped) && (setting.Sure(NameRemoval) ==> past == old(past))
      ensures !crashed ==> (past.slipped <==> old(past).slipped || current.Some?)
    {
      if current.None? {
        return;
      }
      var applied := Removal();
      if applied {
        current := None;
        Record();
      } else if !crashed {
        Slip();
      }
    }

    /** Remove one public name, ignoring any failure to do so. */
    method RemovePublicName(link: LinkName)
      requires Valid()
      requires !crashed ==> journal.Holds? && journal.snapshot.previous.None?
      modifies `links, `files, `past, `crashed, `trace
      ensures Valid() && old(trace) <= trace
      ensures old(crashed) ==> crashed && links == old(links) && files == old(files) && past == old(past)
      ensures setting.reliable && !old(crashed) ==> !crashed
      ensures past == old(past).(slipped := past.slipped) && (setting.Sure(NameRemoval) ==> past == old(past))
      ensures forall other :: other != link ==> (other in links + files <==> other in old(links) + old(files))
      ensures !crashed ==> (past.slipped <==> old(past).slipped || link in links + files)
    {
      if link !in links + files {
        return;
      }
      var applied := Removal();
      if applied {
        links, files := links - {link}, files - {link};
        Record();
      } else if !crashed {
        Slip();
      }
    }

    // ----- committing a revision -----

    /** Look at one file of the identities directory and copy it if it passes the filter. */
    method CarryOne(id: RevisionId, prior: Revision, alias: string, file: RevisionFile) returns (ok: bool)
      requires id in staging && file in prior
      modifies `staging, `crashed
      ensures old(crashed) ==> crashed
      ensures setting.reliable && !old(crashed) ==> ok
      ensures ok ==> !crashed && id in staging
      ensures ok ==>
                staging[id] ==
                  if PassesCarryFilter(prior, alias, file) then old(staging[id])[file := prior[file]]
                  else old(staging[id])
    {
      ok := Try(); // read the directory entry and its metadata
      if ok && PassesCarryFilter(prior, alias, file) {
        ok := WriteStaged(id, file, prior[file], false);
      }
    }

    method CarryIdentities(id: RevisionId, prior: Revision, alias: string) returns (ok: bool)
      requires id in staging
      modifies `staging, `crashed
      ensures old(crashed) ==> crashed
      ensures setting.reliable && !old(crashed) ==> ok
      ensures ok ==> !crashed && id in staging && staging[id] == old(staging[id]) + Carried(Some(prior), alias)
    {
      ghost var before := staging[id];
      var unvisited := set f | f in prior && f.IdentityFile?;
      ok := !crashed;
      NothingCarriedYet(prior, alias, unvisited);
      while ok && unvisited != {}
        invariant old(crashed) ==> crashed
        invariant setting.reliable && !old(crashed) ==> ok
        invariant unvisited <= prior.Keys
        invariant ok ==> !crashed && id in staging && staging[id] == before + CarriedSoFar(prior, alias, unvisited)
        decreases ok, unvisited
      {
        var file :| file in unvisited;
        VisitOne(before, prior, alias, unvisited, file);
        ok := CarryOne(id, prior, alias, file);
        unvisited := unvisited - {file};
      }
    }

    /** Write the runtime documents, and create the directory for sheets. */
    method StageDocuments(id: RevisionId, request: Request) returns (ok: bool)
      requires id in staging && staging[id] == map[]
      modifies `staging, `crashed
      ensures id in staging
      ensures old(crashed) ==> crashed && !ok
      ensures setting.reliable && !old(crashed) ==> ok
      ensures ok ==> !crashed && staging[id] == DocumentFiles(request)
    {
      var policy := Policy(request.profile, request.flightSheet.name, request.identity.alias);
      ok := WriteStaged(id, PolicyFile, Regular(policy), true);
      if !ok { return; }
      var xmrig := Xmrig(request.flightSheet, request.identity.value, request.profile.nodeName);
      ok := WriteStaged(id, XmrigFile, Regular(xmrig), true);
      if ok {
        ok := Try(); // the directory for sheets
      }
    }

    /** Write the runtime documents and the flight sheet. */
    method StageRuntimeFiles(id: RevisionId, request: Request) returns (ok: bool)
      requires Valid() && id in staging && staging[id] == map[]
      requires !crashed ==> journal.Holds? && past.origin.request == request
      modifies `staging, `revisions, `files, `past, `crashed, `trace
      ensures Valid() && old(trace) <= trace
      ensures old(crashed) ==> crashed && View() == old(View())
      ensures SheetWritten(old(View()), View())
      ensures Confined(request.flightSheet.name) ==> past.strays == old(past).strays
      ensures setting.reliable && !old(crashed) ==> !crashed && (Creatable(old(View()), request) ==> ok)
      ensures ok ==> !crashed && id in staging && staging[id] == BaseFiles(request)
      ensures ok ==> SheetPlaced(old(View()), View(), request)
      ensures var landing := Landed(request.flightSheet.name);
              ok && landing.place.Staging? ==> FileAt(landing.place, landing.file) !in DocumentFiles(request)
    {
      NothingWritten();
      ok := StageDocuments(id, request);
      if ok {
        ok := WriteSheet(id, request);
      }
    }

    /** The sheet is where its name leads: in the revision being staged, or astray. */
    static ghost predicate SheetPlaced(before: State, after: State, request: Request) {
      var landing := Landed(request.flightSheet.name);
      && landing.At?
      && (Confined(request.flightSheet.name) <==> after.past.strays == before.past.strays)
      && (!Confined(request.flightSheet.name) ==>
            && after.past.strays == before.past.strays + 1
            && CreatedAt(before, after.revisions, after.files, landing.place, landing.file, SheetDocument(request)))
    }

    method StageProvenance(id: RevisionId, request: Request) returns (ok: bool)
      requires id in staging
      modifies `staging, `crashed
      ensures old(crashed) ==> crashed
      ensures setting.reliable && !old(crashed) ==> !crashed
      ensures setting.reliable && !old(crashed) && ProvenanceFiles(request).Keys !! old(staging[id]).Keys ==> ok
      ensures ok ==> id in staging && staging[id] == old(staging[id]) + ProvenanceFiles(request)
      ensures ok ==> ProvenanceFiles(request).Keys !! old(staging[id]).Keys
      ensures ok && !old(crashed) ==> !crashed
    {
      if request.provenance.None? {
        return true;
      }
      var provenance := request.provenance.value;
      ok := WriteStaged(id, ProvenanceFile, Regular(Imported(provenance)), true);
      if ok && provenance.externalReference.Some? {
        var mapping := IdentityMap(provenance.externalReference.value, request.identity.alias, request.sourceSha256);
        ok := WriteStaged(id, IdentityMapFile, Regular(mapping), true);
      }
    }

    /** The identities that are carried over, read after the sheet has been written. If
        their directory cannot be seen, they are past.forgotten. */
    method StageCarried(id: RevisionId, alias: string) returns (ok: bool, ghost forgot: bool)
      requires id in staging
      modifies `staging, `crashed
      ensures old(crashed) ==> crashed
      ensures setting.reliable && !old(crashed) ==> ok
      ensures forgot ==> Content(View()).Some?
      ensures setting.Sure(IdentitiesProbe) ==> !forgot
      ensures ok && IdentitiesProbe in setting.failing ==> forgot == Content(View()).Some?
      ensures ok ==> !crashed && id in staging
      ensures ok ==> staging[id] == old(staging[id]) + Carried(if forgot then None else Content(View()), alias)
    {
      var prior := Lookup(revisions, current);
      forgot := false;
      ok := Try(); // the identities directory
      if ok && prior.Some? {
        var seen := Passes(IdentitiesProbe);
        forgot := !seen;
        if seen {
          ok := CarryIdentities(id, prior.value, alias);
        }
      }
    }

    /** Add the identities, old and new, and the provenance. */
    method StageOtherFiles(id: RevisionId, request: Request) returns (ok: bool, ghost forgot: bool)
      requires id in staging
      modifies `staging, `crashed
      ensures old(crashed) ==> crashed
      ensures setting.reliable && !old(crashed) ==> !crashed && (LeavesRoom(old(staging[id]), request) ==> ok)
      ensures forgot ==> Content(View()).Some?
      ensures setting.Sure(IdentitiesProbe) ==> !forgot
      ensures ok && IdentitiesProbe in setting.failing ==> forgot == Content(View()).Some?
      ensures ok ==> !crashed && id in staging
      ensures ok ==> staging[id] == Assembled(old(staging[id]), if forgot then None else Content(View()), request)
      ensures ok ==> ProvenanceFiles(request).Keys !! old(staging[id]).Keys
    {
      ghost var base := staging[id];
      ok, forgot := StageCarried(id, request.identity.alias);
      if !ok { return; }
      if LeavesRoom(base, request) {
        CarriedLeavesRoom(base, if forgot then None else Content(View()), request);
      }
      ok := WriteStaged(id, IdentityFile(AliasFile(request.identity.alias)), IdentityEntry(request), true);
      if !ok { return; }
      ok := StageProvenance(id, request);
      if ok {
        ok := Seal();
      }
    }

    /** Restrict the ownership of the staging directory, and flush it. */
    method Seal() returns (ok: bool)
      modifies `crashed
      ensures old(crashed) ==> crashed
      ensures setting.reliable && !old(crashed) ==> ok
      ensures ok ==> !crashed
    {
      ok := Try(); // ownership
      if ok {
        ok := Try(); // flush the directory
      }
    }

    /** What filling a staging directory may leave behind; `staged` is what is in it then. */
    static ghost predicate Stages(
        setting: Setting, before: State, after: State, wasCrashed: bool, crashed: bool, staged: Revision,
        request: Request, ok: bool, forgot: bool)
    {
      && (wasCrashed ==> crashed && after == before)
      && (setting.reliable && !wasCrashed ==> !crashed && (Creatable(before, request) ==> ok))
      && SheetWritten(before, after)
      && (Confined(request.flightSheet.name) ==> after.past.strays == before.past.strays)
      && (forgot ==> before.current.Some?)
      && (setting.Sure(IdentitiesProbe) ==> !forgot)
      && (ok && IdentitiesProbe in setting.failing ==> forgot == Content(after).Some?)
      && (ok ==>
            && !crashed
            && SheetPlaced(before, after, request)
            && Fits(request)
            && staged == Built(if forgot then None else Content(after), request))
    }

    /** Fill the staging directory `id` with the whole revision. */
    method StageRevision(id: RevisionId, request: Request) returns (ok: bool, ghost forgot: bool)
      requires Valid() && id in staging && staging[id] == map[]
      requires !crashed ==> journal.Holds? && past.origin.request == request
      modifies `staging, `revisions, `files, `past, `crashed, `trace
      ensures Valid() && old(trace) <= trace
      ensures ok ==> id in staging
      ensures Stages(setting, old(View()), View(), old(crashed), crashed, if ok then staging[id] else map[],
                     request, ok, forgot)
    {
      forgot := false;
      ok := StageRuntimeFiles(id, request);
      if ok {
        BaseLeavesRoom(request);
        BaseHasNoIdentity(request);
        ok, forgot := StageOtherFiles(id, request);
      }
    }

    /** Create the five public links that do not exist yet. */
    method EnsurePublicLinks() returns (ok: bool)
      requires Valid()
      requires !crashed ==> journal.Holds? && current.Some?
      modifies `links, `crashed, `trace
      ensures Valid() && old(trace) <= trace
      ensures old(crashed) ==> crashed && links == old(links)
      ensures setting.reliable && !old(crashed) ==> !crashed && (setting.Sure(NameProbe) ==> ok)
      ensures ok && !old(crashed) ==> !crashed
      ensures ok ==> AllNamed(old(links), links, files)
      ensures old(links) <= links
    {
      ghost var older := links;
      ok := EnsurePublicLink(PolicyLink);
      if !ok { return; }
      ok := EnsurePublicLink(XmrigLink);
      if !ok { return; }
      ok := EnsurePublicLink(SheetsLink);
      if !ok { return; }
      ok := EnsurePublicLink(IdentitiesLink);
      if !ok { return; }
      ok := EnsurePublicLink(IdentityMapLink);
      if ok {
        AllLinked(older, files);
      }
    }

    /** Let the `previous` link follow the present `current`. */
    method KeepPrevious() returns (ok: bool)
      modifies `previous, `crashed
      ensures old(crashed) ==> crashed
      ensures setting.reliable && !old(crashed) ==> ok
      ensures ok && !old(crashed) ==> !crashed
    {
      var seen := Passes(CurrentProbe);
      if current.None? || !seen {
        return true;
      }
      ok := Try(); // a temporary link to the old target
      if !ok { return; }
      var applied;
      ok, applied := Attempt();
      if applied {
        previous := current;
      }
    }

    /** Swap `current` to an installed revision and create the public links. */
    method PointAt(id: RevisionId) returns (ok: bool)
      requires Valid()
      requires !crashed ==>
        journal.Holds? && !active && id in revisions
      modifies `current, `previous, `links, `crashed, `trace
      ensures Valid() && old(trace) <= trace
      ensures old(crashed) ==> crashed && current == old(current) && links == old(links)
      ensures setting.reliable && !old(crashed) ==> !crashed && (setting.Sure(NameProbe) ==> ok)
      ensures ok && !old(crashed) ==> !crashed && current == Some(id) && AllNamed(old(links), links, files)
      ensures old(links) <= links
    {
      ok := KeepPrevious();
      if !ok { return; }
      ok := Try(); // a temporary link to the new revision
      if !ok { return; }
      ok := SwapCurrent(id);
      if !ok { return; }
      ok := EnsurePublicLinks();
      if !ok { return; }
      ok := Try(); // flush the state directory
    }

    /** What installing and publishing a staged revision may leave behind. */
    static ghost predicate Publishes(
        setting: Setting, before: State, after: State, crashed: bool, id: RevisionId, built: Revision, unseen: bool,
        ok: bool)
    {
      && (setting.reliable ==> !crashed && (id !in before.revisions && setting.Sure(NameProbe) ==> ok))
      && after ==
           before.(current := after.current, revisions := after.revisions, links := after.links,
                    past := before.past.(unseen := after.past.unseen))
      && before.links <= after.links
      && Kept(before.revisions, after.revisions)
      && (ok ==>
            && !crashed
            && id !in before.revisions
            && after.revisions == before.revisions[id := built]
            && after.past.unseen == unseen
            && after.current == Some(id)
            && AllNamed(before.links, after.links, after.files))
    }

    static lemma {:induction false} InstalledThenPointed(
        setting: Setting, before: State, installed: State, after: State, crashed: bool, id: RevisionId, built: Revision,
        ok: bool)
      requires id !in before.revisions
      requires installed == Installed(before, id, built, installed.past.unseen)
      requires after == installed.(current := after.current, links := after.links) && installed.links <= after.links
      requires setting.reliable ==> !crashed && (setting.Sure(NameProbe) ==> ok)
      requires ok ==> !crashed && after.current == Some(id) && AllNamed(installed.links, after.links, after.files)
      ensures Publishes(setting, before, after, crashed, id, built, installed.past.unseen, ok)
    {
    }

    /** Install the staged revision and publish it. */
    method PublishRevision(id: RevisionId, ghost installed: State) returns (ok: bool)
      requires Valid() && id in staging && !crashed && !active && journal.Holds?
      requires installed == Installed(View(), id, staging[id], installed.past.unseen)
      requires id !in revisions ==> Run(setting.faithful, trace + [installed])
      modifies `current, `previous, `revisions, `staging, `links, `past, `crashed, `trace
      ensures Valid() && old(trace) <= trace
      ensures Publishes(setting, old(View()), View(), crashed, id, old(staging[id]), installed.past.unseen, ok)
    {
      ghost var before, built := View(), staging[id];
      var there := InstallStaged(id, installed);
      ok := there;
      if there {
        ok := PointAt(id);
        InstalledThenPointed(setting, before, installed, View(), crashed, id, built, ok);
      }
    }

    /** How far a commit may reach: revisions and public names are only added, and only a
        sheet that goes astray adds a file to an older revision or to the state directory. */
    static ghost predicate OnlyAdded(before: State, after: State) {
      && after.past == before.past.(unseen := after.past.unseen, strays := after.past.strays)
      && after.past.strays >= before.past.strays
      && before.files <= after.files
      && before.links <= after.links
      && OnlyGrew(before.revisions, after.revisions)
      && (Confined(SheetName(after)) ==> after.past.strays == before.past.strays)
      && (after.past.strays == before.past.strays ==>
            Kept(before.revisions, after.revisions) && after.files == before.files)
    }

    /** The new revision is current, and is what is built on the last one, which has got the
        sheet only if that went astray. If `forgot`, it is built on nothing. */
    static ghost predicate PublishedAs(before: State, after: State, id: RevisionId, request: Request, forgot: bool) {
      && id !in before.revisions
      && id in after.revisions
      && after.current == Some(id)
      && AllNamed(before.links, after.links, after.files)
      && SheetPlaced(before, after, request)
      && Fits(request)
      && after.past.unseen == forgot
      && (forgot ==> before.current.Some?)
      && after.revisions[id] == Built(if forgot then None else Lookup(after.revisions, before.current), request)
    }

    static lemma {:induction false} WrittenThenKept(before: State, between: State, after: State)
      requires SheetWritten(before, between)
      requires after ==
                 between.(current := after.current, revisions := after.revisions, links := after.links,
                          past := between.past.(unseen := after.past.unseen))
      requires Kept(between.revisions, after.revisions) && between.links <= after.links
      requires Confined(SheetName(after)) ==> between.past.strays == before.past.strays
      ensures OnlyAdded(before, after)
    {
    }

    static lemma {:induction false} CreatedThenKept(before: State, between: State, after: State, request: Request)
      requires SheetPlaced(before, between, request)
      requires after ==
                 between.(current := after.current, revisions := after.revisions, links := after.links,
                          past := between.past.(unseen := after.past.unseen))
      requires Kept(between.revisions, after.revisions)
      ensures SheetPlaced(before, after, request)
    {
    }

    /** A revision that is staged, installed and made current is published. */
    static lemma {:induction false} StagedThenPublished(
        setting: Setting, before: State, between: State, after: State, wasCrashed: bool, crashed: bool, id: RevisionId,
        built: Revision, request: Request, ok: bool, forgot: bool)
      requires PointerResolves(before, before.current) && before.past.origin.request == request
      requires Stages(setting, before, between, wasCrashed, false, built, request, true, forgot)
      requires Publishes(setting, between, after, crashed, id, built, forgot, ok)
      ensures Commits(setting, before, after, wasCrashed, crashed, request,
                      if ok then Some(id) else None, forgot)
    {
      WrittenThenKept(before, between, after);
      if ok {
        CreatedThenKept(before, between, after, request);
        assert Lookup(after.revisions, before.current) == Content(between);
      }
    }

    static lemma {:induction false} StagedInVain(
        setting: Setting, before: State, after: State, wasCrashed: bool, crashed: bool, staged: Revision,
        request: Request, forgot: bool)
      requires before.past.origin.request == request || wasCrashed
      requires Stages(setting, before, after, wasCrashed, crashed, staged, request, false, forgot)
      ensures Commits(setting, before, after, wasCrashed, crashed, request, None, forgot)
    {
      UnchangedIsGrown(after.revisions);
      WrittenThenKept(before, after, after);
    }

    /** What is staged on top of the current revision may be published. */
    static lemma {:induction false} MayPublish(
        setting: Setting, trace: seq<State>, before: State, after: State, id: RevisionId, built: Revision,
        request: Request, forgot: bool)
      requires Run(setting.faithful, trace) && trace[|trace| - 1] == after
      requires before.journal.Holds? && before.past.origin == OriginOf(before, request) && Resolvable(request)
      requires Stages(setting, before, after, false, false, built, request, true, forgot)
      ensures id !in after.revisions ==>
                Run(setting.faithful, trace + [Installed(after, id, built, forgot)])
    {
      var installed := Installed(after, id, built, forgot);
      if id !in after.revisions {
        assert InstallAs(after, installed, id);
        RunExtends(setting.faithful, trace, installed);
      }
    }

    /** What the commit of a revision may leave behind. It succeeds only for a resolvable
        request, and fails only if something fails; an unresolvable one changes nothing. */
    static ghost predicate Commits(
        setting: Setting, before: State, after: State, wasCrashed: bool, crashed: bool, request: Request,
        committed: Option<RevisionId>, forgot: bool)
    {
      && (wasCrashed ==> crashed && after == before)
      && (setting.reliable && !wasCrashed ==> !crashed)
      && OnlyAdded(before, after)
      && (committed.Some? ==> !crashed && PublishedAs(before, after, committed.value, request, forgot))
      && Recalled(setting, committed.Some?, before.current, forgot)
    }

    /** Build a whole new revision beside the old ones and make it current. `forgot` is
        whether the identities of the last one were not seen. */
    method CommitRevision(request: Request) returns (committed: Option<RevisionId>, ghost forgot: bool)
      requires Valid()
      requires && !crashed
               && journal.Holds?
               && current == past.origin.pointer
               && !active
               && past.origin == OriginOf(View(), request)
      modifies `current, `previous, `revisions, `staging, `links, `files, `past, `crashed, `trace
      ensures Valid() && old(trace) <= trace
      ensures Commits(setting, old(View()), View(), false, crashed, request, committed, forgot)
      ensures Reliable(false, old(View()), request) && Resolvable(request) ==> committed.Some?
      ensures !Resolvable(request) ==> committed.None? && View() == old(View())
    {
      UnchangedIsGrown(revisions);
      committed, forgot := None, false;
      if Resolvable(request) {
        var id, ok := BeginStaging();
        if ok {
          committed, forgot := StageAndPublish(id, request);
          if committed.None? {
            DiscardStaging(id);
          }
        }
      }
    }

    /** Nothing fails that could keep this request from being committed. */
    ghost predicate Reliable(wasCrashed: bool, before: State, request: Request) {
      setting.reliable && !wasCrashed && setting.Sure(NameProbe) && Creatable(before, request)
    }

    /** The old identities are forgotten only if their directory could not be seen, and then certainly. */
    static ghost predicate Recalled(setting: Setting, success: bool, pointer: Option<RevisionId>, forgot: bool) {
      && (setting.Sure(IdentitiesProbe) ==> !forgot)
      && (success && IdentitiesProbe in setting.failing ==> forgot == pointer.Some?)
    }

    /** Create the revisions directory, and a staging directory in it under a new name. */
    method BeginStaging() returns (id: RevisionId, ok: bool)
      modifies `staging, `crashed
      ensures old(crashed) ==> crashed
      ensures setting.reliable && !old(crashed) ==> !crashed && ok && id !in revisions
      ensures ok ==> !crashed && id in staging && staging[id] == map[]
    {
      id := *;
      if setting.reliable {
        id := FreshName(revisions.Keys + staging.Keys);
      }
      ok := Try(); // the revisions directory
      if ok {
        ok := CreateStaging(id);
      }
    }

    /** Remove a staging directory, ignoring any failure to do so. */
    method DiscardStaging(id: RevisionId)
      modifies `staging, `crashed
      ensures old(crashed) ==> crashed
      ensures setting.reliable && !old(crashed) ==> !crashed && staging == old(staging) - {id}
    {
      var _, applied := Attempt();
      if applied {
        staging := staging - {id};
      }
    }

    method StageAndPublish(id: RevisionId, request: Request) returns (committed: Option<RevisionId>, ghost forgot: bool)
      requires Valid() && id in staging && staging[id] == map[] && Resolvable(request)
      requires !crashed && journal.Holds? && current == past.origin.pointer && !active
      requires past.origin == OriginOf(View(), request)
      modifies `current, `previous, `revisions, `staging, `links, `files, `past, `crashed, `trace
      ensures Valid() && old(trace) <= trace
      ensures Commits(setting, old(View()), View(), false, crashed, request, committed, forgot)
      ensures committed.Some? ==> committed.value == id
      ensures Reliable(false, old(View()), request) && id !in old(revisions) ==> committed.Some?
    {
      Facts();
      ghost var before := View();
      var ok;
      ok, forgot := StageRevision(id, request);
      if ok {
        ok := PublishStaged(id, request, before, forgot);
      } else {
        StagedInVain(setting, before, View(), false, crashed, map[], request, forgot);
      }
      committed := if ok then Some(id) else None;
    }

    /** Install and publish what has been staged since `before`. */
    method PublishStaged(id: RevisionId, ghost request: Request, ghost before: State, ghost forgot: bool)
      returns (ok: bool)
      requires Valid() && id in staging && !crashed && journal.Holds? && !active
      requires PointerResolves(before, before.current) && before.journal.Holds? && Resolvable(request)
      requires before.past.origin == OriginOf(before, request)
      requires Stages(setting, before, View(), false, false, staging[id], request, true, forgot)
      modifies `current, `previous, `revisions, `staging, `links, `past, `crashed, `trace
      ensures Valid() && old(trace) <= trace
      ensures Commits(setting, before, View(), false, crashed, request, if ok then Some(id) else None, forgot)
      ensures setting.reliable && setting.Sure(NameProbe) && id !in old(revisions) ==> ok
    {
      ghost var between, built := View(), staging[id];
      MayPublish(setting, trace, before, between, id, built, request, forgot);
      ok := PublishRevision(id, Installed(between, id, built, forgot));
      StagedThenPublished(setting, before, between, View(), false, crashed, id, built, request, ok, forgot);
    }

    // ----- undoing -----

    /** Remove the five public names, ignoring failures. */
    method RemovePublicNames()
      requires Valid()
      requires !crashed ==> journal.Holds? && journal.snapshot.previous.None?
      modifies `links, `files, `past, `crashed, `trace
      ensures Valid() && old(trace) <= trace
      ensures old(crashed) ==> crashed && links == old(links) && files == old(files) && past == old(past)
      ensures setting.reliable && !old(crashed) ==> !crashed
      ensures past == old(past).(slipped := past.slipped) && (setting.Sure(NameRemoval) ==> past == old(past))
      ensures !crashed ==> (past.slipped <==> old(past).slipped || !(links == {} && files == {}))
    {
      var names := [PolicyLink, XmrigLink, SheetsLink, IdentitiesLink, IdentityMapLink];
      for i := 0 to |names|
        invariant Valid() && old(trace) <= trace
        invariant old(crashed) ==> crashed && links == old(links) && files == old(files) && past == old(past)
        invariant setting.reliable && !old(crashed) ==> !crashed
        invariant past == old(past).(slipped := past.slipped) && (setting.Sure(NameRemoval) ==> past == old(past))
        invariant !crashed ==> journal.Holds? && journal.snapshot.previous.None?
        invariant !crashed ==>
                    (past.slipped <==> old(past).slipped || exists k :: 0 <= k < i && names[k] in links + files)
      {
        RemovePublicName(names[i]);
      }
      NoLinksLeft(links + files);
      assert && names[0] == PolicyLink
             && names[1] == XmrigLink
             && names[2] == SheetsLink
             && names[3] == IdentitiesLink
             && names[4] == IdentityMapLink;
    }

    /** Put the `current` link back to `target`, or remove it and the public names. */
    method RestorePointer(target: Option<RevisionId>) returns (ok: bool)
      requires Valid() && (crashed || !past.slipped)
      requires !crashed ==> journal.Holds? && journal.snapshot.previous == target && (setting.faithful ==> !active)
      modifies `current, `links, `files, `past, `crashed, `trace
      ensures Valid() && old(trace) <= trace
      ensures old(crashed) ==> crashed && View() == old(View())
      ensures setting.reliable && !old(crashed) ==> ok && !crashed
      ensures past == old(past).(slipped := past.slipped) && (setting.Sure(NameRemoval) ==> past == old(past))
      ensures ok && !crashed ==> PointerRestored(old(View()), View(), target)
      ensures target.None? ==> ok
    {
      if target.Some? {
        ok := Try(); // a temporary link to the old target
        if ok {
          ok := RenameOverCurrent(target.value);
        }
        return ok;
      }
      RemoveCurrent();
      RemovePublicNames();
      return true;
    }

    method RestoreRuntime(snapshot: Snapshot, restoreRunning: bool) returns (ok: bool)
      requires Valid()
      modifies `timezone, `enabled, `active, `crashed, `trace
      ensures Valid() && old(trace) <= trace
      ensures old(crashed) ==> crashed && timezone == old(timezone) && enabled == old(enabled) && active == old(active)
      ensures setting.reliable && !old(crashed) ==> ok
      ensures ok ==> !crashed
      ensures ok && setting.faithful ==>
                && timezone == snapshot.timezone
                && enabled == snapshot.enabled
                && active == (old(active) || (restoreRunning && snapshot.active))
    {
      ok := SetTimezone(snapshot.timezone);
      if !ok { return; }
      ok := SetMinerEnabled(snapshot.enabled);
      if !ok { return; }
      if restoreRunning && snapshot.active {
        ok := StartMiner();
      }
    }

    /** The pointer is back, or everything is gone with it exactly if no removal has slipped. */
    static ghost predicate PointerRestored(before: State, after: State, previous: Option<RevisionId>) {
      && (previous.Some? ==>
            && after.current == previous
            && after.links == before.links
            && after.files == before.files
            && !after.past.slipped)
      && (previous.None? ==> (PointerUndone(after, None) <==> !after.past.slipped))
    }

    /** A new undo begins. */
    ghost method StartOver()
      requires Valid() && journal.Holds?
      modifies `past, `trace
      ensures Valid() && old(trace) <= trace && past == old(past).(slipped := false)
    {
      past := past.(slipped := false);
      assert BeginUndo(trace[|trace| - 1], View());
      Record();
    }

    /** The pointer is only put back once the miner is stopped. */
    method StopAndRestore(target: Option<RevisionId>) returns (ok: bool)
      requires Valid()
      requires !crashed ==> journal.Holds? && journal.snapshot.previous == target
      modifies `current, `links, `files, `active, `past, `crashed, `trace
      ensures Valid() && old(trace) <= trace
      ensures old(crashed) ==> crashed && View() == old(View())
      ensures setting.reliable && !old(crashed) ==> ok && !crashed
      ensures past == old(past).(slipped := past.slipped)
      ensures setting.Sure(NameRemoval) && past.slipped ==> old(past).slipped && !ok
      ensures ok && !crashed ==> (setting.faithful ==> !active) && PointerRestored(old(View()), View(), target)
    {
      ok := StopMiner();
      if ok {
        StartOver();
        ok := RestorePointer(target);
      }
    }

    /** Undo the transaction the journal describes. On failure one more stop is
        attempted; `stopped` tells whether it succeeded, and `bootKnown` whether the boot id
        could be read. The journal is left alone either way. */
    method RollbackTransaction(snapshot: Snapshot) returns (ok: bool, ghost stopped: bool, ghost bootKnown: bool)
      requires Valid()
      requires !crashed ==> journal == Holds(snapshot)
      modifies `current, `links, `files, `timezone, `enabled, `active, `past, `crashed, `trace
      ensures Valid() && old(trace) <= trace
      ensures old(crashed) ==> crashed && View() == old(View())
      ensures setting.reliable && !old(crashed) ==> ok
      ensures past == old(past).(slipped := past.slipped) && (setting.Sure(NameRemoval) && ok ==> !past.slipped)
      ensures ok ==> !crashed && PointerRestored(old(View()), View(), snapshot.previous)
      ensures ok ==> Reverted(setting.faithful, View(), snapshot)
      ensures ok && setting.faithful && bootKnown ==> (active <==> snapshot.active && bootId == snapshot.bootId)
      ensures !ok && stopped && setting.faithful ==> !active
    {
      stopped := false;
      ok := StopAndRestore(snapshot.previous);
      var readable := Try(); // the boot id
      bootKnown := readable;
      var sameBoot := readable && bootId == snapshot.bootId;
      if ok {
        ok := RestoreRuntime(snapshot, sameBoot);
      }
      if !ok {
        var again := StopMiner();
        stopped := again;
      }
    }

    /** The state in which the journal has been removed after an undo. */
    static ghost function Aborted(s: State): State {
      s.(journal := Absent, past := s.past.(doubtful := DoubtfulAfterAbort(s)))
    }

    /** Finish an interrupted transaction by undoing it, unless its journal is overlooked.
        Once the journal is gone the snapshot is restored, even if the program was killed
        before it could report so. */
    method RecoverPending() returns (ok: bool, ghost stopped: bool, ghost unnoticed: Unnoticed)
      requires Valid() && !crashed
      modifies `current, `links, `files, `journal, `timezone, `enabled, `active, `past, `crashed, `trace
      ensures Valid() && old(trace) <= trace
      ensures past == old(past).(slipped := past.slipped, doubtful := past.doubtful)
      ensures journal.Absent? || journal == old(journal)
      ensures old(journal).Absent? || unnoticed.overlooked ==> ok && View() == old(View()) && !crashed
      ensures old(journal).Torn? && !unnoticed.overlooked ==> !ok && View() == old(View())
      ensures ok ==> !crashed && (journal.Absent? || unnoticed.overlooked)
      ensures old(journal).Holds? && journal.Absent? ==>
                var snapshot := old(journal).snapshot;
                && Reverted(setting.faithful, View(), snapshot)
                && (setting.faithful && unnoticed.bootKnown ==>
                      (active <==> snapshot.active && bootId == snapshot.bootId))
                && PointerRestored(old(View()), View(), snapshot.previous)
                && unnoticed.missed == past.slipped
      // an undo is doubtful exactly if a removal was missed, or the journal had no pointer though there was one
      ensures past.doubtful ==
                if old(journal).Holds? && journal.Absent? && !(Named(old(View())) && !unnoticed.missed)
                then old(past).doubtful + 1 else old(past).doubtful
      // where nothing fails, recovery always finishes; a journal is overlooked only if it could not be seen
      ensures setting.reliable && setting.Sure(PendingProbe) && !old(journal).Torn? ==> ok
      ensures setting.Sure(PendingProbe) ==> !unnoticed.overlooked
      ensures setting.Sure(NameRemoval) ==> !unnoticed.missed
      ensures PendingProbe in setting.failing ==> unnoticed.overlooked == !old(journal).Absent?
    {
      stopped, unnoticed := false, NOTHING;
      var seen := Passes(PendingProbe);
      if journal.Absent? || !seen {
        return true, false, NOTHING.(overlooked := !journal.Absent?);
      }
      var readable := Try(); // read the journal
      if !readable || journal.Torn? {
        return false, false, NOTHING;
      }
      ghost var bootKnown;
      ok, stopped, bootKnown := RollbackTransaction(journal.snapshot);
      unnoticed := NOTHING.(bootKnown := bootKnown, missed := ok && past.slipped);
      if ok {
        RestoredMayAbort(setting.faithful, trace, View());
        ok := RemoveJournal(Aborted(View()));
      }
    }

    static lemma {:induction false} RestoredMayAbort(faithful: bool, trace: seq<State>, s: State)
      requires Run(faithful, trace) && trace[|trace| - 1] == s && s.journal.Holds?
      requires s.past.slipped ==> s.journal.snapshot.previous.None?
      requires !s.past.slipped ==> PointerUndone(s, s.journal.snapshot.previous)
      requires Reverted(faithful, s, s.journal.snapshot)
      ensures Run(faithful, trace + [Aborted(s)])
    {
      assert Abort(faithful, s, Aborted(s));
      RunExtends(faithful, trace, Aborted(s));
    }

    /** What applying the runtime side of a committed request may leave behind. */
    static ghost predicate Starts(
        setting: Setting, before: State, after: State, crashed: bool, profile: RigProfile, cmdline: seq<string>,
        started: Result<bool, Stage>, unread: bool)
    {
      var onBoot := profile.minerStartMode.OnBoot?;
      && ChangeRuntime(before, after)
      && (setting.reliable ==> !crashed)
      && (started.Ok? ==>
            && !crashed
            && started.value == (onBoot && (unread || !BlocksMining(cmdline)))
            && after.active == started.value
            && (setting.faithful ==> after.timezone == profile.timezone && after.enabled == onBoot))
      && (setting.reliable && setting.faithful ==> started.Ok?)
      && (setting.Sure(CmdlineRead) ==> !unread)
      && (started.Ok? && CmdlineRead in setting.failing ==> unread)
    }

    /** Apply the runtime side of a committed request; answers whether the miner was
        started. A kernel command line that could not be read blocks nothing. */
    method ApplyNewRuntime(profile: RigProfile, cmdline: seq<string>)
      returns (started: Result<bool, Stage>, ghost unread: bool)
      requires Valid() && !crashed && !active
      modifies `timezone, `enabled, `active, `crashed, `trace
      ensures Valid() && old(trace) <= trace
      ensures Starts(setting, old(View()), View(), crashed, profile, cmdline, started, unread)
    {
      unread := false;
      var failed := ApplySettings(profile);
      if failed.Some? {
        return Err(failed.value), false;
      }
      var read := Passes(CmdlineRead);
      unread := !read;
      var start := profile.minerStartMode.OnBoot? && !BlocksMining(if read then cmdline else []);
      if start {
        failed := StartAndCheck();
      }
      started := if failed.Some? then Err(failed.value) else Ok(start);
    }

    method ApplySettings(profile: RigProfile) returns (failed: Option<Stage>)
      requires Valid() && !crashed
      modifies `timezone, `enabled, `crashed, `trace
      ensures Valid() && old(trace) <= trace
      ensures setting.reliable ==> !crashed && failed.None?
      ensures failed.None? ==>
                && !crashed
                && (setting.faithful ==> timezone == profile.timezone && enabled == profile.minerStartMode.OnBoot?)
    {
      var ok := SetTimezone(profile.timezone);
      if !ok {
        return Some(ApplyTimezone);
      }
      ok := SetMinerEnabled(profile.minerStartMode.OnBoot?);
      return if ok then None else Some(ApplyEnabled);
    }

    method StartAndCheck() returns (failed: Option<Stage>)
      requires Valid() && !crashed
      modifies `active, `crashed, `trace
      ensures Valid() && old(trace) <= trace
      ensures setting.reliable ==> !crashed && (setting.faithful ==> failed.None?)
      ensures failed.None? ==> !crashed && active
    {
      var ok := StartMiner();
      if !ok {
        return Some(StartNewMiner);
      }
      var answer := MinerActive();
      if answer.None? {
        return Some(QueryMiner);
      }
      return if answer.value then None else Some(StartNewMiner);
    }

    /** Stop the miner and make sure of it. */
    method StopForCommit() returns (failed: Option<Stage>)
      requires Valid()
      modifies `active, `crashed, `trace
      ensures Valid() && old(trace) <= trace
      ensures old(crashed) ==> crashed && active == old(active)
      ensures setting.reliable && !old(crashed) ==> !crashed && (setting.faithful ==> failed.None?)
      ensures failed.None? ==> !crashed && !active
    {
      var ok := StopMiner();
      if !ok {
        return Some(StopBeforeCommit);
      }
      var answer := MinerActive();
      if answer.None? {
        return Some(QueryMiner);
      }
      return if answer.value then Some(StopBeforeCommit) else None;
    }

    /** What the forward half of a transaction has reached when it succeeds. */
    static ghost predicate Operated(
        faithful: bool, before: State, after: State, request: Request, cmdline: seq<string>, id: RevisionId,
        started: bool, unnoticed: Unnoticed) {
      && Resolvable(request)
      && PublishedAs(before, after, id, request, unnoticed.forgot)
      && Applied(faithful, after, request)
      && started == (request.profile.minerStartMode.OnBoot? && (unnoticed.unread || !BlocksMining(cmdline)))
      && after.active == started
    }

    /** What the forward half of a transaction may leave behind. */
    static ghost predicate Forward(
        setting: Setting, before: State, after: State, crashed: bool, request: Request, cmdline: seq<string>,
        outcome: Result<(RevisionId, bool), Stage>, unnoticed: Unnoticed)
    {
      && (setting.reliable ==> !crashed)
      && OnlyAdded(before, after)
      && (outcome.Ok? ==>
            && !crashed
            && Operated(setting.faithful, before, after, request, cmdline, outcome.value.0, outcome.value.1, unnoticed))
      && unnoticed == NOTHING.(forgot := unnoticed.forgot, unread := unnoticed.unread)
      && Recalled(setting, outcome.Ok?, before.current, unnoticed.forgot)
      && (setting.Sure(CmdlineRead) ==> !unnoticed.unread)
      && (outcome.Ok? && CmdlineRead in setting.failing ==> unnoticed.unread)
    }

    /** The commit of the revision and then the change of the runtime are the forward half. */
    static lemma {:induction false} CommittedThenApplied(
        setting: Setting, before: State, published: State, after: State, crashed: bool, request: Request,
        cmdline: seq<string>, committed: RevisionId, started: Result<bool, Stage>, forgot: bool, unread: bool)
      requires Resolvable(request)
      requires Commits(setting, before, published, false, false, request, Some(committed), forgot)
      requires Starts(setting, published, after, crashed, request.profile, cmdline, started, unread)
      ensures var outcome := if started.Err? then Err(started.error) else Ok((committed, started.value));
              Forward(setting, before, after, crashed, request, cmdline, outcome,
                      NOTHING.(forgot := forgot, unread := unread))
    {
    }

    /** The miner may be stopped before the commit. */
    static lemma {:induction false} StoppedFirst(
        setting: Setting, before: State, stopped: State, after: State, crashed: bool, request: Request,
        cmdline: seq<string>, outcome: Result<(RevisionId, bool), Stage>, unnoticed: Unnoticed)
      requires ChangeRuntime(before, stopped)
      requires Forward(setting, stopped, after, crashed, request, cmdline, outcome, unnoticed)
      ensures Forward(setting, before, after, crashed, request, cmdline, outcome, unnoticed)
    {
    }

    static lemma {:induction false} NothingDone(
        setting: Setting, before: State, after: State, crashed: bool, request: Request, cmdline: seq<string>,
        stage: Stage)
      requires ChangeRuntime(before, after) && (setting.reliable ==> !crashed)
      ensures Forward(setting, before, after, crashed, request, cmdline, Err(stage), NOTHING)
    {
      UnchangedIsGrown(before.revisions);
    }

    static lemma {:induction false} NotCommitted(
        setting: Setting, before: State, after: State, crashed: bool, request: Request, cmdline: seq<string>,
        forgot: bool)
      requires Commits(setting, before, after, false, crashed, request, None, forgot)
      ensures Forward(setting, before, after, crashed, request, cmdline, Err(PointerSwap),
                      NOTHING.(forgot := forgot))
    {
    }

    /** The forward half of a transaction, run under the journal. */
    method Operate(request: Request, cmdline: seq<string>)
      returns (outcome: Result<(RevisionId, bool), Stage>, ghost unnoticed: Unnoticed)
      requires Valid() && !crashed
      requires journal.Holds? && current == past.origin.pointer && past.origin == OriginOf(View(), request)
      modifies `current, `previous, `revisions, `staging, `links, `files, `timezone, `enabled, `active, `past,
               `crashed, `trace
      ensures Valid() && old(trace) <= trace
      ensures Forward(setting, old(View()), View(), crashed, request, cmdline, outcome, unnoticed)
      ensures !Resolvable(request) ==> outcome.Err?
      ensures setting.faithful && Reliable(false, old(View()), request) ==> (outcome.Ok? <==> Resolvable(request))
    {
      ghost var before := View();
      var failed := StopForCommit();
      ghost var stopped := View();
      if failed.Some? {
        outcome, unnoticed := Err(failed.value), NOTHING;
        NothingDone(setting, stopped, stopped, crashed, request, cmdline, failed.value);
      } else {
        outcome, unnoticed := CommitAndApply(request, cmdline);
      }
      StoppedFirst(setting, before, stopped, View(), crashed, request, cmdline, outcome, unnoticed);
    }

    /** Commit the revision, and apply the runtime if that worked. */
    method CommitAndApply(request: Request, cmdline: seq<string>)
      returns (outcome: Result<(RevisionId, bool), Stage>, ghost unnoticed: Unnoticed)
      requires Valid() && !crashed
      requires !active && journal.Holds? && current == past.origin.pointer && past.origin == OriginOf(View(), request)
      modifies `current, `previous, `revisions, `staging, `links, `files, `timezone, `enabled, `active, `past,
               `crashed, `trace
      ensures Valid() && old(trace) <= trace
      ensures Forward(setting, old(View()), View(), crashed, request, cmdline, outcome, unnoticed)
      ensures !Resolvable(request) ==> outcome.Err?
      ensures setting.faithful && Reliable(false, old(View()), request) ==> (outcome.Ok? <==> Resolvable(request))
    {
      ghost var before := View();
      var committed;
      ghost var forgot;
      committed, forgot := CommitRevision(request);
      ghost var published := View();
      if committed.None? {
        NotCommitted(setting, before, published, crashed, request, cmdline, forgot);
        outcome, unnoticed := Err(PointerSwap), NOTHING.(forgot := forgot);
      } else {
        var started;
        ghost var unread;
        started, unread := ApplyNewRuntime(request.profile, cmdline);
        CommittedThenApplied(setting, before, published, View(), crashed, request, cmdline,
                             committed.value, started, forgot, unread);
        outcome := if started.Err? then Err(started.error) else Ok((committed.value, started.value));
        unnoticed := NOTHING.(forgot := forgot, unread := unread);
      }
    }

    /** Read the runtime and the pointer before anything is changed. A pointer that cannot
        be read is taken to be missing. */
    method TakeSnapshot() returns (snapshot: Option<Snapshot>, ghost blind: bool)
      requires !crashed
      modifies `crashed
      ensures setting.reliable ==> snapshot.Some? && !crashed
      ensures snapshot.Some? ==>
                !crashed && snapshot.value == if blind then SnapshotOf(View()).(previous := None)
                else SnapshotOf(View())
      ensures blind ==> current.Some?
      ensures setting.Sure(CurrentProbe) ==> !blind
      ensures snapshot.Some? && CurrentProbe in setting.failing ==> blind == current.Some?
    {
      blind := false;
      var ok := Try(); // the boot id
      if !ok {
        return None, false;
      }
      var read := Passes(CurrentProbe);
      var pointer := if read then current else None;
      blind := !read && current.Some?;
      ok := Try(); // the timezone
      if !ok {
        return None, blind;
      }
      ok := Try(); // the enabled state
      if !ok {
        return None, blind;
      }
      var running := MinerActive();
      if running.None? {
        return None, blind;
      }
      return Some(Snapshot(bootId, pointer, timezone, enabled, running.value)), blind;
    }

    /** The old state is in force: content, pointer and runtime are those of `before`. Where
        there was a pointer and it was read, this is so without condition, but for a sheet of
        this very transaction that went astray. Where it was not read, the configuration is
        gone; where there was none, nothing is left that was not there, unless a removal was
        missed. */
    static ghost predicate AllOld(faithful: bool, before: State, after: State, unnoticed: Unnoticed) {
      && after.past.log == before.past.log
      && after.past.forgotten == before.past.forgotten
      && OnlyGrew(before.revisions, after.revisions)
      && (after.past.strays == before.past.strays ==> Kept(before.revisions, after.revisions))
      && (before.current.Some? && !unnoticed.blind ==>
            && !unnoticed.missed
            && after.current == before.current
            && before.links <= after.links
            && (after.past.strays == before.past.strays ==> Content(after) == Content(before)))
      && (before.current.None? && !unnoticed.missed ==>
            after.current.None? && after.links <= before.links && after.files <= before.files)
      && (unnoticed.blind ==> before.current.Some? && (!unnoticed.missed ==> PointerUndone(after, None)))
      && (after.journal.Absent? ==>
            after.past.doubtful ==
              if unnoticed.blind || unnoticed.missed then before.past.doubtful + 1 else before.past.doubtful)
      && (faithful ==>
            && after.timezone == before.timezone
            && after.enabled == before.enabled
            && (after.active ==> before.active)
            && (unnoticed.bootKnown ==> after.active == before.active))
    }

    /** The new state is in force: what is built of the request, with the sheet where its name
        leads. The content is exactly what `request` asks for if and only if its sheet is
        confined and the old identities were seen or there were none (`AdvancedBy`). */
    static ghost predicate AllNew(faithful: bool, before: State, after: State, request: Request, forgot: bool) {
      && AdvancedBy(faithful, before, after, request, forgot)
      && Fits(request)
      && SheetPlaced(before, after, request)
      && OnlyGrew(before.revisions, after.revisions)
      && (after.past.strays == before.past.strays ==>
            Kept(before.revisions, after.revisions) && after.files == before.files)
      && AllNamed(before.links, after.links, after.files)
    }

    /** A transaction that began in `before` and is still undecided. */
    static ghost predicate Underway(before: State, s: State, snapshot: Snapshot) {
      && Describes(snapshot, before)
      && s.journal == Holds(snapshot)
      && s.past.origin == OriginOf(before, s.past.origin.request)
      && s.past.log == before.past.log
      && s.past.doubtful == before.past.doubtful
      && s.past.forgotten == before.past.forgotten
      && s.bootId == before.bootId
      && OnlyGrew(before.revisions, s.revisions)
      && (s.past.strays == before.past.strays ==> Kept(before.revisions, s.revisions))
      && (before.current.Some? ==> before.links <= s.links)
    }

    /** The runtime and the pointer are where `snapshot`, taken of `before`, has them. */
    static ghost predicate Undone(faithful: bool, before: State, after: State, snapshot: Snapshot, bootKnown: bool) {
      && Describes(snapshot, before)
      && after.past.log == before.past.log
      && after.past.forgotten == before.past.forgotten
      && after.bootId == before.bootId
      && after.past.origin == OriginOf(before, after.past.origin.request)
      && OnlyGrew(before.revisions, after.revisions)
      && (after.past.strays == before.past.strays ==> Kept(before.revisions, after.revisions))
      && (snapshot.previous.Some? ==>
            after.current == before.current && before.links <= after.links && !after.past.slipped)
      && (snapshot.previous.None? ==> (PointerUndone(after, None) <==> !after.past.slipped))
      && Reverted(faithful, after, snapshot)
      && (faithful && bootKnown ==> (after.active <==> snapshot.active))
    }

    static lemma {:induction false} UndoneIsAllOld(
        faithful: bool, before: State, after: State, snapshot: Snapshot, unnoticed: Unnoticed)
      requires Invariant(before)
      requires Undone(faithful, before, after, snapshot, unnoticed.bootKnown) && unnoticed.missed == after.past.slipped
      requires unnoticed.blind == (snapshot.previous != before.current)
      requires after.journal.Absent? ==>
                 after.past.doubtful ==
                   if unnoticed.blind || unnoticed.missed then before.past.doubtful + 1 else before.past.doubtful
      ensures AllOld(faithful, before, after, unnoticed)
    {
    }

    /** What a successful rollback ensures is that everything is undone. */
    static lemma {:induction false} RolledBackIsUndone(
        faithful: bool, before: State, s: State, s': State, snapshot: Snapshot, bootKnown: bool)
      requires Underway(before, s, snapshot)
      requires s' ==
                 s.(current := s'.current, links := s'.links, files := s'.files,
                    past := s.past.(slipped := s'.past.slipped),
                        timezone := s'.timezone, enabled := s'.enabled, active := s'.active)
      requires PointerRestored(s, s', snapshot.previous) && Reverted(faithful, s', snapshot)
      requires faithful && bootKnown ==> (s'.active <==> snapshot.active && s'.bootId == snapshot.bootId)
      ensures Undone(faithful, before, s', snapshot, bootKnown)
      ensures s'.past.slipped ==> snapshot.previous.None?
      ensures !s'.past.slipped ==> PointerUndone(s', snapshot.previous)
      ensures Aborted(s').past.doubtful ==
                if snapshot.previous != before.current || s'.past.slipped then before.past.doubtful + 1
                else before.past.doubtful
    {
    }

    static lemma {:induction false} UndoneOutlivesJournal(
        faithful: bool, before: State, s: State, s': State, snapshot: Snapshot, bootKnown: bool)
      requires Undone(faithful, before, s, snapshot, bootKnown)
      requires s' == s.(journal := s'.journal, past := s.past.(doubtful := s'.past.doubtful))
      ensures Undone(faithful, before, s', snapshot, bootKnown)
    {
    }

    /** Roll back to `before`; if that worked, the journal may go. */
    method RollBack(snapshot: Snapshot, ghost before: State) returns (ok: bool, ghost bootKnown: bool)
      requires Valid() && Underway(before, View(), snapshot)
      modifies `current, `links, `files, `timezone, `enabled, `active, `past, `crashed, `trace
      ensures Valid() && old(trace) <= trace
      ensures old(crashed) ==> crashed && !ok
      ensures setting.reliable && !old(crashed) ==> ok
      ensures past == old(past).(slipped := past.slipped) && (setting.Sure(NameRemoval) && ok ==> !past.slipped)
      ensures ok ==>
                && !crashed
                && Undone(setting.faithful, before, View(), snapshot, bootKnown)
                && Run(setting.faithful, trace + [Aborted(View())])
                && Aborted(View()).past.doubtful ==
                     if snapshot.previous != before.current || past.slipped then before.past.doubtful + 1
                     else before.past.doubtful
    {
      ghost var began := View();
      ghost var stopped;
      ok, stopped, bootKnown := RollbackTransaction(snapshot);
      if ok {
        RolledBackIsUndone(setting.faithful, before, began, View(), snapshot, bootKnown);
        RestoredMayAbort(setting.faithful, trace, View());
      }
    }

    /** Roll back to `before` and drop the journal if that worked. */
    method Abandon(snapshot: Snapshot, ghost before: State) returns (undone: bool, ghost bootKnown: bool)
      requires Valid() && Underway(before, View(), snapshot)
      modifies `current, `links, `files, `journal, `timezone, `enabled, `active, `past, `crashed, `trace
      ensures Valid() && old(trace) <= trace
      ensures old(crashed) ==> crashed && journal == Holds(snapshot) && !undone
      ensures setting.reliable && !old(crashed) ==> undone && journal.Absent? && !crashed
      ensures setting.Sure(NameRemoval) && undone ==> !past.slipped
      ensures past == old(past).(slipped := past.slipped, doubtful := past.doubtful)
      ensures journal.Absent? || journal == Holds(snapshot)
      ensures journal.Absent? ==> undone
      ensures past.doubtful ==
                if journal.Absent? && (snapshot.previous != before.current || past.slipped)
                then before.past.doubtful + 1 else before.past.doubtful
      ensures undone ==> Undone(setting.faithful, before, View(), snapshot, bootKnown)
    {
      undone, bootKnown := RollBack(snapshot, before);
      if undone {
        ghost var rolledBack := View();
        var _ := RemoveJournal(Aborted(rolledBack));
        UndoneOutlivesJournal(setting.faithful, before, rolledBack, View(), snapshot, bootKnown);
      }
    }

    /** What the undo of a transaction that began in `before` may leave behind. The old state
        is in force if it succeeded. */
    static ghost predicate Backs(
        setting: Setting, before: State, s: State, s': State, wasCrashed: bool, crashed: bool, snapshot: Snapshot,
        undone: bool, unnoticed: Unnoticed) {
      && s' == s.(current := s'.current, links := s'.links, files := s'.files, journal := s'.journal,
                  timezone := s'.timezone, enabled := s'.enabled, active := s'.active,
                  past := s.past.(slipped := s'.past.slipped, doubtful := s'.past.doubtful))
      && (wasCrashed ==> crashed && s'.journal == Holds(snapshot) && !undone)
      && (setting.reliable && !wasCrashed ==> undone && s'.journal.Absent? && !crashed)
      && (s'.journal.Absent? || s'.journal == Holds(snapshot))
      && (s'.journal.Absent? ==> undone)
      && (!s'.journal.Absent? ==> s'.past.doubtful == before.past.doubtful)
      && (undone ==> AllOld(setting.faithful, before, s', unnoticed))
      && !unnoticed.overlooked
      && unnoticed.blind == (snapshot.previous != before.current)
      && (setting.Sure(NameRemoval) ==> !unnoticed.missed)
    }

    /** Abandon, and the old state is in force if the undo succeeded. */
    method Undo(snapshot: Snapshot, ghost before: State, ghost forgot: bool, ghost unread: bool)
      returns (undone: bool, ghost unnoticed: Unnoticed)
      requires Valid() && Underway(before, View(), snapshot) && Invariant(before)
      modifies `current, `links, `files, `journal, `timezone, `enabled, `active, `past, `crashed, `trace
      ensures Valid() && old(trace) <= trace
      ensures Backs(setting, before, old(View()), View(), old(crashed), crashed, snapshot, undone, unnoticed)
      ensures unnoticed.forgot == forgot && unnoticed.unread == unread
    {
      ghost var bootKnown;
      undone, bootKnown := Abandon(snapshot, before);
      unnoticed :=
        Unnoticed(false, snapshot.previous != before.current, forgot, unread, undone && past.slipped, bootKnown);
      if undone {
        UndoneIsAllOld(setting.faithful, before, View(), snapshot, unnoticed);
      }
    }

    /** A transaction that is undone, or is tried to be, settles. */
    static lemma {:induction false} UndoSettles(
        setting: Setting, before: State, began: State, operated: State, after: State, wasCrashed: bool, crashed: bool,
        request: Request, cmdline: seq<string>, snapshot: Snapshot, stage: Stage, undone: bool, unnoticed: Unnoticed)
      requires Entered(before, began, request) && began.journal == Holds(snapshot) && SameTransaction(began, operated)
      requires OnlyAdded(began, operated) && (setting.reliable ==> !wasCrashed)
      requires Backs(setting, before, operated, after, wasCrashed, crashed, snapshot, undone, unnoticed)
      requires Accounted(setting, before, false, unnoticed)
      ensures Settles(setting, before, after, crashed, request, cmdline, snapshot,
                      Err(Failed(stage, undone)), unnoticed)
    {
    }

    static lemma {:induction false} OperatedIsUnderway(
        before: State, s: State, s': State, snapshot: Snapshot, request: Request)
      requires Entered(before, s, request) && s.journal == Holds(snapshot)
      requires OnlyAdded(s, s') && SameTransaction(s, s')
      ensures Underway(before, s', snapshot)
    {
    }

    /** The state in which the journal has been removed for the request. */
    static ghost function Committed(s: State): State {
      s.(journal := Absent,
         past := s.past.(log := s.past.log + [s.past.origin.request],
                         forgotten := if s.past.unseen then s.past.forgotten + 1 else s.past.forgotten))
    }

    /** After the forward half, removing the journal commits the request. */
    static lemma {:induction false} OperatedMayCommit(
        faithful: bool, before: State, s: State, s': State, request: Request, cmdline: seq<string>, id: RevisionId,
        started: bool, unnoticed: Unnoticed)
      requires Invariant(before) && Entered(before, s, request)
      requires OnlyAdded(s, s') && SameTransaction(s, s')
      requires Operated(faithful, s, s', request, cmdline, id, started, unnoticed)
      ensures Commit(faithful, s', Committed(s'))
      ensures AllNew(faithful, before, Committed(s'), request, unnoticed.forgot)
    {
      CommitAdvances(faithful, before, s', Committed(s'));
    }

    /** What a transaction answers when it succeeds. */
    static ghost predicate Answered(
        faithful: bool, before: State, after: State, request: Request, cmdline: seq<string>, id: RevisionId,
        started: bool, unnoticed: Unnoticed) {
      && after.journal.Absent?
      && AllNew(faithful, before, after, request, unnoticed.forgot)
      && after.current == Some(id)
      && id !in before.revisions
      && after.active == started
      && started == (request.profile.minerStartMode.OnBoot? && (unnoticed.unread || !BlocksMining(cmdline)))
    }

    /** Every unnoticed failure has its cause, and a sure one happens. */
    static ghost predicate Accounted(setting: Setting, before: State, success: bool, unnoticed: Unnoticed) {
      && Recalled(setting, success, before.current, unnoticed.forgot)
      && (setting.Sure(CmdlineRead) ==> !unnoticed.unread)
      && (success && CmdlineRead in setting.failing ==> unnoticed.unread)
      && (setting.Sure(NameRemoval) ==> !unnoticed.missed)
    }

    /** What has become of a transaction that began in `before`. Success is all-new. Failure
        without a journal is all-old, and a crash without a journal is one of the two. A
        reported undo is all-old even if the journal could not be removed afterwards. An
        incomplete undo always keeps the journal, and nothing is decided while there is one. */
    static ghost predicate Outcome(
        faithful: bool, before: State, after: State, crashed: bool, request: Request, cmdline: seq<string>,
        result: Result<(RevisionId, bool), TransactError>, unnoticed: Unnoticed)
    {
      && (result.Ok? ==>
            !crashed && Answered(faithful, before, after, request, cmdline, result.value.0, result.value.1, unnoticed))
      && (result.Err? && !crashed && after.journal.Absent? ==> AllOld(faithful, before, after, unnoticed))
      && (crashed && after.journal.Absent? ==>
            || AllNew(faithful, before, after, request, unnoticed.forgot)
            || AllOld(faithful, before, after, unnoticed.(bootKnown := false)))
      && (result.Err? && result.error.Failed? && result.error.undone && !crashed ==>
            AllOld(faithful, before, after, unnoticed))
      && (result.Err? && result.error.Failed? && !result.error.undone ==> after.journal.Holds?)
      && (after.journal.Holds? ==>
            && result.Err?
            && Describes(after.journal.snapshot, before)
            && after.past.log == before.past.log
            && after.past.doubtful == before.past.doubtful
            && after.past.forgotten == before.past.forgotten
            && after.past.origin == OriginOf(before, request)
            && OnlyGrew(before.revisions, after.revisions)
            && (after.past.strays == before.past.strays ==> Kept(before.revisions, after.revisions))
            && unnoticed.blind == (after.journal.snapshot.previous != before.current))
    }

    /** The removal of the journal commits, or is tried in vain. */
    static lemma {:induction false} CommitOutcome(
        faithful: bool, before: State, s: State, s': State, crashed: bool, ok: bool, request: Request,
        cmdline: seq<string>, id: RevisionId, started: bool, unnoticed: Unnoticed)
      requires s.journal.Holds? && Underway(before, s, s.journal.snapshot) && s.past.origin.request == request
      requires s.current == Some(id) && id !in before.revisions && s.active == started
      requires started == (request.profile.minerStartMode.OnBoot? && (unnoticed.unread || !BlocksMining(cmdline)))
      requires AllNew(faithful, before, Committed(s), request, unnoticed.forgot)
      requires unnoticed.blind == (s.journal.snapshot.previous != before.current)
      requires s' == s || s' == Committed(s)
      requires ok ==> !crashed && s' == Committed(s)
      requires !ok && !crashed ==> s' == s
      ensures Outcome(faithful, before, s', crashed, request, cmdline,
                      if ok then Ok((id, started)) else Err(JournalNotRemoved), unnoticed)
    {
    }

    /** What a transaction whose journal holds `snapshot` comes to. */
    static ghost predicate Settles(
        setting: Setting, before: State, after: State, crashed: bool, request: Request, cmdline: seq<string>,
        snapshot: Snapshot, result: Result<(RevisionId, bool), TransactError>, unnoticed: Unnoticed)
    {
      && Outcome(setting.faithful, before, after, crashed, request, cmdline, result, unnoticed)
      && !after.journal.Torn? && after.bootId == before.bootId
      && (Confined(request.flightSheet.name) ==> after.past.strays == before.past.strays)
      && !unnoticed.overlooked
      && Accounted(setting, before, result.Ok?, unnoticed)
      && unnoticed.blind == (snapshot.previous != before.current)
      && (setting.reliable ==>
            && after.journal.Absent?
            && !crashed
            && (result.Err? ==> result.error.Failed? && result.error.undone))
    }

    /** A successful forward half may be concluded by removing the journal. */
    static lemma {:induction false} MayConclude(
        setting: Setting, trace: seq<State>, before: State, began: State, operated: State, request: Request,
        cmdline: seq<string>, done: (RevisionId, bool), unnoticed: Unnoticed)
      requires Run(setting.faithful, trace) && trace[|trace| - 1] == operated
      requires Invariant(before) && Entered(before, began, request) && SameTransaction(began, operated)
      requires Forward(setting, began, operated, false, request, cmdline, Ok(done), unnoticed)
      ensures Run(setting.faithful, trace + [Committed(operated)])
    {
      OperatedMayCommit(setting.faithful, before, began, operated, request, cmdline, done.0, done.1, unnoticed);
      RunExtends(setting.faithful, trace, Committed(operated));
    }

    static lemma {:induction false} CommittedSettles(
        setting: Setting, before: State, began: State, operated: State, after: State, crashed: bool, request: Request,
        cmdline: seq<string>, snapshot: Snapshot, done: (RevisionId, bool), ok: bool, unnoticed: Unnoticed)
      requires Invariant(before) && Entered(before, began, request) && SameTransaction(began, operated)
      requires began.journal == Holds(snapshot)
      requires Forward(setting, began, operated, false, request, cmdline, Ok(done), unnoticed)
      requires after == operated || after == Committed(operated)
      requires setting.reliable ==> ok
      requires ok ==> !crashed && after == Committed(operated)
      requires !ok && !crashed ==> after == operated
      ensures var result := if ok then Ok(done) else Err(JournalNotRemoved);
              Settles(setting, before, after, crashed, request, cmdline, snapshot,
                      result, unnoticed.(blind := snapshot.previous != before.current))
    {
      var all := unnoticed.(blind := snapshot.previous != before.current);
      OperatedMayCommit(setting.faithful, before, began, operated, request, cmdline, done.0, done.1, unnoticed);
      OperatedIsUnderway(before, began, operated, snapshot, request);
      CommitOutcome(setting.faithful, before, operated, after, crashed, ok, request, cmdline, done.0, done.1, all);
    }

    /** Remove the journal of a successful transaction that began in `before`. */
    method Conclude(
        request: Request, ghost cmdline: seq<string>, ghost snapshot: Snapshot, done: (RevisionId, bool),
        ghost before: State, ghost began: State, ghost earlier: Unnoticed)
      returns (result: Result<(RevisionId, bool), TransactError>, ghost unnoticed: Unnoticed)
      requires Valid() && !crashed && Invariant(before)
      requires Entered(before, began, request) && began.journal == Holds(snapshot) && SameTransaction(began, View())
      requires Forward(setting, began, View(), false, request, cmdline, Ok(done), earlier)
      modifies `journal, `past, `crashed, `trace
      ensures Valid() && old(trace) <= trace
      ensures Settles(setting, before, View(), crashed, request, cmdline, snapshot,
                      result, unnoticed)
      ensures setting.reliable ==> result.Ok?
    {
      ghost var operated := View();
      MayConclude(setting, trace, before, began, operated, request, cmdline, done, earlier);
      var ok := RemoveJournal(Committed(operated));
      CommittedSettles(setting, before, began, operated, View(), crashed, request, cmdline,
                       snapshot, done, ok, earlier);
      result := if ok then Ok(done) else Err(JournalNotRemoved);
      unnoticed := earlier.(blind := snapshot.previous != before.current);
    }

    /** Undo a transaction that failed in `stage`. */
    method GiveUp(
        ghost request: Request, ghost cmdline: seq<string>, snapshot: Snapshot, stage: Stage, ghost before: State,
        ghost began: State, ghost earlier: Unnoticed)
      returns (result: Result<(RevisionId, bool), TransactError>, ghost unnoticed: Unnoticed)
      requires Valid() && Invariant(before)
      requires Entered(before, began, request) && began.journal == Holds(snapshot) && SameTransaction(began, View())
      requires Forward(setting, began, View(), crashed, request, cmdline, Err(stage), earlier)
      modifies `current, `links, `files, `journal, `timezone, `enabled, `active, `past, `crashed, `trace
      ensures Valid() && old(trace) <= trace
      ensures Settles(setting, before, View(), crashed, request, cmdline, snapshot,
                      result, unnoticed)
      ensures result.Err?
    {
      ghost var operated, wasCrashed := View(), crashed;
      OperatedIsUnderway(before, began, operated, snapshot, request);
      var undone;
      undone, unnoticed := Undo(snapshot, before, earlier.forgot, earlier.unread);
      UndoSettles(setting, before, began, operated, View(), wasCrashed, crashed, request, cmdline, snapshot, stage,
                  undone, unnoticed);
      result := Err(Failed(stage, undone));
    }

    /** The journal has been written for `request`; nothing else has happened. */
    static ghost predicate Entered(before: State, s: State, request: Request) {
      && s.journal.Holds? && Describes(s.journal.snapshot, before)
      && s == Opened(before, s.journal, request)
    }

    /** Nothing has been decided. */
    static ghost predicate SameTransaction(s: State, s': State) {
      && s'.journal == s.journal
      && s'.bootId == s.bootId
      && s'.past == s.past.(unseen := s'.past.unseen, strays := s'.past.strays)
    }

    /** Everything `Transact` does once the journal is written, starting from `before`. */
    method Decide(request: Request, cmdline: seq<string>, snapshot: Snapshot, ghost before: State)
      returns (result: Result<(RevisionId, bool), TransactError>, ghost unnoticed: Unnoticed)
      requires Valid() && !crashed
      requires && Invariant(before)
               && before.journal.Absent?
               && journal == Holds(snapshot)
               && Entered(before, View(), request)
      modifies this
      ensures Valid() && old(trace) <= trace
      ensures Settles(setting, before, View(), crashed, request, cmdline, snapshot,
                      result, unnoticed)
      ensures !Resolvable(request) ==> result.Err?
      ensures setting.faithful && Reliable(false, before, request) ==> (result.Ok? <==> Resolvable(request))
    {
      ghost var began := View();
      var outcome;
      outcome, unnoticed := Operate(request, cmdline);
      if outcome.Ok? {
        result, unnoticed := Conclude(request, cmdline, snapshot, outcome.value, before, began, unnoticed);
      } else {
        result, unnoticed := GiveUp(request, cmdline, snapshot, outcome.error, before, began, unnoticed);
      }
    }

    /** One configuration transaction; `unnoticed` is what it did not notice. */
    method Transact(request: Request, cmdline: seq<string>)
      returns (result: Result<(RevisionId, bool), TransactError>, ghost unnoticed: Unnoticed)
      requires Valid() && !crashed
      modifies this
      ensures Valid() && old(trace) <= trace && bootId == old(bootId)
      // an undecided transaction blocks the next one, even if its journal is overlooked
      ensures !old(journal).Absent? ==>
                result.Err? && View() == old(View()) && (!unnoticed.overlooked ==> result == Err(Busy))
      ensures old(journal).Absent? ==>
                Outcome(setting.faithful, old(View()), View(), crashed, request, cmdline, result, unnoticed)
      ensures old(journal).Absent? && journal.Torn? ==>
                result.Err? && View() == Opened(old(View()), Torn, request)
      // only a name that leads out of its directory lets a sheet go astray
      ensures Confined(request.flightSheet.name) ==> past.strays == old(past).strays
      // what goes unnoticed is what could not be seen, read or removed
      ensures Accounted(setting, old(View()), result.Ok?, unnoticed)
      ensures setting.Sure(PendingProbe) ==> !unnoticed.overlooked
      ensures setting.Sure(CurrentProbe) ==> !unnoticed.blind
      ensures result.Err? && result.error.Failed? && CurrentProbe in setting.failing ==>
                unnoticed.blind == old(current).Some?
      // where nothing else fails, the transaction is decided, for the request exactly if it is resolvable
      ensures setting.reliable && old(journal).Absent? ==>
                journal.Absent? && !crashed && (result.Err? ==> result.error.Failed? && result.error.undone)
      ensures !Resolvable(request) || !Fits(request) ==> result.Err?
      ensures setting.faithful && old(journal).Absent? && Reliable(false, old(View()), request) ==>
                (result.Ok? <==> Resolvable(request))
    {
      unnoticed := NOTHING;
      var seen := Passes(PendingProbe);
      if !journal.Absent? && seen {
        return Err(Busy), NOTHING;
      }
      Facts();
      ghost var before := View();
      var written: Option<Snapshot>;
      result, written, unnoticed := Begin(request);
      if written.Some? {
        result, unnoticed := Decide(request, cmdline, written.value, before);
      } else if before.journal.Absent? {
        NotBegun(setting.faithful, before, View(), crashed, request, cmdline, result, unnoticed);
      }
    }

    /** Take a snapshot and write the journal; the result is the error if there is no snapshot in it. */
    method Begin(ghost request: Request)
      returns (result: Result<(RevisionId, bool), TransactError>, written: Option<Snapshot>, ghost unnoticed: Unnoticed)
      requires Valid() && !crashed
      modifies `journal, `past, `crashed, `trace
      ensures Valid() && old(trace) <= trace
      ensures unnoticed == NOTHING.(overlooked := !old(journal).Absent?, blind := unnoticed.blind)
      ensures unnoticed.blind == (journal.Holds? && old(journal).Absent? && journal.snapshot.previous != old(current))
      ensures setting.Sure(CurrentProbe) ==> !unnoticed.blind
      ensures !old(journal).Absent? ==> View() == old(View()) && written.None?
      ensures written.Some? ==> !crashed && journal == Holds(written.value) && Entered(old(View()), View(), request)
      ensures written.Some? && setting.Sure(CurrentProbe) ==> written.value.previous == old(current)
      ensures written.Some? && CurrentProbe in setting.failing ==> written.value.previous.None?
      ensures written.None? ==>
                && (result == Err(SnapshotFailed) || result == Err(JournalFailed))
                && (View() == old(View()) || NeverDecided(old(View()), View(), crashed, request))
      ensures setting.reliable ==> !crashed && (old(journal).Absent? ==> written.Some?)
    {
      unnoticed := NOTHING.(overlooked := !journal.Absent?);
      result, written := Err(SnapshotFailed), None;
      var taken;
      ghost var blind;
      taken, blind := TakeSnapshot();
      if taken.Some? {
        var ok := WriteJournal(taken.value, request);
        result := Err(JournalFailed);
        written := if ok then taken else None;
        unnoticed := unnoticed.(blind := blind && journal.Holds? && !unnoticed.overlooked);
      }
    }

    /** The journal was created in vain: it is torn, or the program was killed having written it. */
    static ghost predicate NeverDecided(before: State, after: State, crashed: bool, request: Request) {
      && after == Opened(before, after.journal, request)
      && (after.journal.Torn? || (crashed && after.journal.Holds? && Describes(after.journal.snapshot, before)))
    }

    static lemma {:induction false} NotBegun(
        faithful: bool, before: State, after: State, crashed: bool, request: Request, cmdline: seq<string>,
        result: Result<(RevisionId, bool), TransactError>, unnoticed: Unnoticed)
      requires after == before || NeverDecided(before, after, crashed, request)
      requires result == Err(SnapshotFailed) || result == Err(JournalFailed)
      requires before.journal.Absent? && unnoticed == NOTHING.(blind := unnoticed.blind)
      requires unnoticed.blind == (after.journal.Holds? && after.journal.snapshot.previous != before.current)
      ensures Outcome(faithful, before, after, crashed, request, cmdline, result, unnoticed)
    {
      UnchangedIsGrown(before.revisions);
    }

    // ----- surroundings -----

    /** The program is started again in the same boot. */
    method Restart()
      requires Valid()
      modifies `crashed
      ensures Valid() && !crashed
    {
      crashed := false;
    }

    /** The machine reboots: the miner stops, and unsynchronised service state may be lost. */
    method Reboot()
      requires Valid()
      modifies `timezone, `enabled, `active, `bootId, `crashed, `trace
      ensures Valid() && old(trace) <= trace
      ensures !crashed && !active && bootId == old(bootId) + 1
    {
      crashed, active, bootId := false, false, bootId + 1;
      timezone := *;
      enabled := *;
      assert Protocol.Reboot(trace[|trace| - 1], View());
      Record();
    }
  }
}
