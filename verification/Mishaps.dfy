/** Runs of the program that do less than it promises, on machines where nothing fails but
    what is named. */
module Mishaps {
  import opened Appliance
  import opened Protocol
  import opened Revisions
  import opened SheetPaths
  import opened Texts
  import opened Wrappers

  /** Nothing fails but these, which always do. */
  predicate FailsOnly(setting: Setting, failing: set<Swallowed>) {
    setting.faithful && setting.reliable && setting.failing == failing
  }

  // ----- names that can be stored -----

  ghost predicate Plain(text: string) {
    forall i :: 0 <= i < |text| ==> '\0' < text[i] < '\U{80}'
  }

  lemma {:induction false} PlainWidth(text: string)
    requires Plain(text)
    ensures Utf8Length(text) == |text| && '\0' !in text
  {
    if text != "" {
      PlainWidth(text[..|text| - 1]);
    }
  }

  lemma {:induction false} JoinedPlain(parts: seq<string>, last: string, separator: char)
    requires |parts| >= 1 && Plain(Joined(parts, separator)) && Plain(last) && '\0' < separator < '\U{80}'
    ensures Plain(Joined(parts + [last], separator))
    ensures |Joined(parts + [last], separator)| == |Joined(parts, separator)| + 1 + |last|
  {
    assert (parts + [last])[..|parts|] == parts;
  }

  /** The sheet name that leads to the identity file of `alias` in the current revision. */
  function IdentityPath(alias: string): string {
    Joined(["..", "..", "..", "current", "identities", alias], '/')
  }

  /** The sheet name that leads to a file in the state directory. */
  function StatePath(base: string): string {
    Joined(["..", "..", "..", base], '/')
  }

  lemma {:induction false} UpIsPlain()
    ensures Plain(Joined(["..", "..", ".."], '/')) && |Joined(["..", "..", ".."], '/')| == 8
  {
    assert Joined([".."], '/') == "..";
    JoinedPlain([".."], "..", '/');
    assert [".."] + [".."] == ["..", ".."];
    JoinedPlain(["..", ".."], "..", '/');
    assert ["..", ".."] + [".."] == ["..", "..", ".."];
  }

  lemma {:induction false} StatePathIsStorable(base: string)
    requires Plain(base) && |base| <= 200
    ensures Storable(StatePath(base))
  {
    var up := ["..", "..", ".."];
    UpIsPlain();
    JoinedPlain(up, base, '/');
    assert up + [base] == ["..", "..", "..", base];
    PlainWidth(StatePath(base));
  }

  lemma {:induction false} IdentityPathIsStorable(alias: string)
    requires Plain(alias) && |alias| <= 200
    ensures Storable(IdentityPath(alias))
  {
    var up := ["..", "..", ".."];
    UpIsPlain();
    JoinedPlain(up, "current", '/');
    JoinedPlain(up + ["current"], "identities", '/');
    JoinedPlain(up + ["current"] + ["identities"], alias, '/');
    assert up + ["current"] + ["identities"] + [alias] == ["..", "..", "..", "current", "identities", alias];
    PlainWidth(IdentityPath(alias));
  }

  lemma {:induction false} SafeAliasIsPlain(alias: string)
    requires SafeJsonBasename(AliasFile(alias))
    ensures Plain(alias) && |alias| <= 200 && '/' !in alias
  {
    forall i | 0 <= i < |alias|
      ensures '\0' < alias[i] < '\U{80}' && alias[i] != '/'
    {
      assert AliasFile(alias)[i] == alias[i];
    }
  }

  // ----- a sheet among the identities -----

  /** Nothing is undecided, no harm was done before, and there is a configuration. */
  ghost predicate AtRest(s: State) {
    s.journal.Absent? && Unharmed(s) && s.current.Some?
  }

  lemma {:induction false} RestingState(faithful: bool, trace: seq<State>, alias: string)
    requires Run(faithful, trace) && AtRest(trace[|trace| - 1])
    ensures var s := trace[|trace| - 1];
            && s.current.value in s.revisions
            && s.links == ALL_LINKS
            && HoldsIdentity(Content(s), alias, Latest(s.past.log, alias))
  {
    RunKeepsInvariant(faithful, trace, |trace| - 1);
    IdentitiesSurviveRuns(faithful, trace, |trace| - 1, alias);
  }

  lemma {:induction false} IdentityPathIsCreatable(s: State, request: Request, alias: string)
    requires request.flightSheet.name == IdentityPath(alias)
    requires s.current.Some? && s.current.value in s.revisions && s.links == ALL_LINKS
    requires HoldsIdentity(Content(s), alias, None) && SafeJsonBasename(AliasFile(alias))
    ensures Creatable(s, request) && Landed(request.flightSheet.name) == At(CurrentIdentities, AliasFile(alias))
  {
    SafeAliasIsPlain(alias);
    IntoCurrentIdentities(alias);
    IdentityPathIsStorable(alias);
  }

  lemma {:induction false} LatestOfLonger(log: seq<Request>, request: Request, alias: string)
    requires request.identity.alias != alias
    ensures Latest(log + [request], alias) == Latest(log, alias)
  {
    assert (log + [request])[..|log|] == log;
  }

  lemma {:induction false} BuiltCarries(prior: Revision, alias: string, request: Request)
    requires SafeJsonBasename(AliasFile(alias)) && alias != request.identity.alias
    requires IdentityFile(AliasFile(alias)) in prior && prior[IdentityFile(AliasFile(alias))].Regular?
    ensures IdentityFile(AliasFile(alias)) in Built(Some(prior), request)
  {
    if AliasFile(alias) == AliasFile(request.identity.alias) {
      AliasFileInjective(alias, request.identity.alias);
    }
    assert PassesCarryFilter(prior, request.identity.alias, IdentityFile(AliasFile(alias)));
    assert IdentityFile(AliasFile(alias)) in Carried(Some(prior), request.identity.alias);
  }

  /** What such a transaction leaves behind. */
  lemma {:induction false} StrayIsCarried(faithful: bool, before: State, after: State, request: Request, alias: string)
    requires before.current.Some? && before.current.value in before.revisions
    requires SafeJsonBasename(AliasFile(alias)) && alias != request.identity.alias
    requires Landed(request.flightSheet.name) == At(CurrentIdentities, AliasFile(alias))
    requires Machine.AllNew(faithful, before, after, request, false)
    ensures before.current.value in after.revisions
    ensures after.revisions[before.current.value] != before.revisions[before.current.value]
    ensures !HoldsIdentity(Content(after), alias, None)
  {
    BuiltCarries(after.revisions[before.current.value], alias, request);
  }

  /** A request whose sheet name leads through `current` into its identities is committed
      where nothing fails. The sheet becomes the identity of an alias that was never
      committed: it changes the revision that was current, and the new one has it too. */
  method StrayIdentity(machine: Machine, request: Request, cmdline: seq<string>, alias: string) returns (id: RevisionId)
    requires machine.Valid() && !machine.crashed && FailsOnly(machine.setting, {})
    requires AtRest(machine.View()) && Latest(machine.past.log, alias).None?
    requires Resolvable(request) && request.flightSheet.name == IdentityPath(alias)
    requires SafeJsonBasename(AliasFile(alias)) && alias != request.identity.alias
    modifies machine
    ensures machine.Valid() && !machine.crashed && machine.journal.Absent?
    ensures && machine.past.log == old(machine.past.log) + [request]
            && machine.current == Some(id)
            && id !in old(machine.revisions)
    ensures Latest(machine.past.log, alias).None? && !HoldsIdentity(Content(machine.View()), alias, None)
    ensures old(machine.current).value in old(machine.revisions) && old(machine.current).value in machine.revisions
    ensures machine.revisions[old(machine.current).value] != old(machine.revisions)[old(machine.current).value]
  {
    ghost var before := machine.View();
    RestingState(machine.setting.faithful, machine.trace, alias);
    IdentityPathIsCreatable(before, request, alias);
    var result, unnoticed := machine.Transact(request, cmdline);
    StrayIsCarried(machine.setting.faithful, before, machine.View(), request, alias);
    LatestOfLonger(before.past.log, request, alias);
    id := result.value.0;
  }

  // ----- a sheet in the place of a public link -----

  lemma {:induction false} StatePathIsCreatable(s: State, request: Request)
    requires Initial(s) && request.flightSheet.name == StatePath("xmrig")
    ensures Creatable(s, request) && Landed(request.flightSheet.name) == At(StateDirectory, "xmrig.json")
  {
    assert "xmrig" + ".json" == "xmrig.json" && '/' !in "xmrig";
    assert "xmrig.json" != "policy.json" by {
      assert "xmrig.json"[0] != "policy.json"[0];
    }
    IntoStateDirectory("xmrig");
    StatePathIsStorable("xmrig");
  }

  lemma {:induction false} TakenNameIsNoLink(faithful: bool, before: State, after: State, request: Request)
    requires Initial(before)
    requires Landed(request.flightSheet.name) == At(StateDirectory, "xmrig.json")
    requires Machine.AllNew(faithful, before, after, request, false)
    ensures after.files == {XmrigLink} && after.links == ALL_LINKS - {XmrigLink}
    ensures Resolve(after, XmrigLink).None? && Content(after).Some? && Resolve(after, PolicyLink) == Content(after)
  {
    assert "xmrig.json"[0] != "policy.json"[0];
    assert TakenBy("xmrig.json") == {XmrigLink};
    OnlyLinksAreTaken(after.links);
  }

  /** The sheet of a first configuration takes a public name before its link is made. After
      the commit the name does not resolve through `current`. */
  method StrayPublicName(machine: Machine, request: Request, cmdline: seq<string>)
    requires machine.Valid() && !machine.crashed && FailsOnly(machine.setting, {})
    requires Initial(machine.View())
    requires Resolvable(request) && request.flightSheet.name == StatePath("xmrig")
    modifies machine
    ensures machine.Valid() && !machine.crashed && machine.journal.Absent? && machine.past.log == [request]
    ensures Content(machine.View()).Some?
    ensures Resolve(machine.View(), PolicyLink) == Content(machine.View()) && Resolve(machine.View(), XmrigLink).None?
  {
    ghost var before := machine.View();
    StatePathIsCreatable(before, request);
    var result, unnoticed := machine.Transact(request, cmdline);
    TakenNameIsNoLink(machine.setting.faithful, before, machine.View(), request);
  }

  // ----- a sheet among the documents of its own revision -----

  /** The sheet name that leads to a file in the revision being staged. */
  function StagingPath(base: string): string {
    Joined(["..", base], '/')
  }

  /** No other file of the revision has this name. */
  predicate UnusedName(request: Request, base: string) {
    && base != "policy"
    && base != "xmrig"
    && (base == "import-provenance" ==> request.provenance.None?)
    && (base == "external-identity-map" ==>
          request.provenance.None? || request.provenance.value.externalReference.None?)
  }

  lemma {:induction false} SameBase(base: string, other: string)
    ensures base + ".json" == other + ".json" <==> base == other
  {
    assert (base + ".json")[..|base|] == base && (other + ".json")[..|other|] == other;
  }

  lemma {:induction false} FitsIfUnused(request: Request, base: string)
    requires Landed(request.flightSheet.name) == At(Staging, base + ".json")
    ensures Fits(request) <==> UnusedName(request, base)
  {
    SameBase(base, "policy");
    SameBase(base, "xmrig");
    SameBase(base, "import-provenance");
    SameBase(base, "external-identity-map");
    assert "policy" + ".json" == "policy.json" && "xmrig" + ".json" == "xmrig.json";
    assert "import-provenance" + ".json" == "import-provenance.json";
    assert "external-identity-map" + ".json" == "external-identity-map.json";
  }

  lemma {:induction false} StagingPathIsStorable(base: string)
    requires Plain(base) && |base| <= 200
    ensures Storable(StagingPath(base))
  {
    assert Joined([".."], '/') == "..";
    JoinedPlain([".."], base, '/');
    assert [".."] + [base] == ["..", base];
    PlainWidth(StagingPath(base));
  }

  lemma {:induction false} SheetIsProvenance(prior: Option<Revision>, request: Request)
    requires Landed(request.flightSheet.name) == At(Staging, "import-provenance.json") && request.provenance.None?
    ensures var built := Built(prior, request);
            NoSheet(built) && ProvenanceFile in built && built[ProvenanceFile] == SheetDocument(request)
  {
    assert "import-provenance.json"[0] != "policy.json"[0] && "import-provenance.json"[0] != "xmrig.json"[0];
    AssembledHasNoSheet(BaseFiles(request), prior, request);
  }

  /** A request whose sheet name leads into the revision being staged never succeeds if
      another file of the revision has that name, and always does where nothing fails if
      none has: the sheet of a request without provenance may be its provenance. */
  method SheetAmongDocuments(machine: Machine, request: Request, cmdline: seq<string>, base: string)
    returns (result: Result<(RevisionId, bool), TransactError>)
    requires machine.Valid() && !machine.crashed && machine.journal.Absent?
    requires '/' !in base && Plain(base) && |base| <= 200 && request.flightSheet.name == StagingPath(base)
    modifies machine
    ensures result.Ok? ==> Resolvable(request) && UnusedName(request, base)
    ensures FailsOnly(machine.setting, {}) && Resolvable(request) && UnusedName(request, base) ==> result.Ok?
    ensures result.Ok? && base == "import-provenance" ==>
              var content := Content(machine.View());
              && content.Some?
              && NoSheet(content.value)
              && ProvenanceFile in content.value
              && content.value[ProvenanceFile] == SheetDocument(request)
  {
    IntoStaging(base);
    FitsIfUnused(request, base);
    StagingPathIsStorable(base);
    ghost var before, unnoticed := machine.View(), NOTHING;
    result, unnoticed := machine.Transact(request, cmdline);
    if result.Ok? && base == "import-provenance" {
      assert "import-provenance" + ".json" == "import-provenance.json";
      ghost var basis := if unnoticed.forgot then None else Lookup(machine.revisions, before.current);
      assert Content(machine.View()) == Some(Built(basis, request));
      SheetIsProvenance(basis, request);
    }
  }

  // ----- a sheet that leads nowhere -----

  /** A resolvable request whose sheet name starts with an unknown directory is refused
      where nothing fails; everything is undone. */
  method StrayNowhere(machine: Machine, request: Request, cmdline: seq<string>, directory: string, base: string)
    returns (result: Result<(RevisionId, bool), TransactError>)
    requires machine.Valid() && !machine.crashed && FailsOnly(machine.setting, {})
    requires machine.journal.Absent?
    requires '/' !in directory && '/' !in base && directory != "" && directory != "." && directory != ".."
    requires Resolvable(request) && request.flightSheet.name == Joined([directory, base], '/')
    modifies machine
    ensures machine.Valid() && !machine.crashed && machine.journal.Absent?
    ensures result.Err? && machine.past.log == old(machine.past.log) && machine.current == old(machine.current)
  {
    MissingDirectory(directory, base);
    ghost var unnoticed;
    result, unnoticed := machine.Transact(request, cmdline);
  }

  // ----- reads that fail unnoticed -----

  /** Where only the pointer cannot be read, a request that is refused loses the
      configuration: the undo takes it to have been missing. */
  method BlindUndo(machine: Machine, request: Request, cmdline: seq<string>)
    requires machine.Valid() && !machine.crashed && FailsOnly(machine.setting, {CurrentProbe})
    requires AtRest(machine.View()) && !Resolvable(request)
    modifies machine
    ensures machine.Valid() && !machine.crashed && machine.journal.Absent? && machine.past.log == old(machine.past.log)
    ensures machine.current.None? && machine.links == {} && machine.past.doubtful == 1
  {
    var result, unnoticed := machine.Transact(request, cmdline);
  }

  lemma {:induction false} NothingCarried(request: Request, alias: string)
    requires alias != request.identity.alias
    ensures HoldsIdentity(Some(Built(None, request)), alias, None)
  {
    if AliasFile(alias) == AliasFile(request.identity.alias) {
      AliasFileInjective(alias, request.identity.alias);
    }
  }

  lemma {:induction false} ConfinedIsCreatable(s: State, request: Request)
    requires Confined(request.flightSheet.name) && Storable(request.flightSheet.name)
    ensures Creatable(s, request)
  {
  }

  lemma {:induction false} HasConfiguration(faithful: bool, trace: seq<State>, alias: string)
    requires Run(faithful, trace)
    requires var s := trace[|trace| - 1];
             s.journal.Absent? && Unharmed(s) && Latest(s.past.log, alias).Some?
    ensures trace[|trace| - 1].current.Some?
  {
    IdentitiesSurviveRuns(faithful, trace, |trace| - 1, alias);
  }

  /** Where only the identities of the last revision cannot be seen, a commit succeeds
      and drops every alias but its own. */
  method ForgottenIdentities(machine: Machine, request: Request, cmdline: seq<string>, alias: string)
    requires machine.Valid() && !machine.crashed && FailsOnly(machine.setting, {IdentitiesProbe})
    requires machine.journal.Absent? && Unharmed(machine.View()) && Latest(machine.past.log, alias).Some?
    requires Resolvable(request) && Confined(request.flightSheet.name) && Storable(request.flightSheet.name)
    requires alias != request.identity.alias
    modifies machine
    ensures && machine.Valid()
            && !machine.crashed
            && machine.journal.Absent?
            && machine.past.log == old(machine.past.log) + [request]
    ensures Latest(machine.past.log, alias).Some? && HoldsIdentity(Content(machine.View()), alias, None)
  {
    HasConfiguration(machine.setting.faithful, machine.trace, alias);
    ConfinedIsCreatable(machine.View(), request);
    ghost var log := machine.past.log;
    var result, unnoticed := machine.Transact(request, cmdline);
    LatestOfLonger(log, request, alias);
    NothingCarried(request, alias);
  }

  /** Where only the journal cannot be seen, recovery reports success and leaves it. */
  method OverlookedJournal(machine: Machine) returns (ok: bool)
    requires machine.Valid() && !machine.crashed && PendingProbe in machine.setting.failing && machine.journal.Holds?
    modifies machine
    ensures ok && machine.journal == old(machine.journal) && machine.View() == old(machine.View())
  {
    ghost var stopped, unnoticed;
    ok, stopped, unnoticed := machine.RecoverPending();
  }

  /** Where only the kernel command line cannot be read, it does not keep the miner stopped. */
  method UnreadCommandLine(machine: Machine, request: Request, cmdline: seq<string>)
    requires machine.Valid() && !machine.crashed && FailsOnly(machine.setting, {CmdlineRead})
    requires machine.journal.Absent? && BlocksMining(cmdline)
    requires Resolvable(request) && Confined(request.flightSheet.name) && Storable(request.flightSheet.name)
    requires request.profile.minerStartMode.OnBoot?
    modifies machine
    ensures && machine.Valid()
            && !machine.crashed
            && machine.journal.Absent?
            && machine.past.log == old(machine.past.log) + [request]
    ensures machine.active
  {
    ConfinedIsCreatable(machine.View(), request);
    var result, unnoticed := machine.Transact(request, cmdline);
  }
}
