/** Where the file of a flight sheet is created. The name of the sheet becomes part of
    a path without having been checked, so it can lead out of its directory. */
module SheetPaths {
  import opened Texts
  import opened Wrappers

  /** The directories a path can pass, starting from the `flight-sheets` directory of a
      revision being staged. `Beyond` is every directory that is not described here. */
  datatype Place =
    | Sheets
    | Staging
    | RevisionsDirectory
    | StateDirectory
    | Current
    | CurrentSheets
    | CurrentIdentities
    | Beyond

  /** One component of a path, followed as the kernel does; `None` if there is no such
      directory. While the sheet is written, the staging directory holds two files and
      the empty directory for the sheet. */
  function Enter(place: Place, component: string): Option<Place> {
    if component == "" || component == "." then Some(place)
    else if component == ".." then
      match place
      case Sheets => Some(Staging)
      case Staging => Some(RevisionsDirectory)
      case RevisionsDirectory => Some(StateDirectory)
      case Current => Some(RevisionsDirectory)
      case CurrentSheets => Some(Current)
      case CurrentIdentities => Some(Current)
      case _ => Some(Beyond)
    else
      match place
      case Sheets => None
      case Staging => if component == "flight-sheets" then Some(Sheets) else None
      case StateDirectory =>
        if component == "revisions" then Some(RevisionsDirectory)
        else if component == "current" then Some(Current)
        else if component == "flight-sheets" then Some(CurrentSheets)
        else if component == "identities" then Some(CurrentIdentities)
        else Some(Beyond)
      case Current =>
        if component == "flight-sheets" then Some(CurrentSheets)
        else if component == "identities" then Some(CurrentIdentities)
        else Some(Beyond)
      case _ => Some(Beyond)
  }

  function Walk(place: Place, components: seq<string>): Option<Place> {
    if components == [] then Some(place)
    else
      var before := Walk(place, components[..|components| - 1]);
      if before.None? then None else Enter(before.value, components[|components| - 1])
  }

  /** The directory and the name of the file to create, unless the directory is missing. */
  datatype Landing = Nowhere | At(place: Place, file: string)

  function LandingOf(components: seq<string>): Landing
    requires |components| >= 1
  {
    var n := |components| - 1;
    var place := Walk(Sheets, components[..n]);
    if place.None? then Nowhere else At(place.value, components[n])
  }

  function FileName(name: string): string {
    var components := Split(name + ".json", '/');
    components[|components| - 1]
  }

  /** Where the sheet of this name is written; an absolute name replaces the whole path. */
  function Landed(name: string): Landing {
    if |name| > 0 && name[0] == '/' then At(Beyond, FileName(name)) else LandingOf(Split(name + ".json", '/'))
  }

  /** The sheet is written into the directory that is meant for it. */
  predicate Confined(name: string) {
    Landed(name).At? && Landed(name).place.Sheets?
  }

  /** Inside the current revision. */
  predicate InCurrent(place: Place) {
    place.Current? || place.CurrentSheets? || place.CurrentIdentities?
  }

  /** The path of this name leads through the current revision. */
  predicate CrossesCurrent(name: string) {
    var components := Split(name + ".json", '/');
    exists k :: 0 <= k < |components| && CrossesAt(components, k)
  }

  predicate CrossesAt(components: seq<string>, k: nat)
    requires k <= |components|
  {
    var place := Walk(Sheets, components[..k]);
    place.Some? && InCurrent(place.value)
  }

  function Utf8Width(c: char): nat {
    if c < '\U{80}' then 1 else if c < '\U{800}' then 2 else if c < '\U{10000}' then 3 else 4
  }

  function Utf8Length(s: string): nat {
    if s == "" then 0 else Utf8Length(s[..|s| - 1]) + Utf8Width(s[|s| - 1])
  }

  /** Every file system can hold a file of this name. */
  predicate Storable(name: string) {
    '\0' !in name && Utf8Length(name) <= 250
  }

  lemma {:induction false} WithoutSeparator(s: string, separator: char)
    requires separator !in s
    ensures Split(s, separator) == [s]
  {
    SplitAppend("", separator, s);
    assert "" + s == s && Split("", separator) == [""];
  }

  /** A name without a slash is confined, and names its own file. */
  lemma {:induction false} SlashFreeIsConfined(name: string)
    requires '/' !in name
    ensures Confined(name) && Landed(name) == At(Sheets, name + ".json") && FileName(name) == name + ".json"
  {
    WithoutSeparator(name + ".json", '/');
  }

  /** A confined name lands under its last component. */
  lemma {:induction false} ConfinedFile(name: string)
    requires Confined(name)
    ensures Landed(name) == At(Sheets, FileName(name))
  {
  }

  /** A relative path that is given by its components. */
  lemma {:induction false} PathOfComponents(directories: seq<string>, base: string)
    requires Free(directories, '/') && '/' !in base
    ensures Split(Joined(directories + [base], '/') + ".json", '/') == directories + [base + ".json"]
  {
    var parts := directories + [base];
    JoinedSplits(parts, '/');
    SplitAppend(Joined(parts, '/'), '/', ".json");
    assert parts[..|directories|] == directories;
  }

  /** The landing of a relative path that is given by its components. */
  lemma {:induction false} LandedOfComponents(directories: seq<string>, base: string)
    requires Free(directories, '/') && '/' !in base
    requires |directories| > 0 && directories[0] != ""
    ensures Landed(Joined(directories + [base], '/')) == LandingOf(directories + [base + ".json"])
  {
    PathOfComponents(directories, base);
    StartsWithFirst(directories + [base], '/');
  }

  lemma {:induction false} StartsWithFirst(parts: seq<string>, separator: char)
    requires |parts| >= 1 && parts[0] != ""
    ensures Joined(parts, separator) != "" && Joined(parts, separator)[0] == parts[0][0]
  {
    if |parts| > 1 {
      StartsWithFirst(parts[..|parts| - 1], separator);
    }
  }

  lemma {:induction false} WalkOn(place: Place, components: seq<string>, component: string)
    ensures Walk(place, components + [component]) ==
            if Walk(place, components).None? then None else Enter(Walk(place, components).value, component)
  {
    assert (components + [component])[..|components|] == components;
  }

  /** A directory that a new `flight-sheets` directory does not have. */
  lemma {:induction false} MissingDirectory(directory: string, base: string)
    requires '/' !in directory && '/' !in base && directory != "" && directory != "." && directory != ".."
    ensures Landed(Joined([directory, base], '/')) == Nowhere
  {
    LandedOfComponents([directory], base);
    assert [directory] + [base] == [directory, base];
    assert [directory] + [base + ".json"] == [directory, base + ".json"];
    WalkOn(Sheets, [], directory);
    assert [] + [directory] == [directory];
    assert [directory, base + ".json"][..1] == [directory];
  }

  lemma {:induction false} UpToStateDirectory()
    ensures Walk(Sheets, []) == Some(Sheets)
    ensures Walk(Sheets, [".."]) == Some(Staging)
    ensures Walk(Sheets, ["..", ".."]) == Some(RevisionsDirectory)
    ensures Walk(Sheets, ["..", "..", ".."]) == Some(StateDirectory)
  {
    WalkOn(Sheets, [], "..");
    assert [] + [".."] == [".."];
    WalkOn(Sheets, [".."], "..");
    assert [".."] + [".."] == ["..", ".."];
    WalkOn(Sheets, ["..", ".."], "..");
    assert ["..", ".."] + [".."] == ["..", "..", ".."];
  }

  lemma {:induction false} UpCrossesNothing(file: string, k: nat)
    requires k < 4
    ensures !CrossesAt(["..", "..", "..", file], k)
  {
    var components := ["..", "..", "..", file];
    UpToStateDirectory();
    assert components[..0] == [] && components[..1] == [".."];
    assert components[..2] == ["..", ".."] && components[..3] == ["..", "..", ".."];
  }

  /** A name that leads up into the revision being staged. */
  lemma {:induction false} IntoStaging(base: string)
    requires '/' !in base
    ensures var name := Joined(["..", base], '/');
            Landed(name) == At(Staging, base + ".json") && !CrossesCurrent(name)
  {
    LandedOfComponents([".."], base);
    PathOfComponents([".."], base);
    UpToStateDirectory();
    assert [".."] + [base] == ["..", base] && [".."] + [base + ".json"] == ["..", base + ".json"];
    assert ["..", base + ".json"][..0] == [] && ["..", base + ".json"][..1] == [".."];
  }

  /** A name that leads up into the state directory. */
  lemma {:induction false} IntoStateDirectory(base: string)
    requires '/' !in base
    ensures var name := Joined(["..", "..", "..", base], '/');
            Landed(name) == At(StateDirectory, base + ".json") && !CrossesCurrent(name)
  {
    var up := ["..", "..", ".."];
    LandedOfComponents(up, base);
    PathOfComponents(up, base);
    UpToStateDirectory();
    assert up + [base] == ["..", "..", "..", base];
    assert up + [base + ".json"] == ["..", "..", "..", base + ".json"];
    assert (up + [base + ".json"])[..3] == up;
    forall k | 0 <= k < 4
      ensures !CrossesAt(["..", "..", "..", base + ".json"], k)
    {
      UpCrossesNothing(base + ".json", k);
    }
  }

  /** A name that leads through the link `current` into the identities of an installed revision. */
  lemma {:induction false} IntoCurrentIdentities(base: string)
    requires '/' !in base
    ensures Landed(Joined(["..", "..", "..", "current", "identities", base], '/')) ==
              At(CurrentIdentities, base + ".json")
  {
    var up := ["..", "..", ".."];
    var down := up + ["current"] + ["identities"];
    assert "current" != "" && "current" != "." && "current" != ".." && "current" != "revisions";
    assert "identities" != "" && "identities" != "." && "identities" != ".." && "identities" != "flight-sheets";
    UpToStateDirectory();
    WalkOn(Sheets, up, "current");
    WalkOn(Sheets, up + ["current"], "identities");
    LandedOfComponents(down, base);
    assert down + [base] == ["..", "..", "..", "current", "identities", base];
    assert (down + [base + ".json"])[..5] == down;
  }
}
