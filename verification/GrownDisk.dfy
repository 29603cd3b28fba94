/** The disk after growth: that it is accepted again, and that nothing is left to grow. */
module GrownDisk {
  import opened Growth
  import opened Layout
  import opened LayoutFacts
  import opened Multiples
  import opened Wrappers

  // ----- changes that touch only the state partition -----

  /** As large as every contract of this number demands. */
  predicate MeetsMinimum(m: Manifest, number: nat, sectors: nat) {
    forall i ::
      0 <= i < |m.partitions| && m.partitions[i].number == number ==> m.partitions[i].minimumSizeLba <= sectors
  }

  /** Same partition, with possibly another size, label and mounts; only the state
      partition changes, it stays as large as its contract demands and a state partition. */
  predicate ChildEvolves(m: Manifest, c: Device, d: Device)
    requires m.logicalSectorSize > 0
  {
    && d == c.(size := d.size, fsLabel := d.fsLabel, mountpoints := d.mountpoints)
    && (c.partn == Some(m.finalStatePartition) ==>
          && MeetsMinimum(m, m.finalStatePartition, d.size / m.logicalSectorSize)
          && (StateLabel(c.fsLabel) ==> StateLabel(d.fsLabel)))
    && (c.partn != Some(m.finalStatePartition) ==> d == c)
  }

  predicate Evolves(m: Manifest, before: Device, after: Device)
    requires m.logicalSectorSize > 0
  {
    && after == before.(children := after.children)
    && |after.children| == |before.children|
    && forall j :: 0 <= j < |before.children| ==> ChildEvolves(m, before.children[j], after.children[j])
  }

  predicate EntryEvolves(m: Manifest, number: nat, e: Entry, f: Entry) {
    if number == m.finalStatePartition
    then
      && f.start == e.start && f.bootable == e.bootable
      && ParseType(f.partitionType) == ParseType(e.partitionType)
      && MeetsMinimum(m, number, f.size)
    else f == e
  }

  predicate TableEvolves(m: Manifest, before: Table, after: Table) {
    && after == before.(partitions := after.partitions)
    && |after.partitions| == |before.partitions|
    && forall k :: 0 <= k < |before.partitions| ==> EntryEvolves(m, k + 1, before.partitions[k], after.partitions[k])
  }

  lemma {:induction false} ChildStaysGoverned(m: Manifest, c: Device, d: Device)
    requires m.logicalSectorSize > 0 && ChildEvolves(m, c, d) && ChildGoverned(m, c)
    ensures ChildGoverned(m, d)
  {
    var i :| 0 <= i < |m.partitions| && c.partn == Some(m.partitions[i].number) &&
             ChildMatches(m, m.partitions[i], m.partitions[i].number, c);
    assert ChildMatches(m, m.partitions[i], m.partitions[i].number, d);
  }

  lemma {:induction false} EntryStaysGoverned(m: Manifest, contract: Contract, before: seq<Entry>, after: seq<Entry>)
    requires |after| == |before|
    requires forall k :: 0 <= k < |before| ==> EntryEvolves(m, k + 1, before[k], after[k])
    requires contract in m.partitions && EntryGoverned(m.partitions, contract, before)
    ensures EntryGoverned(m.partitions, contract, after)
  {
    var k := contract.number - 1;
    assert EntryEvolves(m, k + 1, before[k], after[k]);
  }

  lemma {:induction false} PartitionsStillMatch(m: Manifest, before: Device, after: Device, t: Table, u: Table)
    requires m.logicalSectorSize > 0 && Evolves(m, before, after) && TableEvolves(m, t, u)
    requires PartitionsMatch(m, before, t)
    ensures PartitionsMatch(m, after, u)
  {
    forall j | 0 <= j < |after.children|
      ensures ChildGoverned(m, after.children[j])
    {
      ChildStaysGoverned(m, before.children[j], after.children[j]);
    }
    forall i | 0 <= i < |m.partitions|
      ensures EntryGoverned(m.partitions, m.partitions[i], u.partitions)
    {
      EntryStaysGoverned(m, m.partitions[i], t.partitions, u.partitions);
    }
  }

  /** The booted root is not the state partition, so it keeps its label. */
  lemma {:induction false} RootStays(m: Manifest, before: Device, after: Device, t: Table, boot: string)
    requires m.logicalSectorSize > 0 && Evolves(m, before, after) && PartitionsMatch(m, before, t)
    requires RootIsExpected(before.children, boot)
    ensures RootIsExpected(after.children, boot)
  {
    var i :|
      0 <= i < |before.children| && before.children[i].majorMinor == boot && RootLabel(before.children[i].fsLabel);
    assert ChildEvolves(m, before.children[i], after.children[i]);
    if before.children[i].partn == Some(m.finalStatePartition) {
      StateLabelled(m, before.children[i]);
      assert false;
    }
  }

  lemma {:induction false} FinalStays(m: Manifest, before: Device, after: Device, s: nat)
    requires m.logicalSectorSize > 0 && Evolves(m, before, after)
    requires IsFinal(before.children, s, m.finalStatePartition)
    ensures IsFinal(after.children, s, m.finalStatePartition)
  {
    forall j | 0 <= j < |after.children|
      ensures after.children[j].start == before.children[j].start
    {
      assert ChildEvolves(m, before.children[j], after.children[j]);
    }
    assert ChildEvolves(m, before.children[s], after.children[s]);
  }

  lemma {:induction false} RolesStayFilled(
      m: Manifest, before: Device, after: Device, t: Table, boot: string, mount: Option<string>,
      newMount: Option<string>)
    requires m.logicalSectorSize > 0 && Evolves(m, before, after) && PartitionsMatch(m, before, t)
    requires RolesFilled(m, before, boot, mount) && NoForeignMounts(m, after.children, boot, newMount)
    ensures RolesFilled(m, after, boot, newMount)
  {
    RootStays(m, before, after, t, boot);
    var s: nat :| IsFinal(before.children, s, m.finalStatePartition);
    FinalStays(m, before, after, s);
    var e :| 0 <= e < |before.children| && before.children[e].partn == Some(1);
    assert ChildEvolves(m, before.children[e], after.children[e]);
  }

  /** A disk that differs from an accepted one only in a larger, relabelled or
      permissibly mounted state partition is accepted. */
  lemma {:induction false} EvolvedDiskAccepted(
      m: Manifest, before: Device, after: Device, t: Table, u: Table, boot: string, mount: Option<string>,
      newMount: Option<string>)
    requires m.logicalSectorSize > 0 && DiskWellLaidOut(m, before, t, boot, mount)
    requires Evolves(m, before, after) && TableEvolves(m, t, u)
    requires NoForeignMounts(m, after.children, boot, newMount)
    ensures DiskWellLaidOut(m, after, u, boot, newMount)
  {
    PartitionsStillMatch(m, before, after, t, u);
    RolesStayFilled(m, before, after, t, boot, mount, newMount);
    IdentityStays(m, before, after, t, u);
  }

  lemma {:induction false} IdentityStays(m: Manifest, before: Device, after: Device, t: Table, u: Table)
    requires m.logicalSectorSize > 0 && Evolves(m, before, after) && TableEvolves(m, t, u)
    requires CheckIdentity(m, before, t).Ok?
    ensures CheckIdentity(m, after, u).Ok?
  {
  }

  // ----- the steps that change the disk -----

  datatype Change = Change(start: u64, size: u64, partitionType: string)

  /** The table with one row rewritten; its boot flag stays. */
  function Rewritten(t: Table, number: nat, change: Change): Table
    requires 1 <= number <= |t.partitions|
  {
    var e := t.partitions[number - 1];
    t.(partitions := t.partitions[number - 1 := Entry(change.start, change.size, change.partitionType, e.bootable)])
  }

  /** The table after a row of this number has been asked for: a number beyond the last
      row adds one. */
  function Written(t: Table, number: nat, change: Change): Table
    requires 1 <= number
  {
    if number <= |t.partitions| then Rewritten(t, number, change)
    else t.(partitions := t.partitions + [Entry(change.start, change.size, change.partitionType, false)])
  }

  datatype Edit = Resize(bytes: u64) | Relabel | MountAt(path: string) | Unmount

  function Apply(edit: Edit, c: Device): Device {
    match edit
    case Resize(bytes) => c.(size := bytes)
    case Relabel => c.(fsLabel := Some("RIGOS_STATE"))
    case MountAt(path) => c.(mountpoints := c.mountpoints + [Some(path)])
    case Unmount => c.(mountpoints := [])
  }

  function Edited(children: seq<Device>, number: u32, edit: Edit): seq<Device> {
    seq(|children|, i requires 0 <= i < |children| =>
      if children[i].partn == Some(number) then Apply(edit, children[i]) else children[i])
  }

  function EditedDisk(disk: Device, number: u32, edit: Edit): Device {
    disk.(children := Edited(disk.children, number, edit))
  }

  /** The listing after a change to one partition of the booted disk. */
  function EditState(devices: seq<Device>, boot: string, number: u32, edit: Edit): seq<Device> {
    if BootPosition(devices, boot).None? then devices
    else Replaced(devices, boot, EditedDisk(Disk(devices, boot), number, edit))
  }

  lemma {:induction false} EditKeepsBootDisk(devices: seq<Device>, boot: string, number: u32, edit: Edit)
    requires BootPosition(devices, boot).Some?
    ensures BootPosition(EditState(devices, boot, number, edit), boot) == BootPosition(devices, boot)
    ensures Disk(EditState(devices, boot, number, edit), boot) == EditedDisk(Disk(devices, boot), number, edit)
  {
    var disk := Disk(devices, boot);
    var edited := EditedDisk(disk, number, edit);
    var i :| 0 <= i < |disk.children| && disk.children[i].majorMinor == boot;
    assert edited.children[i].majorMinor == boot;
    ReplacedDisk(devices, boot, edited);
  }

  lemma {:induction false} NumberedStays(m: Manifest, before: Device, after: Device, number: u32)
    requires m.logicalSectorSize > 0 && Evolves(m, before, after)
    ensures Numbered(after.children, number) == Numbered(before.children, number)
  {
    forall j | 0 <= j < |before.children|
      ensures after.children[j].partn == before.children[j].partn
    {
      assert ChildEvolves(m, before.children[j], after.children[j]);
    }
  }

  /** What an accepted layout reports. */
  lemma {:induction false} VerifiedIs(
      m: Manifest, disk: Device, table: Table, boot: string, stateMount: Option<string>, v: Verified)
    requires m.logicalSectorSize > 0 && ValidateDisk(m, disk, table, boot, stateMount) == Ok(v)
    ensures Numbered(disk.children, m.finalStatePartition).Some? && Numbered(disk.children, 1).Some?
    ensures v == Describe(m, disk, boot, disk.children[Numbered(disk.children, m.finalStatePartition).value],
                          disk.children[Numbered(disk.children, 1).value])
  {
    RolesUnfold(m, disk, boot, stateMount);
  }

  // ----- the fixpoint -----

  /** The change the growth step asks for. */
  function Growing(v: Verified, size: u64): Change {
    Change(v.stateStartLba, size, TrimHexPrefixes(v.stateTypeGuid))
  }

  /** The type read from the listing says the same once written back. */
  predicate TypeSurvives(v: Verified) {
    ParseType(TrimHexPrefixes(v.stateTypeGuid)) == ParseType(v.stateTypeGuid)
  }

  lemma {:induction false} AcceptedPartitions(
      m: Manifest, disk: Device, table: Table, boot: string, stateMount: Option<string>)
    requires m.logicalSectorSize > 0 && ValidateDisk(m, disk, table, boot, stateMount).Ok?
    ensures PartitionsMatch(m, disk, table) && |table.partitions| == |disk.children| == |m.partitions|
  {
    DiskAcceptedExactly(m, disk, table, boot, stateMount);
    IdentityFixesLengths(m, disk, table);
  }

  lemma {:induction false} IdentityFixesLengths(m: Manifest, disk: Device, table: Table)
    requires CheckIdentity(m, disk, table).Ok?
    ensures |table.partitions| == |disk.children| == |m.partitions|
  {
  }

  /** The listed state partition and its contract. */
  ghost predicate IsState(m: Manifest, child: Device, contract: Contract, v: Verified)
    requires m.logicalSectorSize > 0
  {
    && contract in m.partitions && contract.number == m.finalStatePartition
    && child.partn == Some(contract.number)
    && child.start == Some(v.stateStartLba) && v.stateStartLba == contract.startLba
    && child.size / m.logicalSectorSize == v.stateSizeLba >= contract.minimumSizeLba
    && ParseType(v.stateTypeGuid) == ParseType(contract.typeGuid)
  }

  lemma {:induction false} StateIs(m: Manifest, disk: Device, boot: string, child: Device, efi: Device, v: Verified)
    returns (contract: Contract)
    requires m.logicalSectorSize > 0 && ChildGoverned(m, child) && child.partn == Some(m.finalStatePartition)
    requires v == Describe(m, disk, boot, child, efi)
    ensures IsState(m, child, contract, v)
  {
    var i :| 0 <= i < |m.partitions| && child.partn == Some(m.partitions[i].number) &&
             ChildMatches(m, m.partitions[i], m.partitions[i].number, child);
    contract := m.partitions[i];
  }

  lemma {:induction false} AcceptedState(
      m: Manifest, disk: Device, table: Table, boot: string, stateMount: Option<string>, v: Verified)
    returns (child: Device, contract: Contract)
    requires m.logicalSectorSize > 0 && ValidateDisk(m, disk, table, boot, stateMount) == Ok(v)
    ensures child in disk.children && IsState(m, child, contract, v)
    ensures v.diskSizeBytes == disk.size
  {
    VerifiedIs(m, disk, table, boot, stateMount, v);
    AcceptedPartitions(m, disk, table, boot, stateMount);
    child := disk.children[Numbered(disk.children, m.finalStatePartition).value];
    contract := StateIs(m, disk, boot, child, disk.children[Numbered(disk.children, 1).value], v);
  }

  lemma {:induction false} MinimumIsMet(m: Manifest, contract: Contract, sectors: nat)
    requires WellNumbered(m.partitions) && contract in m.partitions && contract.minimumSizeLba <= sectors
    ensures MeetsMinimum(m, contract.number, sectors)
  {
    var k :| 0 <= k < |m.partitions| && m.partitions[k] == contract;
    forall i | 0 <= i < |m.partitions| && m.partitions[i].number == contract.number
      ensures m.partitions[i] == contract
    {
      NumberFixesPosition(m.partitions, i, k);
    }
  }

  lemma {:induction false} ResizeEvolves(m: Manifest, disk: Device, bytes: u64)
    requires m.logicalSectorSize > 0
    requires MeetsMinimum(m, m.finalStatePartition, bytes / m.logicalSectorSize)
    ensures Evolves(m, disk, EditedDisk(disk, m.finalStatePartition, Resize(bytes)))
  {
  }

  lemma {:induction false} RewriteEvolves(m: Manifest, table: Table, contract: Contract, change: Change)
    requires WellNumbered(m.partitions) && contract in m.partitions && contract.number == m.finalStatePartition
    requires EntryGoverned(m.partitions, contract, table.partitions)
    requires change.start == contract.startLba && change.size >= contract.minimumSizeLba
    requires ParseType(change.partitionType) == ParseType(contract.typeGuid)
    ensures TableEvolves(m, table, Rewritten(table, m.finalStatePartition, change))
  {
    MinimumIsMet(m, contract, change.size);
    var rewritten := Rewritten(table, m.finalStatePartition, change);
    forall k | 0 <= k < |table.partitions|
      ensures EntryEvolves(m, k + 1, table.partitions[k], rewritten.partitions[k])
    {
      if k + 1 == m.finalStatePartition {
        RewrittenRowEvolves(m, contract, table.partitions[k], change);
      }
    }
  }

  lemma {:induction false} RewrittenRowEvolves(m: Manifest, contract: Contract, e: Entry, change: Change)
    requires contract.number == m.finalStatePartition && EntryMatches(contract, contract.number, e)
    requires change.start == contract.startLba && MeetsMinimum(m, contract.number, change.size)
    requires ParseType(change.partitionType) == ParseType(contract.typeGuid)
    ensures EntryEvolves(m, m.finalStatePartition, e,
                         Entry(change.start, change.size, change.partitionType, e.bootable))
  {
  }

  lemma {:induction false} ResizeMountsNothing(
      m: Manifest, disk: Device, number: u32, bytes: u64, boot: string, stateMount: Option<string>)
    requires NoForeignMounts(m, disk.children, boot, stateMount)
    ensures NoForeignMounts(m, EditedDisk(disk, number, Resize(bytes)).children, boot, stateMount)
  {
  }

  /** A grown disk is accepted again, with the intended size. */
  lemma {:induction false} GrownDiskAccepted(
      m: Manifest, disk: Device, table: Table, boot: string, v: Verified, size: u64, bytes: u64)
    requires m.logicalSectorSize > 0 && ValidateDisk(m, disk, table, boot, None) == Ok(v)
    requires size > v.stateSizeLba && bytes == size * m.logicalSectorSize
    requires TypeSurvives(v)
    ensures 1 <= m.finalStatePartition <= |table.partitions|
    ensures ValidateDisk(m, EditedDisk(disk, m.finalStatePartition, Resize(bytes)),
                         Rewritten(table, m.finalStatePartition, Growing(v, size)), boot, None) ==
              Ok(v.(stateSizeLba := size))
  {
    DiskAcceptedExactly(m, disk, table, boot, None);
    var child, contract := AcceptedState(m, disk, table, boot, None, v);
    assert EntryGoverned(m.partitions, contract, table.partitions);
    var grown := EditedDisk(disk, m.finalStatePartition, Resize(bytes));
    var rewritten := Rewritten(table, m.finalStatePartition, Growing(v, size));
    DivideBytes(size, m.logicalSectorSize);
    MinimumIsMet(m, contract, size);
    ResizeEvolves(m, disk, bytes);
    RewriteEvolves(m, table, contract, Growing(v, size));
    ResizeMountsNothing(m, disk, m.finalStatePartition, bytes, boot, None);
    EvolvedDiskAccepted(m, disk, grown, table, rewritten, boot, None, None);
    DiskAcceptedExactly(m, grown, rewritten, boot, None);
    GrownReport(m, disk, table, rewritten, boot, v, size, bytes);
  }

  lemma {:induction false} GrownReport(
      m: Manifest, disk: Device, table: Table, rewritten: Table, boot: string, v: Verified, size: u64, bytes: u64)
    requires m.logicalSectorSize > 0 && ValidateDisk(m, disk, table, boot, None) == Ok(v)
    requires bytes / m.logicalSectorSize == size
    requires var grown := EditedDisk(disk, m.finalStatePartition, Resize(bytes));
             Evolves(m, disk, grown) && ValidateDisk(m, grown, rewritten, boot, None).Ok?
    ensures ValidateDisk(m, EditedDisk(disk, m.finalStatePartition, Resize(bytes)), rewritten, boot, None) ==
              Ok(v.(stateSizeLba := size))
  {
    var grown := EditedDisk(disk, m.finalStatePartition, Resize(bytes));
    VerifiedIs(m, disk, table, boot, None, v);
    VerifiedIs(m, grown, rewritten, boot, None, ValidateDisk(m, grown, rewritten, boot, None).value);
    NumberedStays(m, disk, grown, m.finalStatePartition);
    NumberedStays(m, disk, grown, 1);
  }

  /** Growth reaches a fixpoint: the grown disk is accepted again exactly if the type
      survives being written back, and then it has the intended size, so that the
      next run has nothing left to do. */
  lemma {:induction false} GrowthIsAccepted(
      m: Manifest, devices: seq<Device>, table: Table, boot: string, v: Verified, size: u64, bytes: u64)
    requires m.logicalSectorSize > 0 && m.alignmentLba > 0
    requires Validate(m, devices, table, boot, None) == Ok(v)
    requires IntendedSize(m, v.diskSizeBytes, v.stateStartLba) == Ok(size)
    requires size > v.stateSizeLba && bytes == size * m.logicalSectorSize
    ensures 1 <= m.finalStatePartition <= |table.partitions|
    ensures var again := Validate(m, EditState(devices, boot, m.finalStatePartition, Resize(bytes)),
                                  Rewritten(table, m.finalStatePartition, Growing(v, size)), boot, None);
            && (again.Ok? <==> TypeSurvives(v))
            && (again.Ok? ==>
                  && again.value == v.(stateSizeLba := size)
                  && IntendedSize(m, again.value.diskSizeBytes, again.value.stateStartLba) ==
                       Ok(again.value.stateSizeLba))
  {
    var disk := Disk(devices, boot);
    var child, contract := AcceptedState(m, disk, table, boot, None, v);
    EntryOf(m, disk, table, boot, None, contract);
    EditKeepsBootDisk(devices, boot, m.finalStatePartition, Resize(bytes));
    if TypeSurvives(v) {
      GrownDiskAccepted(m, disk, table, boot, v, size, bytes);
    } else {
      var grown := EditedDisk(disk, m.finalStatePartition, Resize(bytes));
      WrongTypeIsRefused(m, grown, Rewritten(table, m.finalStatePartition, Growing(v, size)), boot, contract);
    }
  }

  /** The table row of a contract, on an accepted disk. */
  lemma {:induction false} EntryOf(
      m: Manifest, disk: Device, table: Table, boot: string, stateMount: Option<string>, contract: Contract)
    requires m.logicalSectorSize > 0 && ValidateDisk(m, disk, table, boot, stateMount).Ok? && contract in m.partitions
    ensures 1 <= contract.number <= |table.partitions|
    ensures EntryMatches(contract, contract.number, table.partitions[contract.number - 1])
  {
    AcceptedPartitions(m, disk, table, boot, stateMount);
    GovernedEntry(m, disk, table, contract);
  }

  lemma {:induction false} GovernedEntry(m: Manifest, disk: Device, table: Table, contract: Contract)
    requires m.logicalSectorSize > 0 && PartitionsMatch(m, disk, table) && contract in m.partitions
    ensures EntryGoverned(m.partitions, contract, table.partitions)
  {
  }

  lemma {:induction false} WrongTypeIsRefused(m: Manifest, disk: Device, table: Table, boot: string, contract: Contract)
    requires m.logicalSectorSize > 0 && contract in m.partitions && 1 <= contract.number <= |table.partitions|
    requires ParseType(table.partitions[contract.number - 1].partitionType) != ParseType(contract.typeGuid)
    ensures ValidateDisk(m, disk, table, boot, None).Err?
  {
    if ValidateDisk(m, disk, table, boot, None).Ok? {
      EntryOf(m, disk, table, boot, None, contract);
      assert false;
    }
  }

  /** If the manifest's state partition is not the one that the growth step rewrites, the
      listing never shows the intended size after it, whether or not the kernel has taken
      the row over; with too few rows the table is refused altogether. */
  lemma {:induction false} OtherPartitionNeverGrows(
      m: Manifest, devices: seq<Device>, table: Table, boot: string, mount: Option<string>, v: Verified,
      number: u32, change: Change, bytes: u64, listed: seq<Device>, w: Verified)
    requires m.logicalSectorSize > 0 && Validate(m, devices, table, boot, mount) == Ok(v)
    requires number >= 1 && number != m.finalStatePartition
    requires number <= |table.partitions| ==>
               listed == devices || listed == EditState(devices, boot, number, Resize(bytes))
    requires Validate(m, listed, Written(table, number, change), boot, None) == Ok(w)
    ensures number <= |table.partitions|
    ensures w.stateSizeLba == v.stateSizeLba
  {
    IdentityFixesLengths(m, Disk(devices, boot), table);
    IdentityFixesLengths(m, Disk(listed, boot), Written(table, number, change));
    var disk := Disk(devices, boot);
    VerifiedIs(m, disk, table, boot, mount, v);
    VerifiedIs(m, Disk(listed, boot), Written(table, number, change), boot, None, w);
    if listed != devices {
      EditKeepsBootDisk(devices, boot, number, Resize(bytes));
      OtherNumberStays(disk.children, number, Resize(bytes), m.finalStatePartition);
    }
  }

  lemma {:induction false} OtherNumberStays(children: seq<Device>, number: u32, edit: Edit, other: u32)
    requires number != other
    ensures Numbered(Edited(children, number, edit), other) == Numbered(children, other)
    ensures var found := Numbered(children, other);
            found.Some? ==> Edited(children, number, edit)[found.value] == children[found.value]
  {
    var edited := Edited(children, number, edit);
    assert forall i :: 0 <= i < |children| ==> edited[i].partn == children[i].partn;
  }

  /** If the row that is overwritten belongs to a partition that starts elsewhere, no
      listing at all is accepted with the new table. */
  lemma {:induction false} OverwrittenRowIsRefused(
      m: Manifest, devices: seq<Device>, table: Table, boot: string, v: Verified, size: u64, fourth: Contract,
      listed: seq<Device>)
    requires m.logicalSectorSize > 0 && Validate(m, devices, table, boot, None) == Ok(v)
    requires fourth in m.partitions && fourth.number == 4 && fourth.startLba != v.stateStartLba
    ensures 4 <= |table.partitions|
    ensures Validate(m, listed, Rewritten(table, 4, Growing(v, size)), boot, None).Err?
  {
    EntryOf(m, Disk(devices, boot), table, boot, None, fourth);
    var rewritten := Rewritten(table, 4, Growing(v, size));
    if BootPosition(listed, boot).Some? && ValidateDisk(m, Disk(listed, boot), rewritten, boot, None).Ok? {
      EntryOf(m, Disk(listed, boot), rewritten, boot, None, fourth);
      assert false;
    }
  }

  // ----- the overlap with other partitions -----

  function SectorsOf(m: Manifest, child: Device): nat
    requires m.logicalSectorSize > 0
  {
    child.size / m.logicalSectorSize
  }

  /** The state partition starts no earlier than any other, so growing it overlaps no
      listed partition that it did not overlap before; the one exception is an empty
      state partition that starts inside another partition. */
  lemma {:induction false} GrowthOverlapsNothingNew(
      m: Manifest, disk: Device, table: Table, boot: string, stateMount: Option<string>, v: Verified, size: u64,
      j: nat)
    requires m.logicalSectorSize > 0 && ValidateDisk(m, disk, table, boot, stateMount) == Ok(v)
    requires size > v.stateSizeLba && j < |disk.children|
    ensures disk.children[j].start.Some?
    ensures var start, sectors := disk.children[j].start.value, SectorsOf(m, disk.children[j]);
            && Overlaps(start, sectors, v.stateStartLba, size)
            && !Overlaps(start, sectors, v.stateStartLba, v.stateSizeLba)
            <==> v.stateSizeLba == 0 && v.stateStartLba < start + sectors
  {
    var start, sectors := StartsNoLater(m, disk, table, boot, stateMount, v, j);
    OverlapMeans(start, sectors, v.stateStartLba, size);
    OverlapMeans(start, sectors, v.stateStartLba, v.stateSizeLba);
  }

  lemma {:induction false} StartsNoLater(
      m: Manifest, disk: Device, table: Table, boot: string, stateMount: Option<string>, v: Verified, j: nat)
    returns (start: u64, sectors: nat)
    requires m.logicalSectorSize > 0 && ValidateDisk(m, disk, table, boot, stateMount) == Ok(v) && j < |disk.children|
    ensures && disk.children[j].start == Some(start)
            && start <= v.stateStartLba
            && sectors == SectorsOf(m, disk.children[j])
  {
    AcceptedPartitions(m, disk, table, boot, stateMount);
    SameNumberSameStart(m, disk.children[j], disk.children[j]);
    start, sectors := disk.children[j].start.value, SectorsOf(m, disk.children[j]);
    StateStartIsLatest(m, disk, table, boot, stateMount, v);
    MaxStartIsGreatest(disk.children);
  }

  lemma {:induction false} StateStartIsLatest(
      m: Manifest, disk: Device, table: Table, boot: string, stateMount: Option<string>, v: Verified)
    requires m.logicalSectorSize > 0 && ValidateDisk(m, disk, table, boot, stateMount) == Ok(v)
    ensures MaxStart(disk.children).None? || MaxStart(disk.children) == Some(v.stateStartLba)
  {
    RolesUnfold(m, disk, boot, stateMount);
    VerifiedIs(m, disk, table, boot, stateMount, v);
  }

  // ----- labelling and mounting -----

  predicate HarmlessEdit(edit: Edit) {
    edit.Relabel? || edit.MountAt? || edit.Unmount?
  }

  /** Labelling, mounting and unmounting keep every size, so an accepted disk only evolves. */
  lemma {:induction false} HarmlessEvolves(m: Manifest, disk: Device, table: Table, edit: Edit)
    requires m.logicalSectorSize > 0 && PartitionsMatch(m, disk, table) && HarmlessEdit(edit)
    ensures Evolves(m, disk, EditedDisk(disk, m.finalStatePartition, edit))
  {
    forall j | 0 <= j < |disk.children| && disk.children[j].partn == Some(m.finalStatePartition)
      ensures MeetsMinimum(m, m.finalStatePartition, disk.children[j].size / m.logicalSectorSize)
    {
      ListedStateMeetsMinimum(m, disk.children[j]);
    }
  }

  lemma {:induction false} ListedStateMeetsMinimum(m: Manifest, child: Device)
    requires m.logicalSectorSize > 0 && WellNumbered(m.partitions) && ChildGoverned(m, child)
    requires child.partn == Some(m.finalStatePartition)
    ensures MeetsMinimum(m, m.finalStatePartition, child.size / m.logicalSectorSize)
  {
    var i :| 0 <= i < |m.partitions| && child.partn == Some(m.partitions[i].number) &&
             ChildMatches(m, m.partitions[i], m.partitions[i].number, child);
    MinimumIsMet(m, m.partitions[i], child.size / m.logicalSectorSize);
  }

  lemma {:induction false} TableStays(m: Manifest, table: Table)
    requires m.logicalSectorSize > 0 && WellNumbered(m.partitions)
    requires forall i :: 0 <= i < |m.partitions| ==> EntryGoverned(m.partitions, m.partitions[i], table.partitions)
    ensures TableEvolves(m, table, table)
  {
    forall k | 0 <= k < |table.partitions|
      ensures EntryEvolves(m, k + 1, table.partitions[k], table.partitions[k])
    {
      forall i | 0 <= i < |m.partitions| && m.partitions[i].number == k + 1
        ensures m.partitions[i].minimumSizeLba <= table.partitions[k].size
      {
        assert EntryGoverned(m.partitions, m.partitions[i], table.partitions);
      }
    }
  }

  /** An accepted disk stays accepted, with the same report, when its state partition
      is labelled or mounted, if the mounts it then has are allowed. */
  lemma {:induction false} HarmlesslyEditedAccepted(
      m: Manifest, disk: Device, table: Table, boot: string, mount: Option<string>, newMount: Option<string>,
      v: Verified, edit: Edit)
    requires m.logicalSectorSize > 0 && ValidateDisk(m, disk, table, boot, mount) == Ok(v) && HarmlessEdit(edit)
    requires NoForeignMounts(m, EditedDisk(disk, m.finalStatePartition, edit).children, boot, newMount)
    ensures ValidateDisk(m, EditedDisk(disk, m.finalStatePartition, edit), table, boot, newMount) == Ok(v)
  {
    var edited := EditedDisk(disk, m.finalStatePartition, edit);
    DiskAcceptedExactly(m, disk, table, boot, mount);
    HarmlessEvolves(m, disk, table, edit);
    TableStays(m, table);
    EvolvedDiskAccepted(m, disk, edited, table, table, boot, mount, newMount);
    DiskAcceptedExactly(m, edited, table, boot, newMount);
    HarmlessReport(m, disk, table, boot, mount, newMount, v, edit);
  }

  lemma {:induction false} HarmlessReport(
      m: Manifest, disk: Device, table: Table, boot: string, mount: Option<string>, newMount: Option<string>,
      v: Verified, edit: Edit)
    requires m.logicalSectorSize > 0 && ValidateDisk(m, disk, table, boot, mount) == Ok(v) && HarmlessEdit(edit)
    requires var edited := EditedDisk(disk, m.finalStatePartition, edit);
             Evolves(m, disk, edited) && ValidateDisk(m, edited, table, boot, newMount).Ok?
    ensures ValidateDisk(m, EditedDisk(disk, m.finalStatePartition, edit), table, boot, newMount) == Ok(v)
  {
    var edited := EditedDisk(disk, m.finalStatePartition, edit);
    VerifiedIs(m, disk, table, boot, mount, v);
    VerifiedIs(m, edited, table, boot, newMount, ValidateDisk(m, edited, table, boot, newMount).value);
    NumberedStays(m, disk, edited, m.finalStatePartition);
    NumberedStays(m, disk, edited, 1);
  }

  ghost predicate StateIsBooted(m: Manifest, disk: Device, boot: string) {
    forall j ::
      0 <= j < |disk.children| && disk.children[j].partn == Some(m.finalStatePartition) ==>
        disk.children[j].majorMinor == boot
  }

  lemma {:induction false} MountIsForeign(m: Manifest, disk: Device, boot: string, path: string)
    requires path != "" && NoForeignMounts(m, disk.children, boot, None)
    ensures NoForeignMounts(m, EditedDisk(disk, m.finalStatePartition, MountAt(path)).children, boot, Some(path))
    ensures NoForeignMounts(m, EditedDisk(disk, m.finalStatePartition, MountAt(path)).children, boot, None) <==>
            StateIsBooted(m, disk, boot)
  {
    var edited := EditedDisk(disk, m.finalStatePartition, MountAt(path));
    forall j | 0 <= j < |disk.children| && disk.children[j].partn == Some(m.finalStatePartition)
      ensures ForeignMount(m, edited.children[j], boot, None) <==> disk.children[j].majorMinor != boot
      ensures !ForeignMount(m, edited.children[j], boot, Some(path))
    {
      assert edited.children[j].mountpoints[|disk.children[j].mountpoints|] == Some(path);
      assert !ForeignMount(m, disk.children[j], boot, None);
    }
    assert forall j :: 0 <= j < |disk.children| && disk.children[j].partn != Some(m.finalStatePartition) ==>
      edited.children[j] == disk.children[j];
  }

  /** Once the state partition is mounted, only the attestation that names its mount
      point accepts the disk; the initializing run refuses it as foreign-mounted. */
  lemma {:induction false} MountedStateNeedsAttestation(
      m: Manifest, disk: Device, table: Table, boot: string, v: Verified, path: string)
    requires m.logicalSectorSize > 0 && ValidateDisk(m, disk, table, boot, None) == Ok(v) && path != ""
    ensures var mounted := EditedDisk(disk, m.finalStatePartition, MountAt(path));
            && ValidateDisk(m, mounted, table, boot, Some(path)) == Ok(v)
            && ValidateDisk(m, mounted, table, boot, None) ==
               if StateIsBooted(m, disk, boot) then Ok(v) else Err(UnexpectedWritableMount)
  {
    var mounted := EditedDisk(disk, m.finalStatePartition, MountAt(path));
    RolesUnfold(m, disk, boot, None);
    MountIsForeign(m, disk, boot, path);
    HarmlesslyEditedAccepted(m, disk, table, boot, None, Some(path), v, MountAt(path));
    if StateIsBooted(m, disk, boot) {
      HarmlesslyEditedAccepted(m, disk, table, boot, None, None, v, MountAt(path));
    } else {
      OnlyMountsAreWrong(m, mounted, table, boot, Some(path), None);
    }
  }

  lemma {:induction false} OnlyMountsAreWrong(
      m: Manifest, disk: Device, table: Table, boot: string, allowed: Option<string>, mount: Option<string>)
    requires m.logicalSectorSize > 0 && ValidateDisk(m, disk, table, boot, allowed).Ok?
    requires !NoForeignMounts(m, disk.children, boot, mount)
    ensures ValidateDisk(m, disk, table, boot, mount) == Err(UnexpectedWritableMount)
  {
  }

  /** Allowing the state mount allows no less than allowing none. */
  lemma {:induction false} AllowingMountAllowsMore(
      m: Manifest, disk: Device, table: Table, boot: string, mount: Option<string>, path: string, v: Verified)
    requires m.logicalSectorSize > 0 && ValidateDisk(m, disk, table, boot, mount) == Ok(v)
    requires mount == None || mount == Some(path)
    ensures NoForeignMounts(m, disk.children, boot, Some(path))
    ensures ValidateDisk(m, disk, table, boot, Some(path)) == Ok(v)
  {
    RolesUnfold(m, disk, boot, mount);
    forall i | 0 <= i < |disk.children|
      ensures !ForeignMount(m, disk.children[i], boot, Some(path))
    {
      assert !ForeignMount(m, disk.children[i], boot, mount);
    }
  }

  lemma {:induction false} HarmlessMounts(m: Manifest, disk: Device, boot: string, path: string, edit: Edit)
    requires NoForeignMounts(m, disk.children, boot, Some(path)) && (edit == Relabel || edit == MountAt(path))
    ensures NoForeignMounts(m, EditedDisk(disk, m.finalStatePartition, edit).children, boot, Some(path))
  {
    var edited := EditedDisk(disk, m.finalStatePartition, edit);
    forall i | 0 <= i < |disk.children|
      ensures !ForeignMount(m, edited.children[i], boot, Some(path))
    {
      assert !ForeignMount(m, disk.children[i], boot, Some(path));
    }
  }

  /** Labelling the state partition, or mounting it where it belongs, keeps the report. */
  lemma {:induction false} HarmlessStepAccepted(
      m: Manifest, devices: seq<Device>, table: Table, boot: string, path: string, v: Verified, edit: Edit)
    requires m.logicalSectorSize > 0 && Validate(m, devices, table, boot, Some(path)) == Ok(v)
    requires edit == Relabel || edit == MountAt(path)
    ensures Validate(m, EditState(devices, boot, m.finalStatePartition, edit), table, boot, Some(path)) == Ok(v)
  {
    var disk := Disk(devices, boot);
    AllowingMountAllowsMore(m, disk, table, boot, Some(path), path, v);
    HarmlessMounts(m, disk, boot, path, edit);
    HarmlesslyEditedAccepted(m, disk, table, boot, Some(path), Some(path), v, edit);
    EditKeepsBootDisk(devices, boot, m.finalStatePartition, edit);
  }

  // ----- the next boot -----

  lemma {:induction false} UnmountedIsNotForeign(m: Manifest, disk: Device, boot: string, path: string)
    requires NoForeignMounts(m, disk.children, boot, Some(path))
    ensures NoForeignMounts(m, EditedDisk(disk, m.finalStatePartition, Unmount).children, boot, None)
  {
    var unmounted := EditedDisk(disk, m.finalStatePartition, Unmount);
    forall i | 0 <= i < |disk.children|
      ensures !ForeignMount(m, unmounted.children[i], boot, None)
    {
      assert !ForeignMount(m, disk.children[i], boot, Some(path));
    }
  }

  /** A disk that is accepted with its state partition mounted is accepted by the
      initializing run once it is unmounted. */
  lemma {:induction false} UnmountedAccepted(
      m: Manifest, devices: seq<Device>, table: Table, boot: string, path: string, v: Verified)
    requires m.logicalSectorSize > 0 && Validate(m, devices, table, boot, Some(path)) == Ok(v)
    ensures Validate(m, EditState(devices, boot, m.finalStatePartition, Unmount), table, boot, None) == Ok(v)
  {
    var disk := Disk(devices, boot);
    AllowingMountAllowsMore(m, disk, table, boot, Some(path), path, v);
    UnmountedIsNotForeign(m, disk, boot, path);
    HarmlesslyEditedAccepted(m, disk, table, boot, Some(path), None, v, Unmount);
    EditKeepsBootDisk(devices, boot, m.finalStatePartition, Unmount);
  }

  /** Listing the state partition with the same number of sectors changes nothing. */
  lemma {:induction false} RelistedAccepted(
      m: Manifest, devices: seq<Device>, table: Table, boot: string, v: Verified, bytes: u64)
    requires m.logicalSectorSize > 0 && Validate(m, devices, table, boot, None) == Ok(v)
    requires bytes / m.logicalSectorSize == v.stateSizeLba
    ensures Validate(m, EditState(devices, boot, m.finalStatePartition, Resize(bytes)), table, boot, None) == Ok(v)
  {
    var disk := Disk(devices, boot);
    var relisted := EditedDisk(disk, m.finalStatePartition, Resize(bytes));
    DiskAcceptedExactly(m, disk, table, boot, None);
    var child, contract := AcceptedState(m, disk, table, boot, None, v);
    MinimumIsMet(m, contract, v.stateSizeLba);
    ResizeEvolves(m, disk, bytes);
    ResizeMountsNothing(m, disk, m.finalStatePartition, bytes, boot, None);
    TableStays(m, table);
    EvolvedDiskAccepted(m, disk, relisted, table, table, boot, None, None);
    DiskAcceptedExactly(m, relisted, table, boot, None);
    GrownReport(m, disk, table, table, boot, v, v.stateSizeLba, bytes);
    EditKeepsBootDisk(devices, boot, m.finalStatePartition, Resize(bytes));
  }
}
