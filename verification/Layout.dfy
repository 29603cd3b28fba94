/** Verification of the boot disk against the image manifest, and what acceptance means. */
module Layout {
  import opened Wrappers

  type u32 = x: int | 0 <= x < 0x1_0000_0000
  type u64 = x: int | 0 <= x < 0x1_0000_0000_0000_0000

  const LAYOUT_SCHEMA := "rigos.image-layout/v2"

  // ----- the three descriptions of a disk -----

  /** One partition as the image manifest promises it. */
  datatype Contract = Contract(
    number: u32,
    fsLabel: string,
    typeGuid: string,
    uniqueGuid: string,
    startLba: u64,
    minimumSizeLba: u64)

  datatype Manifest = Manifest(
    schema: string,
    partitionTable: string,
    diskGuid: string,
    logicalSectorSize: u32,
    minimumMediaSizeBytes: u64,
    alignmentLba: u64,
    finalStatePartition: u32,
    partitions: seq<Contract>)

  /** A block device as the kernel lists it. */
  datatype Device = Device(
    majorMinor: string,
    path: string,
    deviceType: string,
    size: u64,
    ro: bool,
    tran: Option<string>,
    partn: Option<u32>,
    parttype: Option<string>,
    partuuid: Option<string>,
    start: Option<u64>,
    pttype: Option<string>,
    ptuuid: Option<string>,
    mountpoints: seq<Option<string>>,
    fsLabel: Option<string>,
    children: seq<Device>)

  /** A row of the partition table on the disk; its position is its number. */
  datatype Entry = Entry(start: u64, size: u64, partitionType: string, bootable: bool)

  datatype Table = Table(scheme: string, id: string, partitions: seq<Entry>)

  datatype LayoutError =
    | AmbiguousBootDevice
    | NotWritableUsb
    | UndersizedMedia
    | PartitionTableMismatch
    | PartitionSetMismatch
    | PartitionMismatch(number: u32)
    | StateNotFinal
    | RootSourceMismatch
    | UnexpectedWritableMount

  datatype Verified = Verified(
    diskPath: string,
    diskMajorMinor: string,
    diskPtuuid: string,
    diskSizeBytes: u64,
    efiPath: string,
    efiMajorMinor: string,
    efiPartuuid: string,
    rootMajorMinor: string,
    statePath: string,
    stateStartLba: u64,
    stateSizeLba: u64,
    stateUniqueGuid: string,
    stateTypeGuid: string)

  // ----- comparing identifiers -----

  function Lower(c: char): char {
    if 'A' <= c <= 'Z' then c - 'A' + 'a' else c
  }

  predicate EqIgnoreCase(a: string, b: string) {
    |a| == |b| && forall i :: 0 <= i < |a| ==> Lower(a[i]) == Lower(b[i])
  }

  predicate EqId(observed: Option<string>, expected: string) {
    observed.Some? && EqIgnoreCase(observed.value, expected)
  }

  function StripHexPrefix(s: string): string {
    if |s| >= 2 && s[0] == '0' && (s[1] == 'x' || s[1] == 'X') then s[2..] else s
  }

  predicate EqDiskId(observed: string, expected: string) {
    EqIgnoreCase(StripHexPrefix(observed), StripHexPrefix(expected))
  }

  function HexDigit(c: char): Option<nat> {
    if '0' <= c <= '9' then Some((c - '0') as nat)
    else if 'a' <= c <= 'f' then Some((c - 'a') as nat + 10)
    else if 'A' <= c <= 'F' then Some((c - 'A') as nat + 10)
    else None
  }

  function HexNumber(s: string): Option<nat> {
    if s == [] then Some(0)
    else
      var high, low := HexNumber(s[..|s| - 1]), HexDigit(s[|s| - 1]);
      if high.None? || low.None? then None else Some(16 * high.value + low.value)
  }

  /** A one-byte hexadecimal number; a leading plus sign is allowed. */
  function ParseByte(s: string): Option<nat> {
    var digits := if |s| >= 2 && s[0] == '+' then s[1..] else s;
    if digits == [] then None
    else
      var n := HexNumber(digits);
      if n.Some? && n.value <= 0xFF then n else None
  }

  function ParseType(s: string): Option<nat> {
    ParseByte(StripHexPrefix(s))
  }

  predicate EqMbrType(observed: Option<string>, expected: string) {
    (if observed.Some? then ParseType(observed.value) else None) == ParseType(expected)
  }

  // ----- searching -----

  /** The first position at or after `from` that satisfies `p`. */
  function First<T>(items: seq<T>, p: T -> bool, from: nat): (position: Option<nat>)
    requires from <= |items|
    ensures position.Some? ==> from <= position.value < |items| && p(items[position.value])
    ensures forall j :: from <= j < (if position.Some? then position.value else |items|) ==> !p(items[j])
    decreases |items| - from
  {
    if from == |items| then None
    else if p(items[from]) then Some(from)
    else First(items, p, from + 1)
  }

  predicate HoldsBoot(device: Device, boot: string) {
    device.deviceType == "disk" && exists i :: 0 <= i < |device.children| && device.children[i].majorMinor == boot
  }

  /** The listed disk that has the booted partition among its children. */
  function BootPosition(devices: seq<Device>, boot: string): Option<nat> {
    First(devices, (d: Device) => HoldsBoot(d, boot), 0)
  }

  function Numbered(children: seq<Device>, number: u32): Option<nat> {
    First(children, (c: Device) => c.partn == Some(number), 0)
  }

  function Latest(a: Option<u64>, b: Option<u64>): Option<u64> {
    if a.None? then b else if b.None? || b.value < a.value then a else b
  }

  function MaxStart(children: seq<Device>): Option<u64> {
    if children == [] then None else Latest(MaxStart(children[..|children| - 1]), children[|children| - 1].start)
  }

  // ----- the validator -----

  /** Contracts by number; a later contract replaces an earlier one of the same number. */
  function Expected(contracts: seq<Contract>): map<u32, Contract> {
    if contracts == [] then map[]
    else
      var last := contracts[|contracts| - 1];
      Expected(contracts[..|contracts| - 1])[last.number := last]
  }

  predicate StateLabel(fsLabel: Option<string>) {
    fsLabel == Some("RIGOS_STATE_SEED") || fsLabel == Some("RIGOS_STATE")
  }

  predicate RootLabel(fsLabel: Option<string>) {
    fsLabel == Some("RIGOS_ROOT_A") || fsLabel == Some("RIGOS_ROOT_B")
  }

  predicate ChildMatches(m: Manifest, contract: Contract, number: u32, child: Device)
    requires m.logicalSectorSize > 0
  {
    && child.deviceType == "part"
    && (if number == m.finalStatePartition then StateLabel(child.fsLabel) else child.fsLabel == Some(contract.fsLabel))
    && EqMbrType(child.parttype, contract.typeGuid)
    && EqId(child.partuuid, contract.uniqueGuid)
    && child.start == Some(contract.startLba)
    && child.size / m.logicalSectorSize >= contract.minimumSizeLba
  }

  function ChildError(m: Manifest, expected: map<u32, Contract>, child: Device): Option<LayoutError>
    requires m.logicalSectorSize > 0
  {
    if child.partn.None? || child.partn.value !in expected then Some(PartitionSetMismatch)
    else if !ChildMatches(m, expected[child.partn.value], child.partn.value, child)
    then Some(PartitionMismatch(child.partn.value))
    else None
  }

  /** What the loop over the listed partitions finds at each of them. */
  function ChildErrors(m: Manifest, expected: map<u32, Contract>, children: seq<Device>): seq<Option<LayoutError>>
    requires m.logicalSectorSize > 0
  {
    seq(|children|, i requires 0 <= i < |children| => ChildError(m, expected, children[i]))
  }

  predicate EntryMatches(contract: Contract, number: int, entry: Entry) {
    && entry.start == contract.startLba
    && entry.size >= contract.minimumSizeLba
    && EqMbrType(Some(entry.partitionType), contract.typeGuid)
    && entry.bootable == (number == 1)
  }

  function EntryError(expected: map<u32, Contract>, number: nat, entry: Entry): Option<LayoutError> {
    if number >= 0x1_0000_0000 || number !in expected then Some(PartitionSetMismatch)
    else if !EntryMatches(expected[number], number, entry) then Some(PartitionMismatch(number))
    else None
  }

  /** What the loop over the table finds at each row. */
  function EntryErrors(expected: map<u32, Contract>, entries: seq<Entry>): seq<Option<LayoutError>> {
    seq(|entries|, i requires 0 <= i < |entries| => EntryError(expected, i + 1, entries[i]))
  }

  /** A loop with early return stops at the first error. */
  function FirstError<E>(found: seq<Option<E>>): (e: Option<E>)
    ensures e.None? <==> forall j :: 0 <= j < |found| ==> found[j].None?
  {
    if found == [] then None else if found[0].Some? then found[0] else FirstError(found[1..])
  }

  /** The error that is reported is that of the first wrong partition or row. */
  lemma {:induction false} FirstErrorIsFirst<E>(found: seq<Option<E>>) returns (j: nat)
    requires FirstError(found).Some?
    ensures j < |found| && found[j] == FirstError(found)
    ensures forall k :: 0 <= k < j ==> found[k].None?
  {
    j := 0;
    if found[0].None? {
      j := FirstErrorIsFirst(found[1..]);
      j := j + 1;
    }
  }

  predicate RootIsExpected(children: seq<Device>, boot: string) {
    exists i :: 0 <= i < |children| && children[i].majorMinor == boot && RootLabel(children[i].fsLabel)
  }

  /** A mount other than that of the booted partition and the allowed one of the state partition. */
  predicate ForeignMount(m: Manifest, child: Device, boot: string, stateMount: Option<string>) {
    && child.majorMinor != boot
    && exists i :: 0 <= i < |child.mountpoints| && child.mountpoints[i].Some? && child.mountpoints[i].value != "" &&
         !(child.partn == Some(m.finalStatePartition) && stateMount == child.mountpoints[i])
  }

  function OrEmpty(s: Option<string>): string {
    if s.Some? then s.value else ""
  }

  function Guard(holds: bool, error: LayoutError): Result<(), LayoutError> {
    if holds then Ok(()) else Err(error)
  }

  function CheckIdentity(m: Manifest, disk: Device, table: Table): Result<(), LayoutError> {
    var _ :- Guard(disk.tran == Some("usb") && !disk.ro, NotWritableUsb);
    var sameTable := disk.pttype == Some("dos") && disk.ptuuid.Some? && EqDiskId(disk.ptuuid.value, m.diskGuid);
    var _ :- Guard(sameTable, PartitionTableMismatch);
    var _ :- Guard(disk.size >= m.minimumMediaSizeBytes, UndersizedMedia);
    Guard(|disk.children| == |m.partitions| && |table.partitions| == |m.partitions|, PartitionSetMismatch)
  }

  function CheckPartitions(m: Manifest, disk: Device, table: Table): Result<(), LayoutError>
    requires m.logicalSectorSize > 0
  {
    var expected := Expected(m.partitions);
    var childError := FirstError(ChildErrors(m, expected, disk.children));
    if childError.Some? then Err(childError.value)
    else
      var entryError := FirstError(EntryErrors(expected, table.partitions));
      if entryError.Some? then Err(entryError.value) else Ok(())
  }

  /** The booted root is there; the positions of the state and the EFI partition. */
  function FindRoles(m: Manifest, disk: Device, boot: string): (r: Result<(nat, nat), LayoutError>)
    ensures r.Ok? ==> r.value.0 < |disk.children| && r.value.1 < |disk.children|
  {
    var _ :- Guard(RootIsExpected(disk.children, boot), RootSourceMismatch);
    var state := Numbered(disk.children, m.finalStatePartition);
    var _ :- Guard(state.Some?, StateNotFinal);
    var efi := Numbered(disk.children, 1);
    var _ :- Guard(efi.Some?, PartitionSetMismatch);
    var found := disk.children[state.value];
    var _ :- Guard(found.start == MaxStart(disk.children) && StateLabel(found.fsLabel), StateNotFinal);
    Ok((state.value, efi.value))
  }

  predicate NoForeignMounts(m: Manifest, children: seq<Device>, boot: string, stateMount: Option<string>) {
    forall i :: 0 <= i < |children| ==> !ForeignMount(m, children[i], boot, stateMount)
  }

  function CheckRoles(
      m: Manifest, disk: Device, boot: string, stateMount: Option<string>): (r: Result<(nat, nat), LayoutError>)
    ensures r.Ok? ==> r.value.0 < |disk.children| && r.value.1 < |disk.children|
  {
    var roles :- FindRoles(m, disk, boot);
    var _ :- Guard(NoForeignMounts(m, disk.children, boot, stateMount), UnexpectedWritableMount);
    Ok(roles)
  }

  function Describe(m: Manifest, disk: Device, boot: string, state: Device, efi: Device): Verified
    requires m.logicalSectorSize > 0
  {
    Verified(
      disk.path, disk.majorMinor, OrEmpty(disk.ptuuid), disk.size,
      efi.path, efi.majorMinor, OrEmpty(efi.partuuid),
      boot,
      state.path, if state.start.Some? then state.start.value else 0, state.size / m.logicalSectorSize,
      OrEmpty(state.partuuid), OrEmpty(state.parttype))
  }

  function ValidateDisk(
      m: Manifest, disk: Device, table: Table, boot: string, stateMount: Option<string>): Result<Verified, LayoutError>
    requires m.logicalSectorSize > 0
  {
    var _ :- CheckIdentity(m, disk, table);
    var _ :- CheckPartitions(m, disk, table);
    var roles :- CheckRoles(m, disk, boot, stateMount);
    Ok(Describe(m, disk, boot, disk.children[roles.0], disk.children[roles.1]))
  }

  function Validate(
      m: Manifest, devices: seq<Device>, table: Table, boot: string, stateMount: Option<string>
    ): Result<Verified, LayoutError>
    requires m.logicalSectorSize > 0
  {
    var _ :- Guard(m.schema == LAYOUT_SCHEMA && m.partitionTable == "mbr", PartitionTableMismatch);
    var _ :- Guard(table.scheme == "dos" && EqDiskId(table.id, m.diskGuid), PartitionTableMismatch);
    var position := BootPosition(devices, boot);
    var _ :- Guard(position.Some?, AmbiguousBootDevice);
    ValidateDisk(m, devices[position.value], table, boot, stateMount)
  }
}
