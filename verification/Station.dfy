/** The state initializer as a program over a disk whose tools may fail or mislead. */
module Station {
  import opened Growth
  import opened GrownDisk
  import opened Layout
  import opened LayoutFacts
  import opened Multiples
  import opened Wrappers

  datatype Outcome = Ready | Grown | LimitedCapacity | Stateless | BlockedLayoutMismatch | BlockedAmbiguousBootDevice

  datatype InitError = LayoutRejected(layout: LayoutError) | Discovery | Failed

  /** The partition number written into the growth commands. */
  const GROWN_PARTITION := 4

  function Reported(r: Result<Outcome, InitError>): Outcome {
    match r
    case Ok(outcome) => outcome
    case Err(LayoutRejected(e)) => if e.AmbiguousBootDevice? then BlockedAmbiguousBootDevice else BlockedLayoutMismatch
    case Err(Discovery) => BlockedAmbiguousBootDevice
    case Err(Failed) => LimitedCapacity
  }

  function AllowedMount(attestationOnly: bool, mountpoint: string): Option<string> {
    if attestationOnly then Some(mountpoint) else None
  }

  datatype Plan = Plan(verified: Verified, size: u64)

  /** The verified layout and the size it should have. */
  function PlanFor(m: Manifest, devices: seq<Device>, table: Table, boot: string, mount: Option<string>): Option<Plan>
    requires m.logicalSectorSize > 0 && m.alignmentLba > 0
  {
    var v := Validate(m, devices, table, boot, mount);
    if v.Err? then None
    else
      var size := IntendedSize(m, v.value.diskSizeBytes, v.value.stateStartLba);
      if size.Err? then None else Some(Plan(v.value, size.value))
  }

  predicate Grows(plan: Option<Plan>) {
    plan.Some? && plan.value.size > plan.value.verified.stateSizeLba
  }

  /** The grown partition as the last check has to find it. */
  predicate GrownTo(
      m: Manifest, devices: seq<Device>, table: Table, boot: string, mount: Option<string>, v: Verified, size: u64)
    requires m.logicalSectorSize > 0
  {
    var w := Validate(m, devices, table, boot, mount);
    && w.Ok?
    && w.value.stateStartLba == v.stateStartLba && w.value.stateSizeLba == size
    && EqIgnoreCase(w.value.stateUniqueGuid, v.stateUniqueGuid)
  }

  /** What a successful run leaves: an accepted disk whose state partition starts where
      it did and has the planned size, or more if it was larger before. */
  predicate Achieved(m: Manifest, devices: seq<Device>, table: Table, boot: string, mountpoint: string, plan: Plan)
    requires m.logicalSectorSize > 0
  {
    var size := if Grows(Some(plan)) then plan.size else plan.verified.stateSizeLba;
    GrownTo(m, devices, table, boot, Some(mountpoint), plan.verified, size)
  }

  /** Labelled, mounted, both or neither. */
  predicate Prepared(m: Manifest, boot: string, mountpoint: string, before: seq<Device>, after: seq<Device>) {
    var labelled := EditState(before, boot, m.finalStatePartition, Relabel);
    || after == before
    || after == labelled
    || after == EditState(before, boot, m.finalStatePartition, MountAt(mountpoint))
    || after == EditState(labelled, boot, m.finalStatePartition, MountAt(mountpoint))
  }

  /** A prepared disk is still accepted, with the same report, once its mount is allowed. */
  lemma {:induction false} PreparedAccepted(
      m: Manifest, boot: string, path: string, before: seq<Device>, after: seq<Device>, table: Table,
      mount: Option<string>, v: Verified)
    requires m.logicalSectorSize > 0 && Validate(m, before, table, boot, mount) == Ok(v)
    requires mount == None || mount == Some(path)
    requires Prepared(m, boot, path, before, after)
    ensures Validate(m, after, table, boot, Some(path)) == Ok(v)
  {
    var labelled := EditState(before, boot, m.finalStatePartition, Relabel);
    AllowingMountAllowsMore(m, Disk(before, boot), table, boot, mount, path, v);
    HarmlessStepAccepted(m, before, table, boot, path, v, Relabel);
    HarmlessStepAccepted(m, before, table, boot, path, v, MountAt(path));
    HarmlessStepAccepted(m, labelled, table, boot, path, v, MountAt(path));
  }

  /** An accepted table has the row of the state partition. */
  lemma {:induction false} AcceptedRows(
      m: Manifest, devices: seq<Device>, table: Table, boot: string, mount: Option<string>)
    requires m.logicalSectorSize > 0 && Validate(m, devices, table, boot, mount).Ok?
    ensures 1 <= m.finalStatePartition <= |table.partitions|
  {
    var v := Validate(m, devices, table, boot, mount).value;
    var child, contract := AcceptedState(m, Disk(devices, boot), table, boot, mount, v);
    EntryOf(m, Disk(devices, boot), table, boot, mount, contract);
  }

  // ----- what a faithful run may change -----

  /** The same booted disk, with the same capacity. */
  predicate SameBootDisk(boot: string, before: seq<Device>, after: seq<Device>) {
    && BootPosition(after, boot) == BootPosition(before, boot)
    && (BootPosition(before, boot).Some? ==> Disk(after, boot).size == Disk(before, boot).size)
  }

  lemma {:induction false} EditKeepsBootDiskSize(devices: seq<Device>, boot: string, number: u32, edit: Edit)
    ensures SameBootDisk(boot, devices, EditState(devices, boot, number, edit))
  {
    if BootPosition(devices, boot).Some? {
      EditKeepsBootDisk(devices, boot, number, edit);
    }
  }

  /** The booted disk lists the same partitions with the same sizes. */
  predicate SameSizes(boot: string, before: seq<Device>, after: seq<Device>) {
    && SameBootDisk(boot, before, after)
    && (BootPosition(before, boot).Some? ==> SameChildSizes(Disk(before, boot).children, Disk(after, boot).children))
  }

  predicate SameChildSizes(before: seq<Device>, after: seq<Device>) {
    && |after| == |before|
    && forall j :: 0 <= j < |before| ==> after[j].partn == before[j].partn && after[j].size == before[j].size
  }

  lemma {:induction false} HarmlessKeepsSizes(boot: string, devices: seq<Device>, number: u32, edit: Edit)
    requires HarmlessEdit(edit)
    ensures SameSizes(boot, devices, EditState(devices, boot, number, edit))
  {
    if BootPosition(devices, boot).Some? {
      EditKeepsBootDisk(devices, boot, number, edit);
    }
  }

  lemma {:induction false} PreparedKeepsSizes(
      m: Manifest, boot: string, mountpoint: string, before: seq<Device>, after: seq<Device>)
    requires Prepared(m, boot, mountpoint, before, after)
    ensures SameSizes(boot, before, after)
  {
    var labelled := EditState(before, boot, m.finalStatePartition, Relabel);
    HarmlessKeepsSizes(boot, before, m.finalStatePartition, Relabel);
    HarmlessKeepsSizes(boot, before, m.finalStatePartition, MountAt(mountpoint));
    HarmlessKeepsSizes(boot, labelled, m.finalStatePartition, MountAt(mountpoint));
    if after == EditState(labelled, boot, m.finalStatePartition, MountAt(mountpoint)) {
      SameSizesAgain(boot, before, labelled, after);
    }
  }

  lemma {:induction false} SameSizesAgain(boot: string, a: seq<Device>, b: seq<Device>, c: seq<Device>)
    requires SameSizes(boot, a, b) && SameSizes(boot, b, c)
    ensures SameSizes(boot, a, c)
  {
  }

  const MAX_BYTES := 0xFFFF_FFFF_FFFF_FFFF

  /** The size of the partition in row 4, in bytes. */
  function RowBytes(m: Manifest, table: Table): nat
    requires GROWN_PARTITION <= |table.partitions|
  {
    table.partitions[GROWN_PARTITION - 1].size * m.logicalSectorSize
  }

  /** Row 4 is unchanged, or rewritten as planned. */
  predicate TableStep(change: Change, before: Table, changes: nat, after: Table, newChanges: nat) {
    || (after == before && newChanges == changes)
    || (&& GROWN_PARTITION <= |before.partitions|
        && after == Rewritten(before, GROWN_PARTITION, change)
        && newChanges == changes + 1)
  }

  lemma {:induction false} ValidNeedsBootDisk(
      m: Manifest, devices: seq<Device>, table: Table, boot: string, mount: Option<string>)
    requires m.logicalSectorSize > 0
    ensures Validate(m, devices, table, boot, mount).Ok? ==> BootPosition(devices, boot).Some?
  {
  }

  /** The growth step can succeed: the state partition is the fourth, the disk was
      accepted as it is, and its type survives being written back. */
  ghost predicate Growable(m: Manifest, boot: string, devices: seq<Device>, table: Table, v: Verified, size: u64)
    requires m.logicalSectorSize > 0 && m.alignmentLba > 0
  {
    && m.finalStatePartition == GROWN_PARTITION
    && Validate(m, devices, table, boot, None) == Ok(v)
    && IntendedSize(m, v.diskSizeBytes, v.stateStartLba) == Ok(size) && size > v.stateSizeLba
    && TypeSurvives(v)
  }

  lemma {:induction false} GrowableGrows(
      m: Manifest, boot: string, devices: seq<Device>, table: Table, v: Verified, size: u64)
    requires m.logicalSectorSize > 0 && m.alignmentLba > 0 && Growable(m, boot, devices, table, v, size)
    ensures GROWN_PARTITION <= |table.partitions| && size * m.logicalSectorSize <= MAX_BYTES
    ensures var written := Rewritten(table, GROWN_PARTITION, Growing(v, size));
            && RowBytes(m, written) == size * m.logicalSectorSize
            && GrownTo(m, EditState(devices, boot, GROWN_PARTITION, Resize(RowBytes(m, written))), written, boot, None,
                       v, size)
  {
    SizeFitsDisk(m, v.diskSizeBytes, v.stateStartLba, size);
    AcceptedRows(m, devices, table, boot, None);
    RewrittenBytes(m, table, Growing(v, size));
    GrownBytes(m, boot, devices, table, v, size, size * m.logicalSectorSize);
  }

  lemma {:induction false} RewrittenBytes(m: Manifest, table: Table, change: Change)
    requires GROWN_PARTITION <= |table.partitions|
    ensures RowBytes(m, Rewritten(table, GROWN_PARTITION, change)) == change.size * m.logicalSectorSize
  {
  }

  lemma {:induction false} GrownBytes(
      m: Manifest, boot: string, devices: seq<Device>, table: Table, v: Verified, size: u64, bytes: u64)
    requires m.logicalSectorSize > 0 && m.alignmentLba > 0 && Growable(m, boot, devices, table, v, size)
    requires bytes == size * m.logicalSectorSize && GROWN_PARTITION <= |table.partitions|
    ensures GrownTo(m, EditState(devices, boot, GROWN_PARTITION, Resize(bytes)),
                    Rewritten(table, GROWN_PARTITION, Growing(v, size)),
                    boot, None, v, size)
  {
    GrowthIsAccepted(m, devices, table, boot, v, size, bytes);
  }

  // ----- what the kernel lists -----

  /** The kernel lists the partition of row 4 with the size the row has. */
  predicate KernelAgrees(m: Manifest, boot: string, devices: seq<Device>, table: Table) {
    && GROWN_PARTITION <= |table.partitions| && RowBytes(m, table) <= MAX_BYTES
    && (BootPosition(devices, boot).Some? ==> ListsRow(m, Disk(devices, boot).children, table))
  }

  predicate ListsRow(m: Manifest, children: seq<Device>, table: Table)
    requires GROWN_PARTITION <= |table.partitions|
  {
    forall j ::
      0 <= j < |children| && children[j].partn == Some(GROWN_PARTITION) ==> children[j].size == RowBytes(m, table)
  }

  lemma {:induction false} RefreshedKernelAgrees(m: Manifest, boot: string, devices: seq<Device>, table: Table)
    requires GROWN_PARTITION <= |table.partitions| && RowBytes(m, table) <= MAX_BYTES
    ensures KernelAgrees(m, boot, EditState(devices, boot, GROWN_PARTITION, Resize(RowBytes(m, table))), table)
  {
    if BootPosition(devices, boot).Some? {
      EditKeepsBootDisk(devices, boot, GROWN_PARTITION, Resize(RowBytes(m, table)));
    }
  }

  /** The listing keeps its sizes, or shows those of the table. */
  predicate Listed(m: Manifest, boot: string, before: seq<Device>, after: seq<Device>, table: Table) {
    SameBootDisk(boot, before, after) && (SameSizes(boot, before, after) || KernelAgrees(m, boot, after, table))
  }

  lemma {:induction false} SameSizesAgree(
      m: Manifest, boot: string, before: seq<Device>, after: seq<Device>, table: Table)
    requires SameSizes(boot, before, after) && KernelAgrees(m, boot, before, table)
    ensures KernelAgrees(m, boot, after, table)
  {
  }

  lemma {:induction false} ListedThenPrepared(
      m: Manifest, boot: string, mountpoint: string, before: seq<Device>, between: seq<Device>, after: seq<Device>,
      table: Table)
    requires Listed(m, boot, before, between, table) && Prepared(m, boot, mountpoint, between, after)
    ensures Listed(m, boot, before, after, table)
    ensures KernelAgrees(m, boot, between, table) ==> KernelAgrees(m, boot, after, table)
  {
    PreparedKeepsSizes(m, boot, mountpoint, between, after);
    if KernelAgrees(m, boot, between, table) {
      SameSizesAgree(m, boot, between, after, table);
    } else {
      SameSizesAgain(boot, before, between, after);
    }
  }

  /** A size in bytes. */
  function BytesOf(m: Manifest, sectors: u64): u64
    requires sectors * m.logicalSectorSize <= MAX_BYTES
  {
    sectors * m.logicalSectorSize
  }

  /** What writing row 4 and refreshing the kernel may leave behind; `ok` is what is reported. */
  predicate RowChanged(
      m: Manifest, boot: string, change: Change, before: seq<Device>, t: Table, n: nat, after: seq<Device>,
      u: Table, k: nat, ok: bool)
    requires change.size * m.logicalSectorSize <= MAX_BYTES
  {
    || (!ok && after == before && u == t && k == n)
    || (&& u == Written(t, GROWN_PARTITION, change) && k == n + 1
        && (GROWN_PARTITION <= |t.partitions| ==>
              || (!ok && after == before)
              || after == EditState(before, boot, GROWN_PARTITION, Resize(BytesOf(m, change.size)))))
  }

  lemma {:induction false} GrowableIsGrown(
      m: Manifest, boot: string, v: Verified, size: u64, before: seq<Device>, t: Table, n: nat, after: seq<Device>,
      u: Table, k: nat)
    requires m.logicalSectorSize > 0 && m.alignmentLba > 0 && size * m.logicalSectorSize <= MAX_BYTES
    requires && Growable(m, boot, before, t, v, size)
             && RowChanged(m, boot, Growing(v, size), before, t, n, after, u, k, true)
    ensures GrownTo(m, after, u, boot, None, v, size)
  {
    GrowableGrows(m, boot, before, t, v, size);
  }

  lemma {:induction false} OtherIsNotGrown(
      m: Manifest, boot: string, mount: Option<string>, v: Verified, change: Change, before: seq<Device>, t: Table,
      n: nat, after: seq<Device>, u: Table, k: nat)
    requires m.logicalSectorSize > 0 && change.size * m.logicalSectorSize <= MAX_BYTES
    requires && Validate(m, before, t, boot, mount) == Ok(v)
             && m.finalStatePartition != GROWN_PARTITION
             && change.size > v.stateSizeLba
    requires RowChanged(m, boot, change, before, t, n, after, u, k, true)
    ensures !GrownTo(m, after, u, boot, None, v, change.size)
  {
    if GrownTo(m, after, u, boot, None, v, change.size) {
      var w := Validate(m, after, u, boot, None).value;
      OtherPartitionNeverGrows(m, before, t, boot, mount, v, GROWN_PARTITION, change, BytesOf(m, change.size), after,
                               w);
      assert false;
    }
  }

  /** After the row has been rewritten, and perhaps taken over by the kernel. */
  lemma {:induction false} GrowthIsListed(
      m: Manifest, boot: string, before: seq<Device>, table: Table, change: Change, after: seq<Device>,
      written: Table)
    requires GROWN_PARTITION <= |table.partitions| && change.size * m.logicalSectorSize <= MAX_BYTES
    requires written == Rewritten(table, GROWN_PARTITION, change)
    requires after == before || after == EditState(before, boot, GROWN_PARTITION, Resize(BytesOf(m, change.size)))
    ensures Listed(m, boot, before, after, written)
    ensures after == EditState(before, boot, GROWN_PARTITION, Resize(BytesOf(m, change.size))) ==>
              KernelAgrees(m, boot, after, written)
  {
    RewrittenBytes(m, table, change);
    EditKeepsBootDiskSize(before, boot, GROWN_PARTITION, Resize(RowBytes(m, written)));
    RefreshedKernelAgrees(m, boot, before, written);
  }

  /** A run that only changed row 4 and then labelled or mounted. */
  lemma {:induction false} ChangedThenPrepared(
      m: Manifest, boot: string, mountpoint: string, plan: Plan, before: seq<Device>, t: Table, n: nat,
      between: seq<Device>, u: Table, k: nat, ok: bool, after: seq<Device>, success: bool)
    requires GROWN_PARTITION <= |t.partitions| && plan.size * m.logicalSectorSize <= MAX_BYTES && Grows(Some(plan))
    requires RowChanged(m, boot, Growing(plan.verified, plan.size), before, t, n, between, u, k, ok)
    requires Prepared(m, boot, mountpoint, between, after)
    requires success ==> ok
    ensures RanFaithfully(m, boot, Some(plan), before, t, n, after, u, k, success)
  {
    if u == t && k == n {
      PreparedKeepsSizes(m, boot, mountpoint, between, after);
    } else {
      GrowthIsListed(m, boot, before, t, Growing(plan.verified, plan.size), between, u);
      ListedThenPrepared(m, boot, mountpoint, before, between, after, u);
    }
  }

  lemma {:induction false} OnlyPrepared(
      m: Manifest, boot: string, mountpoint: string, plan: Option<Plan>, before: seq<Device>, t: Table, n: nat,
      after: seq<Device>, success: bool)
    requires !Grows(plan) && Prepared(m, boot, mountpoint, before, after)
    ensures RanFaithfully(m, boot, plan, before, t, n, after, t, n, success)
  {
    PreparedKeepsSizes(m, boot, mountpoint, before, after);
  }

  /** A plan is made of an accepted disk. */
  lemma {:induction false} PlanIsVerified(
      m: Manifest, devices: seq<Device>, table: Table, boot: string, mount: Option<string>)
    requires m.logicalSectorSize > 0 && m.alignmentLba > 0
    requires PlanFor(m, devices, table, boot, mount).Some?
    ensures BootPosition(devices, boot).Some?
    ensures var plan := PlanFor(m, devices, table, boot, mount).value;
            && ValidateDisk(m, Disk(devices, boot), table, boot, mount) == Ok(plan.verified)
            && IntendedSize(m, plan.verified.diskSizeBytes, plan.verified.stateStartLba) == Ok(plan.size)
  {
  }

  /** An accepted disk starts its state partition where row 4 does, and has it at the listed size. */
  lemma {:induction false} StateFollowsRow(
      m: Manifest, disk: Device, table: Table, listed: Table, boot: string, mount: Option<string>, v: Verified)
    requires m.logicalSectorSize > 0 && m.finalStatePartition == GROWN_PARTITION
    requires GROWN_PARTITION <= |listed.partitions| && ListsRow(m, disk.children, listed)
    requires ValidateDisk(m, disk, table, boot, mount) == Ok(v)
    ensures GROWN_PARTITION <= |table.partitions| && v.diskSizeBytes == disk.size
    ensures v.stateStartLba == table.partitions[GROWN_PARTITION - 1].start
    ensures v.stateSizeLba == listed.partitions[GROWN_PARTITION - 1].size
  {
    var child, contract := AcceptedState(m, disk, table, boot, mount, v);
    EntryOf(m, disk, table, boot, mount, contract);
    DivideBytes(listed.partitions[GROWN_PARTITION - 1].size, m.logicalSectorSize);
  }

  /** A plan starts where row 4 starts, and the size it starts from is the listed one. */
  lemma {:induction false} PlanFollowsRow(
      m: Manifest, devices: seq<Device>, table: Table, listed: Table, boot: string, mount: Option<string>)
    requires m.logicalSectorSize > 0 && m.alignmentLba > 0 && m.finalStatePartition == GROWN_PARTITION
    requires KernelAgrees(m, boot, devices, listed)
    requires PlanFor(m, devices, table, boot, mount).Some?
    ensures GROWN_PARTITION <= |table.partitions| && BootPosition(devices, boot).Some?
    ensures var plan := PlanFor(m, devices, table, boot, mount).value;
            && plan.verified.stateStartLba == table.partitions[GROWN_PARTITION - 1].start
            && plan.verified.stateSizeLba == listed.partitions[GROWN_PARTITION - 1].size
            && plan.verified.diskSizeBytes == Disk(devices, boot).size
            && IntendedSize(m, Disk(devices, boot).size, plan.verified.stateStartLba) == Ok(plan.size)
  {
    PlanIsVerified(m, devices, table, boot, mount);
    StateFollowsRow(m, Disk(devices, boot), table, listed, boot, mount,
                    PlanFor(m, devices, table, boot, mount).value.verified);
  }

  /** The one table that growth may write over `original`: row 4 enlarged, from its
      start to the last aligned sector of the disk. */
  ghost predicate IsGrowthOf(m: Manifest, capacity: u64, original: Table, grown: Table)
    requires m.logicalSectorSize > 0 && m.alignmentLba > 0
    requires GROWN_PARTITION <= |original.partitions|
  {
    exists change :: EnlargesRow(m, capacity, original, change) && grown == Rewritten(original, GROWN_PARTITION, change)
  }

  /** A plan for the table as it is. */
  predicate PlansFor(m: Manifest, capacity: u64, table: Table, plan: Plan)
    requires m.logicalSectorSize > 0 && m.alignmentLba > 0
    requires GROWN_PARTITION <= |table.partitions|
  {
    var row := table.partitions[GROWN_PARTITION - 1];
    && plan.verified.stateStartLba == row.start && plan.verified.stateSizeLba == row.size
    && IntendedSize(m, capacity, row.start) == Ok(plan.size)
  }

  /** A grown table has nothing left to grow. */
  lemma {:induction false} GrownHasNoPlan(m: Manifest, capacity: u64, original: Table, grown: Table, plan: Plan)
    requires m.logicalSectorSize > 0 && m.alignmentLba > 0 && GROWN_PARTITION <= |original.partitions|
    requires IsGrowthOf(m, capacity, original, grown) && PlansFor(m, capacity, grown, plan)
    ensures !Grows(Some(plan))
  {
  }

  lemma {:induction false} FirstGrowth(m: Manifest, capacity: u64, original: Table, plan: Plan)
    requires m.logicalSectorSize > 0 && m.alignmentLba > 0 && GROWN_PARTITION <= |original.partitions|
    requires PlansFor(m, capacity, original, plan) && Grows(Some(plan))
    requires RowBytes(m, original) <= MAX_BYTES
    ensures var grown := Rewritten(original, GROWN_PARTITION, Growing(plan.verified, plan.size));
            IsGrowthOf(m, capacity, original, grown) && RowBytes(m, grown) <= MAX_BYTES
  {
    var change := Growing(plan.verified, plan.size);
    assert EnlargesRow(m, capacity, original, change);
    SizeFitsDisk(m, capacity, change.start, change.size);
  }

  /** Rewriting the row of a grown table is growing the original. */
  lemma {:induction false} GrowthOfGrowth(m: Manifest, capacity: u64, original: Table, table: Table, change: Change)
    requires m.logicalSectorSize > 0 && m.alignmentLba > 0 && GROWN_PARTITION <= |original.partitions|
    requires table == original || IsGrowthOf(m, capacity, original, table)
    ensures |table.partitions| == |original.partitions|
    ensures table.partitions[GROWN_PARTITION - 1].start == original.partitions[GROWN_PARTITION - 1].start
    ensures Rewritten(table, GROWN_PARTITION, change) == Rewritten(original, GROWN_PARTITION, change)
  {
  }

  /** What has been reached after any runs: the table is the original or the one growth of
      it, and the kernel lists the size that the partition had or has. */
  ghost predicate Reached(m: Manifest, boot: string, capacity: u64, original: Table, devices: seq<Device>, table: Table)
    requires m.logicalSectorSize > 0 && m.alignmentLba > 0
  {
    && BootPosition(devices, boot).Some? && Disk(devices, boot).size == capacity
    && GROWN_PARTITION <= |original.partitions| && RowBytes(m, original) <= MAX_BYTES
    && (table == original || IsGrowthOf(m, capacity, original, table))
    && GROWN_PARTITION <= |table.partitions| && RowBytes(m, table) <= MAX_BYTES
    && (KernelAgrees(m, boot, devices, original) || KernelAgrees(m, boot, devices, table))
  }

  /** A plan that has to grow the partition finds the original listed; the other plans
      find the table listed as it is. */
  lemma {:induction false} GrowsOnlyOnce(
      m: Manifest, boot: string, capacity: u64, original: Table, devices: seq<Device>, table: Table,
      mount: Option<string>)
    requires m.logicalSectorSize > 0 && m.alignmentLba > 0 && m.finalStatePartition == GROWN_PARTITION
    requires Reached(m, boot, capacity, original, devices, table)
    requires PlanFor(m, devices, table, boot, mount).Some?
    ensures var plan := PlanFor(m, devices, table, boot, mount);
            if Grows(plan) then
              var grown := Rewritten(table, GROWN_PARTITION, Growing(plan.value.verified, plan.value.size));
              && IsGrowthOf(m, capacity, original, grown) && RowBytes(m, grown) <= MAX_BYTES
              && (KernelAgrees(m, boot, devices, table) ==> table == original)
            else KernelAgrees(m, boot, devices, table)
  {
    var plan := PlanFor(m, devices, table, boot, mount);
    if KernelAgrees(m, boot, devices, table) {
      PlanFollowsRow(m, devices, table, table, boot, mount);
      if table != original {
        GrownHasNoPlan(m, capacity, original, table, plan.value);
      }
    } else {
      PlanFollowsRow(m, devices, table, original, boot, mount);
    }
    GrowthOfGrowth(m, capacity, original, table, Growing(plan.value.verified, plan.value.size));
    if Grows(plan) {
      FirstGrowth(m, capacity, original, plan.value);
    } else if !KernelAgrees(m, boot, devices, table) {
      GrownIsLarger(m, capacity, original, table, plan.value);
      assert false;
    }
  }

  /** While the original is listed, a grown table has something left to do. */
  lemma {:induction false} GrownIsLarger(m: Manifest, capacity: u64, original: Table, table: Table, plan: Plan)
    requires m.logicalSectorSize > 0 && m.alignmentLba > 0 && GROWN_PARTITION <= |original.partitions|
    requires IsGrowthOf(m, capacity, original, table) && PlansFor(m, capacity, original, plan)
    ensures Grows(Some(plan))
  {
  }

  predicate EnlargesRow(m: Manifest, capacity: u64, original: Table, change: Change)
    requires m.logicalSectorSize > 0 && m.alignmentLba > 0
    requires GROWN_PARTITION <= |original.partitions|
  {
    var row := original.partitions[GROWN_PARTITION - 1];
    change.start == row.start && change.size > row.size && IntendedSize(m, capacity, row.start) == Ok(change.size)
  }

  /** The listing after a reboot. */
  function Rebooted(m: Manifest, boot: string, devices: seq<Device>, table: Table): seq<Device>
    requires GROWN_PARTITION <= |table.partitions| && RowBytes(m, table) <= MAX_BYTES
  {
    EditState(EditState(devices, boot, m.finalStatePartition, Unmount), boot, GROWN_PARTITION,
              Resize(RowBytes(m, table)))
  }

  lemma {:induction false} RebootedDisk(m: Manifest, boot: string, devices: seq<Device>, table: Table)
    requires GROWN_PARTITION <= |table.partitions| && RowBytes(m, table) <= MAX_BYTES
    ensures SameBootDisk(boot, devices, Rebooted(m, boot, devices, table))
    ensures KernelAgrees(m, boot, Rebooted(m, boot, devices, table), table)
  {
    var unmounted := EditState(devices, boot, m.finalStatePartition, Unmount);
    EditKeepsBootDiskSize(devices, boot, m.finalStatePartition, Unmount);
    EditKeepsBootDiskSize(unmounted, boot, GROWN_PARTITION, Resize(RowBytes(m, table)));
    RefreshedKernelAgrees(m, boot, unmounted, table);
  }

  // ----- a settled disk -----

  /** The disk is accepted, with its mount allowed, as large as it can be, and listed as it is. */
  predicate Settled(m: Manifest, boot: string, devices: seq<Device>, table: Table, mountpoint: string)
    requires m.logicalSectorSize > 0 && m.alignmentLba > 0
  {
    var plan := PlanFor(m, devices, table, boot, Some(mountpoint));
    plan.Some? && !Grows(plan) && KernelAgrees(m, boot, devices, table)
  }

  /** What a successful run has achieved is a settled disk. */
  lemma {:induction false} AchievedIsSettled(
      m: Manifest, boot: string, before: seq<Device>, t: Table, mount: Option<string>, after: seq<Device>, u: Table,
      mountpoint: string)
    requires m.logicalSectorSize > 0 && m.alignmentLba > 0 && m.finalStatePartition == GROWN_PARTITION
    requires KernelAgrees(m, boot, after, u) && SameBootDisk(boot, before, after)
    requires var plan := PlanFor(m, before, t, boot, mount);
             plan.Some? && Achieved(m, after, u, boot, mountpoint, plan.value)
    ensures Settled(m, boot, after, u, mountpoint)
  {
    var plan := PlanFor(m, before, t, boot, mount).value;
    CapacityIs(m, boot, before, t, mount);
    CapacityIs(m, boot, after, u, Some(mountpoint));
  }

  lemma {:induction false} CapacityIs(
      m: Manifest, boot: string, devices: seq<Device>, table: Table, mount: Option<string>)
    requires m.logicalSectorSize > 0 && Validate(m, devices, table, boot, mount).Ok?
    ensures BootPosition(devices, boot).Some?
    ensures Validate(m, devices, table, boot, mount).value.diskSizeBytes == Disk(devices, boot).size
  {
    var child, contract :=
      AcceptedState(m, Disk(devices, boot), table, boot, mount, Validate(m, devices, table, boot, mount).value);
  }

  /** A settled disk gives no growing plan, whichever mount is allowed. */
  lemma {:induction false} SettledHasNoGrowth(
      m: Manifest, boot: string, devices: seq<Device>, table: Table, mountpoint: string)
    requires m.logicalSectorSize > 0 && m.alignmentLba > 0 && Settled(m, boot, devices, table, mountpoint)
    ensures !Grows(PlanFor(m, devices, table, boot, None))
  {
    var v := Validate(m, devices, table, boot, None);
    if v.Ok? {
      AllowingMountAllowsMore(m, Disk(devices, boot), table, boot, None, mountpoint, v.value);
    }
  }

  lemma {:induction false} SettledStaysPrepared(
      m: Manifest, boot: string, before: seq<Device>, after: seq<Device>, table: Table, mountpoint: string)
    requires m.logicalSectorSize > 0 && m.alignmentLba > 0 && Settled(m, boot, before, table, mountpoint)
    requires Prepared(m, boot, mountpoint, before, after)
    ensures Settled(m, boot, after, table, mountpoint)
  {
    PreparedAccepted(m, boot, mountpoint, before, after, table, Some(mountpoint),
                     Validate(m, before, table, boot, Some(mountpoint)).value);
    PreparedKeepsSizes(m, boot, mountpoint, before, after);
    SameSizesAgree(m, boot, before, after, table);
  }

  /** After a reboot a settled disk is still settled, and the initializing run accepts it too. */
  lemma {:induction false} SettledStaysRebooted(
      m: Manifest, boot: string, devices: seq<Device>, table: Table, mountpoint: string)
    requires m.logicalSectorSize > 0 && m.alignmentLba > 0 && m.finalStatePartition == GROWN_PARTITION
    requires Settled(m, boot, devices, table, mountpoint)
    ensures Settled(m, boot, Rebooted(m, boot, devices, table), table, mountpoint)
    ensures PlanFor(m, Rebooted(m, boot, devices, table), table, boot, None) ==
              PlanFor(m, devices, table, boot, Some(mountpoint))
  {
    var v := Validate(m, devices, table, boot, Some(mountpoint)).value;
    var again := Rebooted(m, boot, devices, table);
    PlanFollowsRow(m, devices, table, table, boot, Some(mountpoint));
    UnmountedAccepted(m, devices, table, boot, mountpoint, v);
    DivideBytes(table.partitions[GROWN_PARTITION - 1].size, m.logicalSectorSize);
    RelistedAccepted(m, EditState(devices, boot, m.finalStatePartition, Unmount), table, boot, v, RowBytes(m, table));
    RebootedDisk(m, boot, devices, table);
    AllowingMountAllowsMore(m, Disk(again, boot), table, boot, None, mountpoint, v);
  }

  // ----- many runs -----

  /** One run, as an observer of the station sees it: `run` counts the runs since the boot. */
  datatype Report = Report(bootNumber: nat, run: nat, attestationOnly: bool, dryRun: bool, reliable: bool,
                           outcome: Outcome, table: Table, changes: nat)

  predicate Succeeded(r: Report) {
    !r.dryRun && (r.outcome.Ready? || r.outcome.Grown?)
  }

  /** What a run `a` says of a later one `c`, whose predecessor is `p`; `n` changes were made before all runs. */
  predicate Consequence(n: nat, stateless: bool, a: Report, p: Report, c: Report) {
    && a.bootNumber <= c.bootNumber && a.changes <= c.changes <= p.changes + 1
    && (c.changes == p.changes ==> c.table == p.table)
    // once the table has been written, only runs of the same boot write it again
    && (a.changes != n && a.bootNumber < c.bootNumber ==> c.changes == p.changes)
    // after a success nothing is written, and where nothing fails the disk is found ready,
    // or the run sees that it is not wanted
    && (Succeeded(a) ==>
          && c.table == a.table && c.changes == a.changes
          && (c.reliable && (c.attestationOnly || c.run == 0) ==> c.outcome == if stateless then Stateless else Ready))
  }

  ghost predicate Consistent(n: nat, stateless: bool, reports: seq<Report>) {
    forall i, j :: 0 <= i < j < |reports| ==> Consequence(n, stateless, reports[i], reports[j - 1], reports[j])
  }

  /** How the reports agree with the present table, during boot `b`, before which there were
      `start` changes; `done` is whether some run has succeeded. */
  ghost predicate Recounted(n: nat, reports: seq<Report>, b: nat, start: nat, table: Table, changes: nat, done: bool) {
    && (|reports| > 0 ==> reports[|reports| - 1].table == table && reports[|reports| - 1].changes == changes)
    && forall i :: 0 <= i < |reports| ==>
         && reports[i].bootNumber <= b && n <= reports[i].changes <= changes
         && (reports[i].bootNumber < b && reports[i].changes != n ==> start != n)
         && (Succeeded(reports[i]) ==> done && reports[i].table == table && reports[i].changes == changes)
  }

  lemma {:induction false} ReportAdded(
      n: nat, stateless: bool, reports: seq<Report>, b: nat, start: nat, table: Table, changes: nat, done: bool,
      r: Report)
    requires n <= changes && Consistent(n, stateless, reports) && Recounted(n, reports, b, start, table, changes, done)
    requires r.bootNumber == b && ((r.table == table && r.changes == changes) || r.changes == changes + 1)
    requires start != n ==> r.changes == changes
    requires done ==>
               && r.changes == changes
               && (r.reliable && (r.attestationOnly || r.run == 0) ==>
                     r.outcome == if stateless then Stateless else Ready)
    ensures Consistent(n, stateless, reports + [r])
    ensures Recounted(n, reports + [r], b, start, r.table, r.changes, done || Succeeded(r))
  {
    forall i | 0 <= i < |reports|
      ensures Consequence(n, stateless, reports[i], reports[|reports| - 1], r)
    {
    }
  }

  /** What one run of faithful tools may change. The table is written only by a growing
      plan; a successful one leaves row 4 as planned, and listed. */
  predicate RanFaithfully(
      m: Manifest, boot: string, plan: Option<Plan>, before: seq<Device>, t: Table, n: nat, after: seq<Device>,
      u: Table, k: nat, success: bool) {
    && Listed(m, boot, before, after, u)
    && ((u == t && k == n) || (Grows(plan) && TableStep(Growing(plan.value.verified, plan.value.size), t, n, u, k)))
    && (success && Grows(plan) ==>
          && GROWN_PARTITION <= |t.partitions|
          && u == Rewritten(t, GROWN_PARTITION, Growing(plan.value.verified, plan.value.size)) && k == n + 1
          && KernelAgrees(m, boot, after, u))
  }

  /** What the program promises of one run of faithful tools. */
  predicate Ran(
      m: Manifest, boot: string, plan: Option<Plan>, before: seq<Device>, t: Table, n: nat, after: seq<Device>,
      u: Table, k: nat, mountpoint: string, success: bool)
    requires m.logicalSectorSize > 0
  {
    && RanFaithfully(m, boot, plan, before, t, n, after, u, k, success)
    && (!Grows(plan) ==> u == t && k == n && Prepared(m, boot, mountpoint, before, after))
    && (success ==> plan.Some? && Achieved(m, after, u, boot, mountpoint, plan.value))
  }

  /** The next state after a run of faithful tools. */
  lemma {:induction false} RunReaches(
      m: Manifest, boot: string, capacity: u64, original: Table, before: seq<Device>, t: Table, n: nat,
      mount: Option<string>, after: seq<Device>, u: Table, k: nat, mountpoint: string, success: bool)
    requires m.logicalSectorSize > 0 && m.alignmentLba > 0 && m.finalStatePartition == GROWN_PARTITION
    requires Reached(m, boot, capacity, original, before, t)
    requires Ran(m, boot, PlanFor(m, before, t, boot, mount), before, t, n, after, u, k, mountpoint, success)
    ensures Reached(m, boot, capacity, original, after, u)
    ensures (u == t && k == n) || (IsGrowthOf(m, capacity, original, u) && k == n + 1)
    ensures KernelAgrees(m, boot, before, t) && t != original ==> u == t && k == n && KernelAgrees(m, boot, after, u)
    ensures success ==> Settled(m, boot, after, u, mountpoint)
    ensures Settled(m, boot, before, t, mountpoint) && !Grows(PlanFor(m, before, t, boot, mount)) ==>
              Settled(m, boot, after, u, mountpoint)
  {
    var plan := PlanFor(m, before, t, boot, mount);
    if plan.Some? {
      GrowsOnlyOnce(m, boot, capacity, original, before, t, mount);
      GrowthOfGrowth(m, capacity, original, t, Growing(plan.value.verified, plan.value.size));
    }
    ListedIsReached(m, boot, capacity, original, before, t, after, u);
    if !Grows(plan) {
      PreparedKeepsSizes(m, boot, mountpoint, before, after);
      if KernelAgrees(m, boot, before, t) {
        SameSizesAgree(m, boot, before, after, t);
      }
    }
    if success {
      AchievedIsSettled(m, boot, before, t, mount, after, u, mountpoint);
    }
    if Settled(m, boot, before, t, mountpoint) && !Grows(plan) {
      SettledStaysPrepared(m, boot, before, after, t, mountpoint);
    }
  }

  lemma {:induction false} ListedIsReached(
      m: Manifest, boot: string, capacity: u64, original: Table, before: seq<Device>, t: Table, after: seq<Device>,
      u: Table)
    requires m.logicalSectorSize > 0 && m.alignmentLba > 0
    requires Reached(m, boot, capacity, original, before, t) && Listed(m, boot, before, after, u)
    requires || u == t
             || (&& IsGrowthOf(m, capacity, original, u)
                 && GROWN_PARTITION <= |u.partitions|
                 && RowBytes(m, u) <= MAX_BYTES)
    requires u != t && KernelAgrees(m, boot, before, t) ==> t == original
    ensures Reached(m, boot, capacity, original, after, u)
  {
    if SameSizes(boot, before, after) {
      if KernelAgrees(m, boot, before, original) {
        SameSizesAgree(m, boot, before, after, original);
      } else {
        SameSizesAgree(m, boot, before, after, t);
      }
    }
  }

  class Station {
    const m: Manifest
    const boot: string
    const stateless: bool
    /** Whether the device manager reports the disk on the USB bus. */
    const onUsb: bool
    /** Whether the partitioning tools do what they report. */
    const faithful: bool
    /** Whether no command and no file operation fails in the present run. */
    var reliable: bool

    var devices: seq<Device>
    var table: Table
    /** How often the partition table was changed. */
    var changes: nat
    var attested: Option<Verified>
    var record: Option<Record>

    constructor (
        m: Manifest, boot: string, stateless: bool, onUsb: bool, faithful: bool, reliable: bool,
        devices: seq<Device>, table: Table)
      ensures this.m == m && this.boot == boot && this.stateless == stateless && this.onUsb == onUsb
      ensures this.faithful == faithful && this.reliable == reliable
      ensures this.devices == devices && this.table == table && changes == 0 && attested == None && record == None
    {
      this.m, this.boot, this.stateless, this.onUsb, this.faithful, this.reliable :=
        m, boot, stateless, onUsb, faithful, reliable;
      this.devices, this.table, changes, attested, record := devices, table, 0, None, None;
    }

    /** Every command and every file operation may fail. */
    method Attempt() returns (ok: bool)
      ensures reliable ==> ok
    {
      ok := *;
      ok := ok || reliable;
    }

    /** Rewrite row 4 of the partition table, or add it. */
    method RewriteRow(change: Change) returns (ok: bool)
      modifies this`table, this`devices, this`changes
      ensures faithful ==>
                && devices == old(devices)
                && (|| (table == old(table) && changes == old(changes) && !ok)
                    || (table == Written(old(table), GROWN_PARTITION, change) && changes == old(changes) + 1))
      ensures old(changes) <= changes <= old(changes) + 1
      ensures reliable ==> ok
    {
      ok := Attempt();
      if faithful {
        var written: bool := *;
        if ok || written {
          table := Written(table, GROWN_PARTITION, change);
          changes := changes + 1;
        }
      } else {
        table, devices := *, *;
        changes := changes + 1;
      }
    }

    /** Have the kernel take over row 4. */
    method RefreshKernel() returns (ok: bool)
      modifies this`devices, this`table
      ensures faithful ==> table == old(table)
      ensures faithful && GROWN_PARTITION <= |old(table).partitions| ==>
                || (devices == old(devices) && !ok)
                || RowBytes(m, table) > MAX_BYTES
                || devices == EditState(old(devices), boot, GROWN_PARTITION, Resize(RowBytes(m, table)))
      ensures reliable ==> ok
    {
      ok := Attempt();
      if faithful && GROWN_PARTITION <= |table.partitions| && RowBytes(m, table) <= MAX_BYTES {
        var updated: bool := *;
        if ok || updated {
          devices := EditState(devices, boot, GROWN_PARTITION, Resize(RowBytes(m, table)));
        }
      } else {
        devices := *;
        if !faithful {
          table := *;
        }
      }
    }

    /** Find and verify the booted disk and write down what was verified. */
    method Identify(attestationOnly: bool, mountpoint: string) returns (r: Result<Verified, InitError>)
      requires m.logicalSectorSize > 0
      modifies this`attested
      ensures var v := Validate(m, devices, table, boot, AllowedMount(attestationOnly, mountpoint));
              && (r.Ok? ==> v == Ok(r.value) && onUsb && attested == Some(r.value))
              && (v.Err? ==> r.Err?)
              && (attested == old(attested) || (v.Ok? && onUsb && attested == Some(v.value)))
      ensures r.Err? && r.error.LayoutRejected? ==>
                || (r.error.layout == NotWritableUsb && !onUsb)
                || Validate(m, devices, table, boot, AllowedMount(attestationOnly, mountpoint)) == Err(r.error.layout)
      ensures BootPosition(devices, boot).None? ==> r == Err(Failed) || r == Err(Discovery)
      ensures reliable && onUsb && Validate(m, devices, table, boot, AllowedMount(attestationOnly, mountpoint)).Ok? ==>
                r.Ok?
    {
      ValidNeedsBootDisk(m, devices, table, boot, AllowedMount(attestationOnly, mountpoint));
      var manifestRead := Attempt();
      var mediumFound := Attempt();
      if !manifestRead || !mediumFound {
        return Err(Failed);
      }
      var listed := Attempt();
      if !listed {
        return Err(Discovery);
      }
      var devicesRead := Attempt();
      if !devicesRead {
        return Err(Failed);
      }
      if BootPosition(devices, boot).None? {
        return Err(Discovery);
      }
      var tableRead := Attempt();
      if !tableRead {
        return Err(Failed);
      }
      var verified := Validate(m, devices, table, boot, AllowedMount(attestationOnly, mountpoint));
      if verified.Err? {
        return Err(LayoutRejected(verified.error));
      }
      var propertiesRead := Attempt();
      if !propertiesRead {
        return Err(Failed);
      }
      if !onUsb {
        return Err(LayoutRejected(NotWritableUsb));
      }
      var written := Attempt();
      if !written {
        return Err(Failed);
      }
      attested := Some(verified.value);
      var restricted := Attempt();
      return if restricted then Ok(verified.value) else Err(Failed);
    }

    /** Write the row and have the kernel take it over. */
    method ChangeRow(change: Change) returns (ok: bool)
      requires change.size * m.logicalSectorSize <= MAX_BYTES
      modifies this`table, this`devices, this`changes
      ensures old(changes) <= changes <= old(changes) + 1
      ensures faithful ==>
                RowChanged(m, boot, change, old(devices), old(table), old(changes), devices, table, changes, ok)
      ensures reliable ==> ok
    {
      ok := RewriteRow(change);
      if ok {
        if GROWN_PARTITION <= |old(table).partitions| {
          RewrittenBytes(m, old(table), change);
        }
        ok := RefreshKernel();
      }
    }

    /** Read the disk again and compare it with what was intended. */
    method CheckGrowth(v: Verified, size: u64) returns (r: Result<(), InitError>)
      requires m.logicalSectorSize > 0
      ensures r.Ok? ==> GrownTo(m, devices, table, boot, None, v, size)
      ensures reliable && GrownTo(m, devices, table, boot, None, v, size) ==> r.Ok?
    {
      var settled := Attempt();
      var devicesRead := Attempt();
      var tableRead := Attempt();
      if !settled || !devicesRead || !tableRead {
        return Err(Failed);
      }
      var w := Validate(m, devices, table, boot, None);
      if w.Err? {
        return Err(LayoutRejected(w.error));
      }
      if w.value.stateStartLba != v.stateStartLba || w.value.stateSizeLba != size ||
         !EqIgnoreCase(w.value.stateUniqueGuid, v.stateUniqueGuid) {
        return Err(Discovery);
      }
      return Ok(());
    }

    /** Write the larger size, refresh the kernel, and check what came of it. */
    method GrowState(v: Verified, size: u64, ghost mount: Option<string>) returns (r: Result<(), InitError>)
      requires m.logicalSectorSize > 0 && m.alignmentLba > 0
      requires Validate(m, devices, table, boot, mount) == Ok(v) && size * m.logicalSectorSize <= MAX_BYTES
      modifies this`table, this`devices, this`changes
      ensures old(changes) <= changes <= old(changes) + 1
      ensures r.Ok? ==> GrownTo(m, devices, table, boot, None, v, size)
      ensures faithful ==>
                RowChanged(m, boot, Growing(v, size), old(devices), old(table), old(changes), devices, table, changes,
                           r.Ok?)
      // only the fourth partition can be grown
      ensures faithful && m.finalStatePartition != GROWN_PARTITION && size > v.stateSizeLba ==> r.Err?
      ensures reliable && faithful && Growable(m, boot, old(devices), old(table), v, size) ==> r.Ok?
    {
      var changed := ChangeRow(Growing(v, size));
      if !changed {
        return Err(Failed);
      }
      if faithful && Growable(m, boot, old(devices), old(table), v, size) {
        GrowableIsGrown(m, boot, v, size, old(devices), old(table), old(changes), devices, table, changes);
      }
      if faithful && m.finalStatePartition != GROWN_PARTITION && size > v.stateSizeLba {
        OtherIsNotGrown(m, boot, mount, v, Growing(v, size), old(devices), old(table), old(changes), devices, table,
                        changes);
      }
      r := CheckGrowth(v, size);
    }

    /** Check, resize, label and mount the filesystem, and record the state. */
    method PrepareState(v: Verified, size: u64, mountpoint: string) returns (r: Result<(), InitError>)
      requires m.logicalSectorSize > 0 && m.alignmentLba > 0
      requires IntendedSize(m, v.diskSizeBytes, v.stateStartLba) == Ok(size)
      modifies this`devices, this`record
      ensures Prepared(m, boot, mountpoint, old(devices), devices)
      ensures record == old(record) || record == Some(RecordFor(m, v, size))
      ensures r.Ok? ==> record == Some(RecordFor(m, v, size))
      ensures reliable ==> r.Ok?
    {
      var checked := Attempt();
      var resized := Attempt();
      var examined := Attempt();
      if !checked || !resized || !examined {
        return Err(Failed);
      }
      var initialized: bool := *;
      if !initialized {
        var labelled := Attempt();
        if !labelled {
          return Err(Failed);
        }
        devices := EditState(devices, boot, m.finalStatePartition, Relabel);
      }
      var mounted: bool := *;
      if !mounted {
        var done := Attempt();
        if !done {
          return Err(Failed);
        }
        devices := EditState(devices, boot, m.finalStatePartition, MountAt(mountpoint));
      }
      var identified := Attempt();
      if !identified {
        return Err(Failed);
      }
      var written := Attempt();
      if !written {
        return Err(Failed);
      }
      record := Some(RecordFor(m, v, size));
      return Ok(());
    }

    /** The tools are faithful, and the planned growth is to the fourth partition and keeps its type. */
    predicate CanGrow(plan: Plan) {
      faithful && m.finalStatePartition == GROWN_PARTITION && TypeSurvives(plan.verified)
    }

    /** Grow the partition if the plan is larger, then prepare it. */
    method Provision(plan: Plan, mount: Option<string>, mountpoint: string) returns (r: Result<Outcome, InitError>)
      requires m.logicalSectorSize > 0 && m.alignmentLba > 0
      requires PlanFor(m, devices, table, boot, mount) == Some(plan)
      requires mount == None || mount == Some(mountpoint)
      modifies this`devices, this`table, this`changes, this`record
      ensures r.Ok? ==> r.value == if Grows(Some(plan)) then Grown else Ready
      ensures r.Ok? ==>
                && Achieved(m, devices, table, boot, mountpoint, plan)
                && record == Some(RecordFor(m, plan.verified, plan.size))
      ensures record == old(record) || record == Some(RecordFor(m, plan.verified, plan.size))
      ensures !Grows(Some(plan)) ==>
                table == old(table) && changes == old(changes) && Prepared(m, boot, mountpoint, old(devices), devices)
      ensures changes <= old(changes) + 1
      ensures reliable && (Grows(Some(plan)) ==> mount.None? && CanGrow(plan)) ==> r.Ok?
      ensures faithful && m.finalStatePartition != GROWN_PARTITION && Grows(Some(plan)) ==> r.Err?
      ensures faithful && m.finalStatePartition == GROWN_PARTITION ==>
                RanFaithfully(m, boot, Some(plan), old(devices), old(table), old(changes), devices, table, changes,
                              r.Ok?)
    {
      AcceptedRows(m, devices, table, boot, mount);
      SizeFitsDisk(m, plan.verified.diskSizeBytes, plan.verified.stateStartLba, plan.size);
      var grows := plan.size > plan.verified.stateSizeLba;
      ghost var reported, allowed := plan.verified, mount;
      if grows {
        var growth := GrowState(plan.verified, plan.size, mount);
        if growth.Err? {
          if faithful && m.finalStatePartition == GROWN_PARTITION {
            ChangedThenPrepared(m, boot, mountpoint, plan, old(devices), old(table), old(changes), devices, table,
                                changes, false, devices, false);
          }
          return Err(growth.error);
        }
        reported, allowed := Validate(m, devices, table, boot, None).value, None;
      }
      r := Finish(plan, grows, mountpoint, reported, allowed, old(devices), old(table), old(changes));
    }

    /** Prepare the partition that has the planned size, after `changes` were made to `before`. */
    method Finish(plan: Plan, grown: bool, mountpoint: string, ghost reported: Verified, ghost allowed: Option<string>,
                  ghost before: seq<Device>, ghost t: Table, ghost n: nat) returns (r: Result<Outcome, InitError>)
      requires m.logicalSectorSize > 0 && m.alignmentLba > 0
      requires grown <==> Grows(Some(plan))
      requires IntendedSize(m, plan.verified.diskSizeBytes, plan.verified.stateStartLba) == Ok(plan.size)
      requires && Validate(m, devices, table, boot, allowed) == Ok(reported)
               && (allowed == None || allowed == Some(mountpoint))
      requires faithful && m.finalStatePartition == GROWN_PARTITION ==>
                 && GROWN_PARTITION <= |t.partitions| && plan.size * m.logicalSectorSize <= MAX_BYTES
                 && (grown ==> RowChanged(m, boot, Growing(plan.verified, plan.size), before, t, n, devices, table,
                                          changes, true))
                 && (!grown ==> devices == before && table == t && changes == n)
      modifies this`devices, this`record
      ensures record == old(record) || record == Some(RecordFor(m, plan.verified, plan.size))
      ensures r.Ok? ==>
                r.value == (if grown then Grown else Ready) && record == Some(RecordFor(m, plan.verified, plan.size))
      ensures Validate(m, devices, table, boot, Some(mountpoint)) == Ok(reported)
      ensures Prepared(m, boot, mountpoint, old(devices), devices)
      ensures reliable ==> r.Ok?
      ensures faithful && m.finalStatePartition == GROWN_PARTITION ==>
                RanFaithfully(m, boot, Some(plan), before, t, n, devices, table, changes, r.Ok?)
    {
      var prepared := PrepareState(plan.verified, plan.size, mountpoint);
      PreparedAccepted(m, boot, mountpoint, old(devices), devices, table, allowed, reported);
      if faithful && m.finalStatePartition == GROWN_PARTITION {
        if grown {
          ChangedThenPrepared(m, boot, mountpoint, plan, before, t, n, old(devices), table, changes, true, devices,
                              true);
        } else {
          OnlyPrepared(m, boot, mountpoint, Some(plan), before, t, n, devices, true);
        }
      }
      if prepared.Err? {
        return Err(prepared.error);
      }
      var unlocked := Attempt();
      if !unlocked {
        return Err(Failed);
      }
      return Ok(if grown then Grown else Ready);
    }

    /** One run of the initializer. */
    method Execute(attestationOnly: bool, dryRun: bool, mountpoint: string) returns (r: Result<Outcome, InitError>)
      requires m.logicalSectorSize > 0 && m.alignmentLba > 0
      modifies this`devices, this`table, this`changes, this`attested, this`record
      ensures (r == Ok(Stateless) ==> stateless) && (reliable && stateless ==> r == Ok(Stateless))
      ensures r == Ok(Stateless) ==> attested == old(attested)
      ensures r == Ok(Stateless) || dryRun ==>
                devices == old(devices) && table == old(table) && changes == old(changes) && record == old(record)
      ensures var v := Validate(m, old(devices), old(table), boot, AllowedMount(attestationOnly, mountpoint));
              && (attested == old(attested) || (v.Ok? && onUsb && attested == Some(v.value)))
              && (r.Ok? && r != Ok(Stateless) ==> v.Ok? && onUsb && attested == Some(v.value))
      ensures BootPosition(old(devices), boot).None? && r != Ok(Stateless) ==> r == Err(Failed) || r == Err(Discovery)
      ensures var plan := PlanFor(m, old(devices), old(table), boot, AllowedMount(attestationOnly, mountpoint));
              && (!Grows(plan) || !onUsb ==>
                    && table == old(table)
                    && changes == old(changes)
                    && Prepared(m, boot, mountpoint, old(devices), devices))
              && (|| record == old(record)
                  || (plan.Some? && record == Some(RecordFor(m, plan.value.verified, plan.value.size))))
              && (r.Ok? && r != Ok(Stateless) && !dryRun ==>
                    && plan.Some?
                    && r.value == (if Grows(plan) then Grown else Ready)
                    && Achieved(m, devices, table, boot, mountpoint, plan.value)
                    && record == Some(RecordFor(m, plan.value.verified, plan.value.size)))
      ensures r.Ok? && r != Ok(Stateless) && dryRun ==> r.value == Ready
      // where nothing fails, a run that has a plan and can carry it out succeeds
      ensures var plan := PlanFor(m, old(devices), old(table), boot, None);
              reliable && onUsb && !attestationOnly && plan.Some? && (Grows(plan) ==> CanGrow(plan.value)) ==> r.Ok?
      ensures var plan := PlanFor(m, old(devices), old(table), boot, AllowedMount(attestationOnly, mountpoint));
              reliable && onUsb && plan.Some? && !Grows(plan) ==> r.Ok?
      // only the fourth partition can be grown
      ensures faithful && m.finalStatePartition != GROWN_PARTITION ==> r != Ok(Grown)
      ensures changes <= old(changes) + 1
      ensures var plan := PlanFor(m, old(devices), old(table), boot, AllowedMount(attestationOnly, mountpoint));
              faithful && m.finalStatePartition == GROWN_PARTITION ==>
                RanFaithfully(m, boot, plan, old(devices), old(table), old(changes), devices, table, changes,
                              r.Ok? && r != Ok(Stateless) && !dryRun)
    {
      var readable := Attempt(); // a kernel command line that cannot be read asks for nothing
      if stateless && readable {
        return Ok(Stateless);
      }
      var identified := Identify(attestationOnly, mountpoint);
      if identified.Err? {
        return Err(identified.error);
      }
      if dryRun {
        return Ok(Ready);
      }
      var diskOpen := Attempt();
      if !diskOpen {
        return Err(Failed);
      }
      var locked := Attempt();
      if !locked {
        return Err(Discovery);
      }
      var v := identified.value;
      var size := IntendedSize(m, v.diskSizeBytes, v.stateStartLba);
      if size.Err? {
        return Err(Discovery);
      }
      r := Provision(Plan(v, size.value), AllowedMount(attestationOnly, mountpoint), mountpoint);
    }

    /** The program: forget the last attestation, run, and report. */
    method Initialize(attestationOnly: bool, dryRun: bool, mountpoint: string) returns (outcome: Outcome)
      requires m.logicalSectorSize > 0 && m.alignmentLba > 0
      modifies this`devices, this`table, this`changes, this`attested, this`record
      ensures var v := Validate(m, old(devices), old(table), boot, AllowedMount(attestationOnly, mountpoint));
              && (attested == None || attested == old(attested) || (v.Ok? && onUsb && attested == Some(v.value)))
              && (outcome.Ready? || outcome.Grown? ==> v.Ok? && onUsb && attested == Some(v.value))
      ensures (outcome.Stateless? ==> stateless) && (reliable && stateless ==> outcome.Stateless?)
      ensures BootPosition(old(devices), boot).None? ==>
                outcome.Stateless? || outcome.BlockedAmbiguousBootDevice? || outcome.LimitedCapacity?
      ensures dryRun ==>
                devices == old(devices) && table == old(table) && changes == old(changes) && record == old(record)
      // where nothing fails, a run that has a plan and can carry it out reports success
      ensures var plan := PlanFor(m, old(devices), old(table), boot, None);
              && reliable
              && onUsb
              && !stateless
              && !attestationOnly
              && plan.Some?
              && (Grows(plan) ==> CanGrow(plan.value)) ==>
                outcome == if Grows(plan) && !dryRun then Grown else Ready
      ensures var plan := PlanFor(m, old(devices), old(table), boot, AllowedMount(attestationOnly, mountpoint));
              && ((outcome.Ready? || outcome.Grown?) && !dryRun ==>
                    && plan.Some?
                    && outcome == (if Grows(plan) then Grown else Ready)
                    && Achieved(m, devices, table, boot, mountpoint, plan.value)
                    && record == Some(RecordFor(m, plan.value.verified, plan.value.size)))
              && (!Grows(plan) ==>
                    && table == old(table)
                    && changes == old(changes)
                    && Prepared(m, boot, mountpoint, old(devices), devices))
              && (reliable && onUsb && !stateless && plan.Some? && !Grows(plan) ==> outcome == Ready)
              && (faithful && m.finalStatePartition == GROWN_PARTITION ==>
                    RanFaithfully(m, boot, plan, old(devices), old(table), old(changes), devices, table, changes,
                                  (outcome.Ready? || outcome.Grown?) && !dryRun))
      // only the fourth partition can be grown
      ensures faithful && m.finalStatePartition != GROWN_PARTITION ==> !outcome.Grown?
    {
      var removed := Attempt();
      if removed {
        attested := None;
      }
      var r := Execute(attestationOnly, dryRun, mountpoint);
      outcome := Reported(r);
    }

    /** One run of faithful tools. */
    method RunFaithfully(attestationOnly: bool, dryRun: bool, mountpoint: string) returns (outcome: Outcome)
      requires m.logicalSectorSize > 0 && m.alignmentLba > 0
      requires faithful && m.finalStatePartition == GROWN_PARTITION
      modifies this`devices, this`table, this`changes, this`attested, this`record
      ensures Ran(m, boot, PlanFor(m, old(devices), old(table), boot, AllowedMount(attestationOnly, mountpoint)),
                  old(devices), old(table), old(changes), devices, table, changes, mountpoint,
                  (outcome.Ready? || outcome.Grown?) && !dryRun)
      ensures outcome.Ready? || outcome.Grown? ==> onUsb
      ensures reliable && stateless ==> outcome == Stateless
      ensures var plan := PlanFor(m, old(devices), old(table), boot, AllowedMount(attestationOnly, mountpoint));
              reliable && onUsb && !stateless && plan.Some? && !Grows(plan) ==> outcome == Ready
    {
      outcome := Initialize(attestationOnly, dryRun, mountpoint);
    }

    /** One run on a disk that only such runs have changed. */
    method RunOnce(attestationOnly: bool, dryRun: bool, mountpoint: string, ghost capacity: u64, ghost original: Table)
      returns (outcome: Outcome)
      requires m.logicalSectorSize > 0 && m.alignmentLba > 0
      requires faithful && m.finalStatePartition == GROWN_PARTITION
      requires Reached(m, boot, capacity, original, devices, table)
      modifies this`devices, this`table, this`changes, this`attested, this`record
      ensures Reached(m, boot, capacity, original, devices, table)
      ensures || (table == old(table) && changes == old(changes))
              || (IsGrowthOf(m, capacity, original, table) && changes == old(changes) + 1)
      ensures KernelAgrees(m, boot, old(devices), old(table)) && old(table) != original ==>
                table == old(table) && changes == old(changes) && KernelAgrees(m, boot, devices, table)
      ensures (outcome.Ready? || outcome.Grown?) && !dryRun ==>
                onUsb && Settled(m, boot, devices, table, mountpoint)
      ensures Settled(m, boot, old(devices), old(table), mountpoint) ==>
                Settled(m, boot, devices, table, mountpoint) && table == old(table) && changes == old(changes)
      ensures Settled(m, boot, old(devices), old(table), mountpoint) && reliable && onUsb
                && (attestationOnly || PlanFor(m, old(devices), old(table), boot, None).Some?) ==>
                outcome == if stateless then Stateless else Ready
    {
      var mount := AllowedMount(attestationOnly, mountpoint);
      if Settled(m, boot, devices, table, mountpoint) {
        SettledHasNoGrowth(m, boot, devices, table, mountpoint);
      }
      outcome := RunFaithfully(attestationOnly, dryRun, mountpoint);
      RunReaches(m, boot, capacity, original, old(devices), old(table), old(changes), mount, devices, table, changes,
                 mountpoint,
                 (outcome.Ready? || outcome.Grown?) && !dryRun);
    }

    /** The next boot: nothing is mounted, and the kernel reads the table again. */
    method Reboot()
      requires GROWN_PARTITION <= |table.partitions| && RowBytes(m, table) <= MAX_BYTES
      modifies this`devices
      ensures devices == Rebooted(m, boot, old(devices), table)
      ensures SameBootDisk(boot, old(devices), devices)
      ensures KernelAgrees(m, boot, devices, table)
    {
      devices := Rebooted(m, boot, devices, table);
      RebootedDisk(m, boot, old(devices), table);
    }

    /** Whether every further run is due to find the disk ready. */
    ghost predicate Finished(mountpoint: string)
      requires m.logicalSectorSize > 0 && m.alignmentLba > 0
      reads this`devices, this`table
    {
      onUsb && Settled(m, boot, devices, table, mountpoint)
    }

    /** Any number of runs of any kind in one boot. */
    method Boot(
        b: nat, runs: nat, mountpoint: string, earlier: seq<Report>, ghost capacity: u64, ghost original: Table,
        ghost n: nat, ghost before: bool)
      returns (reports: seq<Report>, ghost done: bool)
      requires m.logicalSectorSize > 0 && m.alignmentLba > 0
      requires faithful && m.finalStatePartition == GROWN_PARTITION
      requires Reached(m, boot, capacity, original, devices, table) && KernelAgrees(m, boot, devices, table)
      requires n <= changes && (changes == n <==> table == original)
      requires Consistent(n, stateless, earlier) && Recounted(n, earlier, b, changes, table, changes, before)
      requires before ==> Finished(mountpoint) && PlanFor(m, devices, table, boot, None).Some?
      modifies this`devices, this`table, this`changes, this`attested, this`record, this`reliable
      ensures Reached(m, boot, capacity, original, devices, table)
      ensures n <= changes <= old(changes) + runs && (changes == n <==> table == original)
      ensures old(changes) != n ==> changes == old(changes)
      ensures Consistent(n, stateless, reports) && Recounted(n, reports, b, old(changes), table, changes, done)
      ensures done ==> Finished(mountpoint)
    {
      reports, done := earlier, before;
      for r := 0 to runs
        invariant Reached(m, boot, capacity, original, devices, table)
        invariant n <= changes <= old(changes) + r && (changes == n <==> table == original)
        invariant old(changes) != n ==> changes == old(changes) && KernelAgrees(m, boot, devices, table)
        invariant Consistent(n, stateless, reports) && Recounted(n, reports, b, old(changes), table, changes, done)
        invariant done ==> Finished(mountpoint) && (r == 0 ==> PlanFor(m, devices, table, boot, None).Some?)
      {
        var attestationOnly: bool, dryRun: bool, nothingFails: bool := *, *, *;
        reliable := nothingFails;
        ghost var t, k := table, changes;
        var outcome := RunOnce(attestationOnly, dryRun, mountpoint, capacity, original);
        var report := Report(b, r, attestationOnly, dryRun, reliable, outcome, table, changes);
        ReportAdded(n, stateless, reports, b, old(changes), t, k, done, report);
        reports, done := reports + [report], done || Succeeded(report);
      }
    }

    /** Any number of boots, each with any number of runs of any kind, in each of which
        anything may fail: the table stays or becomes the one intended growth of it, written
        in one boot only; once a run succeeds, all later ones leave the table alone, and
        where nothing fails the next boot finds the disk ready. */
    method Boots(runs: seq<nat>, ghost most: nat, mountpoint: string) returns (reports: seq<Report>)
      requires m.logicalSectorSize > 0 && m.alignmentLba > 0
      requires faithful && m.finalStatePartition == GROWN_PARTITION
      requires KernelAgrees(m, boot, devices, table) && BootPosition(devices, boot).Some?
      requires forall b :: 0 <= b < |runs| ==> runs[b] <= most
      modifies this`devices, this`table, this`changes, this`attested, this`record, this`reliable
      ensures || (table == old(table) && changes == old(changes))
              || (&& IsGrowthOf(m, Disk(old(devices), boot).size, old(table), table)
                  && old(changes) < changes <= old(changes) + most)
      ensures Consistent(old(changes), stateless, reports)
    {
      ghost var capacity, original, n := Disk(devices, boot).size, table, changes;
      ghost var done := false;
      reports := [];
      for b := 0 to |runs|
        invariant Reached(m, boot, capacity, original, devices, table) && KernelAgrees(m, boot, devices, table)
        invariant n <= changes <= n + most && (changes == n <==> table == original)
        invariant Consistent(n, stateless, reports) && Recounted(n, reports, b, changes, table, changes, done)
        invariant done ==> Finished(mountpoint) && PlanFor(m, devices, table, boot, None).Some?
      {
        reports, done := Boot(b, runs[b], mountpoint, reports, capacity, original, n, done);
        if done {
          SettledStaysRebooted(m, boot, devices, table, mountpoint);
        }
        Reboot();
      }
    }
  }
}
