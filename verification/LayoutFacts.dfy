/** What an accepted layout is: the validator accepts exactly the disks that are
    laid out as the manifest says, and that fixes the manifest's own numbering. */
module LayoutFacts {
  import opened Counting
  import opened Layout
  import opened Multiples
  import opened Wrappers

  // ----- the declarative description -----

  function Numbers(contracts: seq<Contract>): seq<int> {
    seq(|contracts|, i requires 0 <= i < |contracts| => contracts[i].number as int)
  }

  function UpTo(n: nat): seq<int> {
    seq(n, i => i + 1)
  }

  /** The numbers are 1 to n, each once, in any order. */
  ghost predicate WellNumbered(contracts: seq<Contract>) {
    multiset(Numbers(contracts)) == multiset(UpTo(|contracts|))
  }

  ghost predicate EntryGoverned(contracts: seq<Contract>, contract: Contract, entries: seq<Entry>) {
    1 <= contract.number <= |entries| && EntryMatches(contract, contract.number, entries[contract.number - 1])
  }

  ghost predicate ChildGoverned(m: Manifest, child: Device)
    requires m.logicalSectorSize > 0
  {
    exists i :: 0 <= i < |m.partitions| && child.partn == Some(m.partitions[i].number) &&
      ChildMatches(m, m.partitions[i], m.partitions[i].number, child)
  }

  ghost predicate PartitionsMatch(m: Manifest, disk: Device, table: Table)
    requires m.logicalSectorSize > 0
  {
    && WellNumbered(m.partitions)
    && (forall i :: 0 <= i < |m.partitions| ==> EntryGoverned(m.partitions, m.partitions[i], table.partitions))
    && (forall j :: 0 <= j < |disk.children| ==> ChildGoverned(m, disk.children[j]))
  }

  /** A partition that has the given number and starts no earlier than any other. */
  ghost predicate IsFinal(children: seq<Device>, s: nat, number: u32) {
    && s < |children|
    && children[s].partn == Some(number)
    && StateLabel(children[s].fsLabel)
    && children[s].start.Some?
    && forall j :: 0 <= j < |children| && children[j].start.Some? ==> children[j].start.value <= children[s].start.value
  }

  ghost predicate HasNumber(children: seq<Device>, number: u32) {
    exists i :: 0 <= i < |children| && children[i].partn == Some(number)
  }

  ghost predicate RolesFilled(m: Manifest, disk: Device, boot: string, stateMount: Option<string>) {
    && RootIsExpected(disk.children, boot)
    && (exists s :: IsFinal(disk.children, s, m.finalStatePartition))
    && HasNumber(disk.children, 1)
    && NoForeignMounts(m, disk.children, boot, stateMount)
  }

  predicate HeadersMatch(m: Manifest, table: Table) {
    && m.schema == LAYOUT_SCHEMA && m.partitionTable == "mbr"
    && table.scheme == "dos" && EqDiskId(table.id, m.diskGuid)
  }

  ghost predicate DiskWellLaidOut(m: Manifest, disk: Device, table: Table, boot: string, stateMount: Option<string>)
    requires m.logicalSectorSize > 0
  {
    CheckIdentity(m, disk, table).Ok? && PartitionsMatch(m, disk, table) && RolesFilled(m, disk, boot, stateMount)
  }

  /** The booted disk. */
  function Disk(devices: seq<Device>, boot: string): Device
    requires BootPosition(devices, boot).Some?
  {
    devices[BootPosition(devices, boot).value]
  }

  ghost predicate WellLaidOut(m: Manifest, devices: seq<Device>, table: Table, boot: string, stateMount: Option<string>)
    requires m.logicalSectorSize > 0
  {
    && HeadersMatch(m, table)
    && BootPosition(devices, boot).Some?
    && DiskWellLaidOut(m, Disk(devices, boot), table, boot, stateMount)
  }

  // ----- the numbering -----

  lemma {:induction false} ExpectedLookup(contracts: seq<Contract>, number: int)
    ensures number in Numbers(contracts) <==> 0 <= number < 0x1_0000_0000 && number in Expected(contracts)
    ensures 0 <= number < 0x1_0000_0000 && number in Expected(contracts) ==>
              exists i ::
                0 <= i < |contracts| && contracts[i].number == number && Expected(contracts)[number] == contracts[i]
  {
    if contracts != [] {
      var n := |contracts| - 1;
      ExpectedLookup(contracts[..n], number);
      assert Numbers(contracts) == Numbers(contracts[..n]) + [contracts[n].number];
    }
  }

  lemma {:induction false} UpToHasNoRepeats(n: nat)
    ensures |SetOf(UpTo(n))| == n
    ensures forall k :: k in UpTo(n) <==> 1 <= k <= n
  {
    if n > 0 {
      UpToHasNoRepeats(n - 1);
      assert UpTo(n) == UpTo(n - 1) + [n];
      assert SetOf(UpTo(n)) == SetOf(UpTo(n - 1)) + {n};
    } else {
      assert SetOf(UpTo(n)) == {};
    }
  }

  /** The pigeonhole across the length check, the map and the table loop: if every
      row of a table as long as the manifest finds a contract, then the manifest's
      numbers are 1 to n without repeats. */
  lemma {:induction false} EveryRowHasContract(contracts: seq<Contract>, entries: seq<Entry>)
    requires |entries| == |contracts|
    requires FirstError(EntryErrors(Expected(contracts), entries)).None?
    ensures WellNumbered(contracts)
  {
    var n := |contracts|;
    UpToHasNoRepeats(n);
    forall k | k in UpTo(n)
      ensures k in Numbers(contracts)
    {
      assert EntryErrors(Expected(contracts), entries)[k - 1].None?;
      ExpectedLookup(contracts, k);
    }
    FullSelectionIsPermutation(UpTo(n), Numbers(contracts));
  }

  /** The numbers of a good numbering: their range, and that they differ. */
  lemma {:induction false} NumbersInRange(contracts: seq<Contract>, k: int)
    requires WellNumbered(contracts)
    ensures k in Numbers(contracts) <==> 1 <= k <= |contracts|
  {
    UpToHasNoRepeats(|contracts|);
    assert k in Numbers(contracts) <==> k in multiset(Numbers(contracts));
    assert k in UpTo(|contracts|) <==> k in multiset(UpTo(|contracts|));
  }

  lemma {:induction false} NumberFixesPosition(contracts: seq<Contract>, i: nat, j: nat)
    requires WellNumbered(contracts) && i < |contracts| && j < |contracts|
    requires contracts[i].number == contracts[j].number
    ensures i == j
  {
    UpToHasNoRepeats(|contracts|);
    NoRepeats(UpTo(|contracts|));
    PositionsDiffer(Numbers(contracts));
    assert Numbers(contracts)[i] == Numbers(contracts)[j];
  }

  /** In a good numbering, looking up a contract's number finds that contract. */
  lemma {:induction false} LookupFindsContract(contracts: seq<Contract>, i: nat)
    requires WellNumbered(contracts) && i < |contracts|
    ensures contracts[i].number in Expected(contracts) && Expected(contracts)[contracts[i].number] == contracts[i]
    ensures 1 <= contracts[i].number <= |contracts|
  {
    assert Numbers(contracts)[i] == contracts[i].number;
    NumbersInRange(contracts, contracts[i].number);
    ExpectedLookup(contracts, contracts[i].number);
    var k :| 0 <= k < |contracts| && contracts[k].number == contracts[i].number &&
             Expected(contracts)[contracts[i].number] == contracts[k];
    NumberFixesPosition(contracts, i, k);
  }

  // ----- exactness -----

  lemma {:induction false} ChildMatchesExactly(m: Manifest, child: Device)
    requires m.logicalSectorSize > 0 && WellNumbered(m.partitions)
    ensures ChildError(m, Expected(m.partitions), child).None? <==> ChildGoverned(m, child)
  {
    if child.partn.Some? {
      ExpectedLookup(m.partitions, child.partn.value);
      forall i | 0 <= i < |m.partitions| && m.partitions[i].number == child.partn.value
        ensures && m.partitions[i].number in Expected(m.partitions)
                && Expected(m.partitions)[m.partitions[i].number] == m.partitions[i]
      {
        LookupFindsContract(m.partitions, i);
      }
    }
  }

  /** The contract of a number, in a good numbering. */
  lemma {:induction false} ContractOf(contracts: seq<Contract>, k: int) returns (i: nat)
    requires WellNumbered(contracts) && 1 <= k <= |contracts|
    ensures i < |contracts| && contracts[i].number == k
  {
    NumbersInRange(contracts, k);
    i :| i < |contracts| && Numbers(contracts)[i] == k;
  }

  /** The map holds each contract under its number. */
  ghost predicate Tabulates(expected: map<u32, Contract>, contracts: seq<Contract>) {
    forall i :: 0 <= i < |contracts| ==>
      && 1 <= contracts[i].number <= |contracts|
      && contracts[i].number in expected
      && expected[contracts[i].number] == contracts[i]
  }

  lemma {:induction false} RowMatchesExactly(
      expected: map<u32, Contract>, contracts: seq<Contract>, entries: seq<Entry>, i: nat)
    requires Tabulates(expected, contracts) && |entries| == |contracts| && i < |contracts|
    ensures EntryError(expected, contracts[i].number, entries[contracts[i].number - 1]).None? <==>
            EntryGoverned(contracts, contracts[i], entries)
  {
  }

  lemma {:induction false} PassingEntriesAreGoverned(
      expected: map<u32, Contract>, contracts: seq<Contract>, entries: seq<Entry>)
    requires WellNumbered(contracts) && Tabulates(expected, contracts) && |entries| == |contracts|
    requires FirstError(EntryErrors(expected, entries)).None?
    ensures forall i :: 0 <= i < |contracts| ==> EntryGoverned(contracts, contracts[i], entries)
  {
    forall i | 0 <= i < |contracts|
      ensures EntryGoverned(contracts, contracts[i], entries)
    {
      RowMatchesExactly(expected, contracts, entries, i);
      var j := contracts[i].number - 1;
      assert EntryErrors(expected, entries)[j].None?;
    }
  }

  lemma {:induction false} GovernedEntriesPass(
      expected: map<u32, Contract>, contracts: seq<Contract>, entries: seq<Entry>)
    requires WellNumbered(contracts) && Tabulates(expected, contracts) && |entries| == |contracts|
    requires forall i :: 0 <= i < |contracts| ==> EntryGoverned(contracts, contracts[i], entries)
    ensures FirstError(EntryErrors(expected, entries)).None?
  {
    forall j | 0 <= j < |entries|
      ensures EntryError(expected, j + 1, entries[j]).None?
    {
      var i := ContractOf(contracts, j + 1);
      RowMatchesExactly(expected, contracts, entries, i);
    }
  }

  lemma {:induction false} EntriesMatchExactly(
      expected: map<u32, Contract>, contracts: seq<Contract>, entries: seq<Entry>)
    requires WellNumbered(contracts) && Tabulates(expected, contracts) && |entries| == |contracts|
    ensures FirstError(EntryErrors(expected, entries)).None? <==>
            forall i :: 0 <= i < |contracts| ==> EntryGoverned(contracts, contracts[i], entries)
  {
    if FirstError(EntryErrors(expected, entries)).None? {
      PassingEntriesAreGoverned(expected, contracts, entries);
    } else if forall i :: 0 <= i < |contracts| ==> EntryGoverned(contracts, contracts[i], entries) {
      GovernedEntriesPass(expected, contracts, entries);
    }
  }

  lemma {:induction false} ExpectedTabulates(contracts: seq<Contract>)
    requires WellNumbered(contracts)
    ensures Tabulates(Expected(contracts), contracts)
  {
    forall i | 0 <= i < |contracts|
      ensures 1 <= contracts[i].number <= |contracts| && contracts[i].number in Expected(contracts)
      ensures Expected(contracts)[contracts[i].number] == contracts[i]
    {
      LookupFindsContract(contracts, i);
    }
  }

  lemma {:induction false} ChildrenMatchExactly(m: Manifest, children: seq<Device>)
    requires m.logicalSectorSize > 0 && WellNumbered(m.partitions)
    ensures FirstError(ChildErrors(m, Expected(m.partitions), children)).None? <==>
            forall j :: 0 <= j < |children| ==> ChildGoverned(m, children[j])
  {
    forall j | 0 <= j < |children|
      ensures ChildErrors(m, Expected(m.partitions), children)[j].None? <==> ChildGoverned(m, children[j])
    {
      ChildMatchesExactly(m, children[j]);
    }
  }

  lemma {:induction false} PartitionsCheckedExactly(m: Manifest, disk: Device, table: Table)
    requires m.logicalSectorSize > 0 && |table.partitions| == |m.partitions|
    ensures CheckPartitions(m, disk, table).Ok? <==> PartitionsMatch(m, disk, table)
  {
    if CheckPartitions(m, disk, table).Ok? {
      EveryRowHasContract(m.partitions, table.partitions);
    }
    if WellNumbered(m.partitions) {
      ExpectedTabulates(m.partitions);
      ChildrenMatchExactly(m, disk.children);
      EntriesMatchExactly(Expected(m.partitions), m.partitions, table.partitions);
    }
  }

  lemma {:induction false} MaxStartIsGreatest(children: seq<Device>)
    ensures IsLatestStart(children, MaxStart(children))
  {
    if children != [] {
      var n := |children| - 1;
      MaxStartIsGreatest(children[..n]);
      if MaxStart(children) == children[n].start {
      } else {
        var j :| 0 <= j < n && children[..n][j].start == MaxStart(children[..n]);
        assert children[j].start == MaxStart(children);
      }
    }
  }

  /** Children of the same number match the same contract, so they start together. */
  lemma {:induction false} SameNumberSameStart(m: Manifest, a: Device, b: Device)
    requires m.logicalSectorSize > 0 && WellNumbered(m.partitions)
    requires ChildGoverned(m, a) && ChildGoverned(m, b) && a.partn == b.partn
    ensures a.start == b.start && a.start.Some?
  {
    var i :| 0 <= i < |m.partitions| && a.partn == Some(m.partitions[i].number) &&
             ChildMatches(m, m.partitions[i], m.partitions[i].number, a);
    var j :| 0 <= j < |m.partitions| && b.partn == Some(m.partitions[j].number) &&
             ChildMatches(m, m.partitions[j], m.partitions[j].number, b);
    NumberFixesPosition(m.partitions, i, j);
  }

  /** The check of the state partition, as the validator does it. */
  predicate StateChecks(children: seq<Device>, number: u32, latest: Option<u64>) {
    var state := Numbered(children, number);
    state.Some? && children[state.value].start == latest && StateLabel(children[state.value].fsLabel)
  }

  ghost predicate IsLatestStart(children: seq<Device>, latest: Option<u64>) {
    && (forall j :: 0 <= j < |children| && children[j].start.Some? ==>
          latest.Some? && children[j].start.value <= latest.value)
    && (latest.Some? ==> exists j :: 0 <= j < |children| && children[j].start == latest)
  }

  /** Children of this number are labelled as state partitions and start together. */
  ghost predicate StateAgrees(children: seq<Device>, number: u32, start: Option<u64>) {
    start.Some? && forall j :: 0 <= j < |children| && children[j].partn == Some(number) ==>
      children[j].start == start && StateLabel(children[j].fsLabel)
  }

  lemma {:induction false} FinalExactly(children: seq<Device>, number: u32, latest: Option<u64>, start: Option<u64>)
    requires IsLatestStart(children, latest) && StateAgrees(children, number, start)
    ensures StateChecks(children, number, latest) ==> IsFinal(children, Numbered(children, number).value, number)
    ensures forall s :: IsFinal(children, s, number) ==> StateChecks(children, number, latest)
  {
  }

  lemma {:induction false} StateCheckedExactly(m: Manifest, children: seq<Device>)
    requires m.logicalSectorSize > 0 && WellNumbered(m.partitions)
    requires forall j :: 0 <= j < |children| ==> ChildGoverned(m, children[j])
    ensures StateChecks(children, m.finalStatePartition, MaxStart(children)) <==>
            exists s :: IsFinal(children, s, m.finalStatePartition)
  {
    MaxStartIsGreatest(children);
    var state := Numbered(children, m.finalStatePartition);
    if state.Some? {
      forall j | 0 <= j < |children| && children[j].partn == Some(m.finalStatePartition)
        ensures && children[j].start == children[state.value].start
                && children[j].start.Some?
                && StateLabel(children[j].fsLabel)
      {
        SameNumberSameStart(m, children[state.value], children[j]);
        StateLabelled(m, children[j]);
      }
      FinalExactly(children, m.finalStatePartition, MaxStart(children), children[state.value].start);
    }
  }

  lemma {:induction false} StateLabelled(m: Manifest, child: Device)
    requires m.logicalSectorSize > 0 && ChildGoverned(m, child) && child.partn == Some(m.finalStatePartition)
    ensures StateLabel(child.fsLabel)
  {
  }

  lemma {:induction false} RolesUnfold(m: Manifest, disk: Device, boot: string, stateMount: Option<string>)
    ensures CheckRoles(m, disk, boot, stateMount).Ok? <==>
      && RootIsExpected(disk.children, boot)
      && StateChecks(disk.children, m.finalStatePartition, MaxStart(disk.children))
      && Numbered(disk.children, 1).Some?
      && NoForeignMounts(m, disk.children, boot, stateMount)
    ensures CheckRoles(m, disk, boot, stateMount).Ok? ==>
      CheckRoles(m, disk, boot, stateMount).value ==
        (Numbered(disk.children, m.finalStatePartition).value, Numbered(disk.children, 1).value)
  {
  }

  lemma {:induction false} NumberedExactly(children: seq<Device>, number: u32)
    ensures Numbered(children, number).Some? <==> HasNumber(children, number)
  {
  }

  lemma {:induction false} RolesCheckedExactly(
      m: Manifest, disk: Device, table: Table, boot: string, stateMount: Option<string>)
    requires m.logicalSectorSize > 0 && PartitionsMatch(m, disk, table)
    ensures CheckRoles(m, disk, boot, stateMount).Ok? <==> RolesFilled(m, disk, boot, stateMount)
  {
    RolesUnfold(m, disk, boot, stateMount);
    StateCheckedExactly(m, disk.children);
    NumberedExactly(disk.children, 1);
  }

  lemma {:induction false} DiskAcceptedExactly(
      m: Manifest, disk: Device, table: Table, boot: string, stateMount: Option<string>)
    requires m.logicalSectorSize > 0
    ensures ValidateDisk(m, disk, table, boot, stateMount).Ok? <==> DiskWellLaidOut(m, disk, table, boot, stateMount)
  {
    if CheckIdentity(m, disk, table).Ok? {
      PartitionsCheckedExactly(m, disk, table);
      if PartitionsMatch(m, disk, table) {
        RolesCheckedExactly(m, disk, table, boot, stateMount);
      }
    }
  }

  /** Layout acceptance: the validator accepts a disk exactly if it is well laid out. */
  lemma {:induction false} AcceptsExactly(
      m: Manifest, devices: seq<Device>, table: Table, boot: string, stateMount: Option<string>)
    requires m.logicalSectorSize > 0
    ensures Validate(m, devices, table, boot, stateMount).Ok? <==> WellLaidOut(m, devices, table, boot, stateMount)
  {
    if BootPosition(devices, boot).Some? {
      DiskAcceptedExactly(m, Disk(devices, boot), table, boot, stateMount);
    }
  }

  // ----- what acceptance does not say -----

  ghost predicate NoSharedNumbers(children: seq<Device>) {
    forall i, j :: 0 <= i < j < |children| ==> children[i].partn != children[j].partn
  }

  /** The loop over the listed partitions does not check that their numbers differ.
      Whether they do decides whether every partition of the table is listed. */
  lemma {:induction false} EveryPartitionListed(m: Manifest, disk: Device, table: Table)
    requires m.logicalSectorSize > 0 && PartitionsMatch(m, disk, table)
    requires |disk.children| == |table.partitions| == |m.partitions|
    ensures NoSharedNumbers(disk.children) <==> forall k: u32 :: 1 <= k <= |table.partitions| ==>
              HasNumber(disk.children, k)
  {
    ListedNumbersInRange(m, disk, table);
    NumbersCover(disk.children);
  }

  lemma {:induction false} ListedNumbersInRange(m: Manifest, disk: Device, table: Table)
    requires m.logicalSectorSize > 0 && PartitionsMatch(m, disk, table) && |disk.children| == |m.partitions|
    ensures |disk.children| < 0x1_0000_0000
    ensures forall j :: 0 <= j < |disk.children| ==> InRange(disk.children[j].partn, |disk.children|)
  {
    forall j | 0 <= j < |disk.children|
      ensures InRange(disk.children[j].partn, |disk.children|)
    {
      ListedInRange(m, disk.children[j]);
    }
    if disk.children != [] {
      var i := ContractOf(m.partitions, |disk.children|);
    }
  }

  predicate InRange(number: Option<u32>, n: nat) {
    number.Some? && 1 <= number.value <= n
  }

  lemma {:induction false} ListedInRange(m: Manifest, child: Device)
    requires m.logicalSectorSize > 0 && WellNumbered(m.partitions) && ChildGoverned(m, child)
    ensures InRange(child.partn, |m.partitions|)
  {
    var i :| 0 <= i < |m.partitions| && child.partn == Some(m.partitions[i].number);
    LookupFindsContract(m.partitions, i);
  }

  function ListedNumbers(children: seq<Device>): seq<int> {
    seq(|children|, i requires 0 <= i < |children| =>
      if children[i].partn.Some? then children[i].partn.value as int else 0)
  }

  lemma {:induction false} NumbersCover(children: seq<Device>)
    requires |children| < 0x1_0000_0000
    requires forall j :: 0 <= j < |children| ==> InRange(children[j].partn, |children|)
    ensures NoSharedNumbers(children) <==> forall k: u32 :: 1 <= k <= |children| ==> HasNumber(children, k)
  {
    if NoSharedNumbers(children) {
      forall k: u32 | 1 <= k <= |children|
        ensures HasNumber(children, k)
      {
        DistinctNumbersCover(children, k);
      }
    }
    if forall k: u32 :: 1 <= k <= |children| ==> HasNumber(children, k) {
      CoveringNumbersDiffer(children);
    }
  }

  lemma {:induction false} DistinctNumbersCover(children: seq<Device>, k: u32)
    requires forall j :: 0 <= j < |children| ==> InRange(children[j].partn, |children|)
    requires NoSharedNumbers(children) && 1 <= k <= |children|
    ensures HasNumber(children, k)
  {
    var n, numbers := |children|, ListedNumbers(children);
    UpToHasNoRepeats(n);
    DistinctCount(numbers);
    FullSelectionIsPermutation(numbers, UpTo(n));
    assert k in UpTo(n);
    assert k in multiset(UpTo(n));
    assert k in multiset(numbers);
    var i :| 0 <= i < n && numbers[i] == k;
  }

  lemma {:induction false} CoveringNumbersDiffer(children: seq<Device>)
    requires |children| < 0x1_0000_0000
    requires forall j :: 0 <= j < |children| ==> InRange(children[j].partn, |children|)
    requires forall k: u32 :: 1 <= k <= |children| ==> HasNumber(children, k)
    ensures NoSharedNumbers(children)
  {
    var n, numbers := |children|, ListedNumbers(children);
    UpToHasNoRepeats(n);
    forall k | k in UpTo(n)
      ensures k in numbers
    {
      assert HasNumber(children, k as u32);
      var i :| 0 <= i < n && children[i].partn == Some(k as u32);
      assert numbers[i] == k;
    }
    FullSelectionIsPermutation(UpTo(n), numbers);
    NoRepeats(UpTo(n));
    PositionsDiffer(numbers);
    forall i, j | 0 <= i < j < n
      ensures children[i].partn != children[j].partn
    {
      assert numbers[i] != numbers[j];
    }
  }

  // ----- changing the booted disk -----

  lemma {:induction false} BootPositionIs(devices: seq<Device>, boot: string, p: nat)
    requires p < |devices| && HoldsBoot(devices[p], boot)
    requires forall j :: 0 <= j < p ==> !HoldsBoot(devices[j], boot)
    ensures BootPosition(devices, boot) == Some(p)
  {
  }

  /** The listing with the booted disk replaced. */
  function Replaced(devices: seq<Device>, boot: string, disk: Device): (changed: seq<Device>)
    requires BootPosition(devices, boot).Some?
  {
    devices[BootPosition(devices, boot).value := disk]
  }

  /** A disk that still holds the booted partition, put in the place of the booted disk, is the booted disk. */
  lemma {:induction false} ReplacedDisk(devices: seq<Device>, boot: string, disk: Device)
    requires BootPosition(devices, boot).Some? && HoldsBoot(disk, boot)
    ensures BootPosition(Replaced(devices, boot, disk), boot) == BootPosition(devices, boot)
    ensures Disk(Replaced(devices, boot, disk), boot) == disk
  {
    var p := BootPosition(devices, boot).value;
    var changed := Replaced(devices, boot, disk);
    forall j | 0 <= j < p
      ensures !HoldsBoot(changed[j], boot)
    {
      assert !HoldsBoot(devices[j], boot);
    }
    BootPositionIs(changed, boot, p);
  }

  /** The numbers need not differ: listing one partition again in place of another
      that has no role is accepted too. */
  lemma {:induction false} RepeatedListingIsAccepted(
      m: Manifest, devices: seq<Device>, table: Table, boot: string, stateMount: Option<string>, j: nat, s: nat)
    requires m.logicalSectorSize > 0 && WellLaidOut(m, devices, table, boot, stateMount)
    requires var children := Disk(devices, boot).children;
             && j < |children| && s < |children|
             && children[j].majorMinor != boot
             && children[j].partn != Some(1)
             && children[j].partn != Some(m.finalStatePartition)
    ensures var disk := Disk(devices, boot);
            var repeated := disk.(children := disk.children[j := disk.children[s]]);
            WellLaidOut(m, Replaced(devices, boot, repeated), table, boot, stateMount)
  {
    var disk := Disk(devices, boot);
    var repeated := disk.(children := disk.children[j := disk.children[s]]);
    RepeatedRolesFilled(m, disk, boot, stateMount, j, s);
    ReplacedDisk(devices, boot, repeated);
    IdentityIgnoresContents(m, disk, table, repeated.children);
    RepeatedPartitionsMatch(m, disk, table, j, s);
  }

  lemma {:induction false} IdentityIgnoresContents(m: Manifest, disk: Device, table: Table, children: seq<Device>)
    requires CheckIdentity(m, disk, table).Ok? && |children| == |disk.children|
    ensures CheckIdentity(m, disk.(children := children), table).Ok?
  {
  }

  lemma {:induction false} RepeatedPartitionsMatch(m: Manifest, disk: Device, table: Table, j: nat, s: nat)
    requires m.logicalSectorSize > 0 && PartitionsMatch(m, disk, table)
    requires j < |disk.children| && s < |disk.children|
    ensures PartitionsMatch(m, disk.(children := disk.children[j := disk.children[s]]), table)
  {
  }

  lemma {:induction false} RepeatedRolesFilled(
      m: Manifest, disk: Device, boot: string, stateMount: Option<string>, j: nat, s: nat)
    requires RolesFilled(m, disk, boot, stateMount) && disk.deviceType == "disk"
    requires j < |disk.children| && s < |disk.children|
    requires var child := disk.children[j];
             child.majorMinor != boot && child.partn != Some(1) && child.partn != Some(m.finalStatePartition)
    ensures var repeated := disk.(children := disk.children[j := disk.children[s]]);
            RolesFilled(m, repeated, boot, stateMount) && HoldsBoot(repeated, boot)
  {
    var repeated := disk.(children := disk.children[j := disk.children[s]]);
    var root :|
      0 <= root < |disk.children| && disk.children[root].majorMinor == boot && RootLabel(disk.children[root].fsLabel);
    assert repeated.children[root] == disk.children[root];
    var final: nat :| IsFinal(disk.children, final, m.finalStatePartition);
    assert IsFinal(repeated.children, final, m.finalStatePartition);
    var efi :| 0 <= efi < |disk.children| && disk.children[efi].partn == Some(1);
    assert repeated.children[efi] == disk.children[efi];
  }

  // ----- the image as it is built -----

  /** How a partition that is exactly as its contract says is listed. */
  function ListedAs(m: Manifest, contract: Contract, majorMinor: string): Device
    requires contract.minimumSizeLba * m.logicalSectorSize < 0x1_0000_0000_0000_0000
  {
    Device(majorMinor, "", "part", contract.minimumSizeLba * m.logicalSectorSize, false, None, Some(contract.number),
           Some(contract.typeGuid), Some(contract.uniqueGuid), Some(contract.startLba), None, None, [],
           Some(contract.fsLabel), [])
  }

  /** Partitions numbered in order, the last of them for the state, none starting after it. */
  ghost predicate BuiltInOrder(m: Manifest) {
    var n := |m.partitions|;
    && m.schema == LAYOUT_SCHEMA && m.partitionTable == "mbr"
    && m.logicalSectorSize > 0 && n > 0 && m.finalStatePartition == n
    && m.partitions[n - 1].fsLabel == "RIGOS_STATE_SEED"
    && forall i :: 0 <= i < n ==> FitsInOrder(m, i)
  }

  predicate FitsInOrder(m: Manifest, i: nat)
    requires i < |m.partitions|
  {
    var contract := m.partitions[i];
    && contract.number == i + 1
    && contract.startLba <= m.partitions[|m.partitions| - 1].startLba
    && contract.minimumSizeLba * m.logicalSectorSize < 0x1_0000_0000_0000_0000
  }

  function BuiltTable(m: Manifest): Table {
    Table("dos", m.diskGuid, seq(|m.partitions|, i requires 0 <= i < |m.partitions| =>
      Entry(m.partitions[i].startLba, m.partitions[i].minimumSizeLba, m.partitions[i].typeGuid, i == 0)))
  }

  function BuiltDisk(m: Manifest, names: seq<string>, bytes: u64): Device
    requires BuiltInOrder(m) && |names| == |m.partitions|
  {
    Device("", "", "disk", bytes, false, Some("usb"), None, None, None, None, Some("dos"), Some(m.diskGuid), [], None,
           seq(|m.partitions|, i requires 0 <= i < |m.partitions| && FitsInOrder(m, i) => ListedAs(m, m.partitions[i],
               names[i])))
  }

  lemma {:induction false} BuiltNumbering(m: Manifest)
    requires BuiltInOrder(m)
    ensures WellNumbered(m.partitions)
  {
    forall i | 0 <= i < |m.partitions|
      ensures Numbers(m.partitions)[i] == UpTo(|m.partitions|)[i]
    {
      assert FitsInOrder(m, i);
    }
    assert Numbers(m.partitions) == UpTo(|m.partitions|);
  }

  lemma {:induction false} BuiltPartitionMatches(m: Manifest, names: seq<string>, bytes: u64, i: nat)
    requires BuiltInOrder(m) && |names| == |m.partitions| && i < |m.partitions|
    ensures EntryGoverned(m.partitions, m.partitions[i], BuiltTable(m).partitions)
    ensures ChildGoverned(m, BuiltDisk(m, names, bytes).children[i])
  {
    assert FitsInOrder(m, i);
    DivideBytes(m.partitions[i].minimumSizeLba, m.logicalSectorSize);
    var child := BuiltDisk(m, names, bytes).children[i];
    assert ChildMatches(m, m.partitions[i], m.partitions[i].number, child);
  }

  lemma {:induction false} BuiltRolesFilled(m: Manifest, names: seq<string>, bytes: u64, boot: string, root: nat)
    requires BuiltInOrder(m) && |names| == |m.partitions|
    requires root < |names| && names[root] == boot && RootLabel(Some(m.partitions[root].fsLabel))
    ensures RolesFilled(m, BuiltDisk(m, names, bytes), boot, None)
  {
    var children, n := BuiltDisk(m, names, bytes).children, |m.partitions|;
    assert children[root].majorMinor == boot && RootLabel(children[root].fsLabel);
    assert FitsInOrder(m, n - 1) && FitsInOrder(m, 0);
    forall j | 0 <= j < n
      ensures children[j].start.value <= children[n - 1].start.value
    {
      assert FitsInOrder(m, j);
    }
    assert IsFinal(children, n - 1, m.finalStatePartition);
    assert children[0].partn == Some(1);
  }

  lemma {:induction false} BuiltPartitionsMatch(m: Manifest, names: seq<string>, bytes: u64)
    requires BuiltInOrder(m) && |names| == |m.partitions|
    ensures PartitionsMatch(m, BuiltDisk(m, names, bytes), BuiltTable(m))
  {
    BuiltNumbering(m);
    forall i | 0 <= i < |m.partitions|
      ensures EntryGoverned(m.partitions, m.partitions[i], BuiltTable(m).partitions)
      ensures ChildGoverned(m, BuiltDisk(m, names, bytes).children[i])
    {
      BuiltPartitionMatches(m, names, bytes, i);
    }
  }

  lemma {:induction false} BuiltIdentityChecked(m: Manifest, names: seq<string>, bytes: u64)
    requires BuiltInOrder(m) && |names| == |m.partitions| && bytes >= m.minimumMediaSizeBytes
    ensures CheckIdentity(m, BuiltDisk(m, names, bytes), BuiltTable(m)).Ok? && HeadersMatch(m, BuiltTable(m))
  {
  }

  lemma {:induction false} SoleDisk(disk: Device, boot: string)
    requires HoldsBoot(disk, boot)
    ensures BootPosition([disk], boot) == Some(0) && Disk([disk], boot) == disk
  {
    BootPositionIs([disk], boot, 0);
  }

  /** The image as it is built, on media of sufficient size, is accepted. */
  lemma {:induction false} BuiltImageIsAccepted(m: Manifest, names: seq<string>, bytes: u64, boot: string, root: nat)
    requires BuiltInOrder(m) && |names| == |m.partitions| && bytes >= m.minimumMediaSizeBytes
    requires root < |names| && names[root] == boot && RootLabel(Some(m.partitions[root].fsLabel))
    ensures WellLaidOut(m, [BuiltDisk(m, names, bytes)], BuiltTable(m), boot, None)
  {
    var disk := BuiltDisk(m, names, bytes);
    BuiltPartitionsMatch(m, names, bytes);
    BuiltRolesFilled(m, names, bytes, boot, root);
    BuiltIdentityChecked(m, names, bytes);
    assert disk.children[root].majorMinor == boot;
    SoleDisk(disk, boot);
  }
}
