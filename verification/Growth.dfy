/** Growing the state partition: the geometry, what the grown disk is, and the fixpoint. */
module Growth {
  import opened Layout
  import opened LayoutFacts
  import opened Multiples
  import opened Wrappers

  // ----- geometry -----

  datatype GeometryError = InvalidDisk | InvalidState

  /** The sectors of the disk, rounded down to the alignment. */
  function AlignedSectors(m: Manifest, diskBytes: u64): (aligned: u64)
    requires m.logicalSectorSize > 0 && m.alignmentLba > 0
  {
    var diskSectors: u64 := diskBytes / m.logicalSectorSize;
    AlignedDown(diskSectors, m.alignmentLba);
    (diskSectors / m.alignmentLba) * m.alignmentLba
  }

  function CheckedSub(a: u64, b: u64): Option<u64> {
    if a < b then None else Some(a - b)
  }

  function CheckedAdd(a: u64, b: u64): Option<u64> {
    if a + b > 0xFFFF_FFFF_FFFF_FFFF then None else Some(a + b)
  }

  function SizeFrom(alignedSectors: u64, stateStart: u64): (r: Result<u64, GeometryError>)
    ensures if alignedSectors > stateStart then r == Ok(alignedSectors - stateStart) else r.Err?
  {
    var alignedEnd := CheckedSub(alignedSectors, 1);
    if alignedEnd.None? then Err(InvalidDisk)
    else
      var span := CheckedSub(alignedEnd.value, stateStart);
      var size := if span.None? then None else CheckedAdd(span.value, 1);
      if size.None? then Err(InvalidState) else Ok(size.value)
  }

  /** Up to the last aligned sector of the disk, from the state partition's start. */
  function IntendedSize(m: Manifest, diskBytes: u64, stateStart: u64): Result<u64, GeometryError>
    requires m.logicalSectorSize > 0 && m.alignmentLba > 0
  {
    SizeFrom(AlignedSectors(m, diskBytes), stateStart)
  }

  /** Growth arithmetic: the grown partition ends on the last aligned boundary of the
      disk, and a size is produced exactly if some boundary lies beyond the start. */
  lemma {:induction false} GrowthReachesLastBoundary(m: Manifest, diskBytes: u64, stateStart: u64)
    requires m.logicalSectorSize > 0 && m.alignmentLba > 0
    ensures var sectors, r := diskBytes / m.logicalSectorSize, IntendedSize(m, diskBytes, stateStart);
            && (r.Ok? ==>
                  && r.value > 0
                  && (stateStart + r.value) % m.alignmentLba == 0
                  && stateStart + r.value <= sectors < stateStart + r.value + m.alignmentLba)
            && (r.Err? ==> forall k: nat :: k * m.alignmentLba <= sectors ==> k * m.alignmentLba <= stateStart)
  {
    var sectors := diskBytes / m.logicalSectorSize;
    AlignedDown(sectors, m.alignmentLba);
    forall k: nat | k * m.alignmentLba <= sectors
      ensures k * m.alignmentLba <= (sectors / m.alignmentLba) * m.alignmentLba
    {
      LastAligned(sectors, m.alignmentLba, k);
    }
  }

  // ----- the record of the initialized state -----

  datatype Record = Record(partitionNumber: u32, startLba: u64, endLba: u64, capacityBytes: u64)

  lemma {:induction false} SizeFitsDisk(m: Manifest, diskBytes: u64, stateStart: u64, size: u64)
    requires m.logicalSectorSize > 0 && m.alignmentLba > 0
    requires IntendedSize(m, diskBytes, stateStart) == Ok(size)
    ensures (stateStart + size) * m.logicalSectorSize <= diskBytes
    ensures size * m.logicalSectorSize <= diskBytes
  {
    GrowthReachesLastBoundary(m, diskBytes, stateStart);
    var sectors := diskBytes / m.logicalSectorSize;
    assert sectors * m.logicalSectorSize <= diskBytes;
    assert (stateStart + size) * m.logicalSectorSize <= sectors * m.logicalSectorSize;
    assert size * m.logicalSectorSize <= (stateStart + size) * m.logicalSectorSize;
  }

  /** The record written after initialization; none of its unchecked operations overflows. */
  function RecordFor(m: Manifest, v: Verified, size: u64): (r: Record)
    requires m.logicalSectorSize > 0 && m.alignmentLba > 0
    requires IntendedSize(m, v.diskSizeBytes, v.stateStartLba) == Ok(size)
    ensures r.startLba <= r.endLba < v.diskSizeBytes / m.logicalSectorSize
    ensures (r.endLba + 1) % m.alignmentLba == 0
    ensures r.capacityBytes == (r.endLba + 1 - r.startLba) * m.logicalSectorSize <= v.diskSizeBytes
  {
    GrowthReachesLastBoundary(m, v.diskSizeBytes, v.stateStartLba);
    SizeFitsDisk(m, v.diskSizeBytes, v.stateStartLba, size);
    var beyond: u64 := v.stateStartLba + size;
    var end: u64 := beyond - 1;
    var capacity: u64 := size * m.logicalSectorSize;
    Record(m.finalStatePartition, v.stateStartLba, end, capacity)
  }

  /** The record gives the partition's real extent exactly if the intended size is
      the partition's size; a partition that is already larger is understated. */
  lemma {:induction false} RecordIsExact(m: Manifest, v: Verified, size: u64)
    requires m.logicalSectorSize > 0 && m.alignmentLba > 0
    requires IntendedSize(m, v.diskSizeBytes, v.stateStartLba) == Ok(size)
    ensures var r := RecordFor(m, v, size);
            && (r.endLba + 1 == v.stateStartLba + v.stateSizeLba <==> size == v.stateSizeLba)
            && (r.capacityBytes == v.stateSizeLba * m.logicalSectorSize <==> size == v.stateSizeLba)
            && r.capacityBytes == (r.endLba + 1 - r.startLba) * m.logicalSectorSize
  {
    GrowthReachesLastBoundary(m, v.diskSizeBytes, v.stateStartLba);
    if size < v.stateSizeLba {
      MulMonotone(size + 1, v.stateSizeLba, m.logicalSectorSize);
    } else if v.stateSizeLba < size {
      MulMonotone(v.stateSizeLba + 1, size, m.logicalSectorSize);
    }
  }

  // ----- the partition type as it is written back -----

  predicate StartsHex(s: string) {
    |s| >= 2 && s[0] == '0' && s[1] == 'x'
  }

  function TrimHexPrefixes(s: string): string {
    if StartsHex(s) then TrimHexPrefixes(s[2..]) else s
  }

  lemma {:induction false} DigitsOnly(s: string, i: nat)
    requires i < |s| && HexDigit(s[i]).None?
    ensures HexNumber(s).None?
  {
    if i < |s| - 1 {
      DigitsOnly(s[..|s| - 1], i);
    }
  }

  /** Trimming a readable type does not change what it says. */
  lemma {:induction false} TrimmedTypeReadsTheSame(s: string)
    requires ParseType(s).Some?
    ensures ParseType(TrimHexPrefixes(s)) == ParseType(s)
  {
    if StartsHex(s) {
      var rest := s[2..];
      assert StripHexPrefix(s) == rest;
      if |rest| >= 2 && rest[0] == '0' && (rest[1] == 'x' || rest[1] == 'X') {
        DigitsOnly(rest, 1);
        assert false;
      }
      assert StripHexPrefix(rest) == rest && TrimHexPrefixes(rest) == rest;
    }
  }

  /** An unreadable type can become readable, and then no longer matches. */
  lemma {:induction false} DoublePrefixChangesType()
    ensures ParseType("0x0x83") == None && ParseType(TrimHexPrefixes("0x0x83")) == Some(0x83)
  {
    assert "0x0x83"[2..] == "0x83" && "0x83"[2..] == "83";
    assert StripHexPrefix("0x0x83") == "0x83";
    DigitsOnly("0x83", 1);
    assert TrimHexPrefixes("0x0x83") == "83" && StripHexPrefix("83") == "83";
    assert "83"[..1] == "8" && "8"[..0] == "";
    assert HexNumber("8") == Some(8);
  }

  // ----- the overlap with other partitions -----

  ghost predicate Overlaps(aStart: nat, aSize: nat, bStart: nat, bSize: nat) {
    exists s :: InRun(s, aStart, aSize) && InRun(s, bStart, bSize)
  }

  predicate InRun(s: int, start: nat, size: nat) {
    start <= s < start + size
  }

  lemma {:induction false} OverlapMeans(aStart: nat, aSize: nat, bStart: nat, bSize: nat)
    ensures Overlaps(aStart, aSize, bStart, bSize) <==>
            aSize > 0 && bSize > 0 && aStart < bStart + bSize && bStart < aStart + aSize
  {
    if aSize > 0 && bSize > 0 && aStart < bStart + bSize && bStart < aStart + aSize {
      var s := if aStart < bStart then bStart else aStart;
      assert InRun(s, aStart, aSize) && InRun(s, bStart, bSize);
    }
  }
}
