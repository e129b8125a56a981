/** Device numbers and the ids printed from them (`uevent_bootstrap.cpp`). */
module Ids {
  import opened Decimal
  import opened Text

  const UINT32_RANGE := 0x1_0000_0000
  const ULONG_MAX := 0xFFFF_FFFF_FFFF_FFFF
  const MAJORID_BLKEXT := 259
  const MAX_SCSI_VOLUMES := 15
  const MAX_PARTITION := 16

  datatype Dev = Dev(major: nat, minor: nat)

  predicate IsUint32(n: nat) {
    n < UINT32_RANGE
  }

  function DiskIdFrom(maj: nat, min: nat): string {
    "disk-" + ToString(maj) + "-" + ToString(min)
  }

  function VolIdFromDev(d: Dev): string {
    "vol-" + ToString(d.major) + "-" + ToString(d.minor)
  }

  /** `strtoul` saturates, the cast keeps the low 32 bits. */
  function ParseUint(s: string): nat
    requires AllDigits(s)
  {
    (if Value(s) > ULONG_MAX then ULONG_MAX else Value(s)) % UINT32_RANGE
  }

  /** The shape the caller guarantees: `disk-` digits `-` digits. */
  predicate HasDiskIdShape(s: string) {
    var dash := LastIndex(s, '-');
    5 <= dash && AllDigits(s[5..dash]) && AllDigits(s[dash + 1..])
  }

  function ParseDiskIdToMajMin(s: string): (nat, nat)
    requires HasDiskIdShape(s)
  {
    var dash := LastIndex(s, '-');
    (ParseUint(s[5..dash]), ParseUint(s[dash + 1..]))
  }

  /** Partitions past the fifteenth live under the extended block major, whatever the disk. */
  function PartitionDev(diskMaj: nat, diskMin: nat, part: nat): Dev {
    if part > MAX_SCSI_VOLUMES then Dev(MAJORID_BLKEXT, part - MAX_PARTITION)
    else Dev(diskMaj, (diskMin + part) % UINT32_RANGE)
  }

  // ---------- two numbers joined by a dash ----------

  /** The last dash of `p + digits + "-" + digits` separates the two numbers. */
  lemma DashPosition(p: string, a: string, b: string)
    requires AllDigits(a) && AllDigits(b)
    ensures var s := p + a + "-" + b;
            && LastIndex(s, '-') == |p| + |a|
            && s[|p|..|p| + |a|] == a
            && s[|p| + |a| + 1..] == b
            && IndexFrom(s, '-', |p|) == |p| + |a|
            && IndexFrom(s, '-', |p| + |a| + 1) == |s|
  {
    var s := p + a + "-" + b;
    var k := |p| + |a|;
    assert s[|p|..k] == a && s[k + 1..] == b;
    assert s[k] == '-';
    assert forall i :: k < i < |s| ==> s[i] == b[i - k - 1];
    assert forall i :: |p| <= i < k ==> s[i] == a[i - |p|];
  }

  lemma JoinedInjective(p: string, a: nat, b: nat, c: nat, d: nat)
    requires p + ToString(a) + "-" + ToString(b) == p + ToString(c) + "-" + ToString(d)
    ensures a == c && b == d
  {
    hide ToString, LastIndex, IndexFrom;
    DashPosition(p, ToString(a), ToString(b));
    DashPosition(p, ToString(c), ToString(d));
    ToStringInjective(a, c);
    ToStringInjective(b, d);
  }

  /** Parsing a printed disk id returns the device numbers, for every pair of 32-bit numbers. */
  lemma DiskIdRoundTrip(maj: nat, min: nat)
    requires IsUint32(maj) && IsUint32(min)
    ensures HasDiskIdShape(DiskIdFrom(maj, min))
    ensures ParseDiskIdToMajMin(DiskIdFrom(maj, min)) == (maj, min)
  {
    DashPosition("disk-", ToString(maj), ToString(min));
    ValueOfToString(maj);
    ValueOfToString(min);
  }

  /** A printed volume id reads major, dash, minor, in this order, for every device. */
  lemma VolIdReads(d: Dev)
    ensures var s := VolIdFromDev(d); var dash := LastIndex(s, '-');
            && StartsWith(s, "vol-") && 4 < dash < |s| - 1
            && AllDigits(s[4..dash]) && Value(s[4..dash]) == d.major
            && AllDigits(s[dash + 1..]) && Value(s[dash + 1..]) == d.minor
  {
    DashPosition("vol-", ToString(d.major), ToString(d.minor));
    ValueOfToString(d.major);
    ValueOfToString(d.minor);
  }

  /** Distinct devices print as distinct volume ids. */
  lemma VolIdInjective(d: Dev, e: Dev)
    requires VolIdFromDev(d) == VolIdFromDev(e)
    ensures d == e
  {
    JoinedInjective("vol-", d.major, d.minor, e.major, e.minor);
  }

  // ---------- which printed ids the validators accept ----------

  predicate Plain(s: string) {
    forall i :: 0 <= i < |s| ==> s[i] !in {'/', '\\', '%', '\0'}
  }

  lemma PlainIsNotInvalid(s: string)
    requires s != "" && Plain(s)
    ensures !PathInvalid(s)
  {
    forall k | 0 <= k < |ENCODED_PATTERNS| ensures !Contains(s, ENCODED_PATTERNS[k]) {
      var pat := ENCODED_PATTERNS[k];
      assert pat != "" && pat[0] in {'%', '\0'};
      forall i ensures !OccursAt(s, pat, i) {
        OccurrenceChar(s, pat, i, 0);
      }
    }
  }

  lemma JoinedNotInvalid(p: string, a: nat, b: nat)
    requires Plain(p)
    ensures !PathInvalid(p + ToString(a) + "-" + ToString(b))
  {
    var s := p + ToString(a) + "-" + ToString(b);
    assert Plain(ToString(a)) && Plain("-") && Plain(ToString(b));
    PlainIsNotInvalid(s);
  }

  lemma FourDigits(n: nat)
    ensures |ToString(n)| <= 4 <==> n <= 9999
  {
    assert Pow10(1) == 10 && Pow10(2) == 100 && Pow10(3) == 1000 && Pow10(4) == 10000;
    ToStringLength(n, 4);
  }

  lemma SegmentsOf(s: string, p: string, a: string, b: string)
    requires a != "" && b != "" && AllDigits(a) && AllDigits(b) && s == p + a + "-" + b
    ensures TwoNumericSegments(s, |p|) <==> |a| <= 4 && |b| <= 4
  {
    DashPosition(p, a, b);
  }

  lemma JoinedSegments(p: string, a: nat, b: nat)
    ensures var s := p + ToString(a) + "-" + ToString(b);
            && StartsWith(s, p)
            && (TwoNumericSegments(s, |p|) <==> a <= 9999 && b <= 9999)
  {
    var s := p + ToString(a) + "-" + ToString(b);
    SegmentsOf(s, p, ToString(a), ToString(b));
    FourDigits(a);
    FourDigits(b);
  }

  /** The disk id validator accepts a printed id exactly when both numbers have at most four digits. */
  lemma DiskIdValidExactly(maj: nat, min: nat)
    ensures IsDiskIdValid(DiskIdFrom(maj, min)) <==> maj <= 9999 && min <= 9999
  {
    JoinedNotInvalid("disk-", maj, min);
    JoinedSegments("disk-", maj, min);
  }

  /** Likewise for the volume id validator on block volumes. */
  lemma VolIdValidExactly(d: Dev)
    ensures IsVolumeIdValid(VolIdFromDev(d)) <==> d.major <= 9999 && d.minor <= 9999
  {
    JoinedNotInvalid("vol-", d.major, d.minor);
    JoinedSegments("vol-", d.major, d.minor);
    var s := VolIdFromDev(d);
    assert s[0] == 'v' && IsDigit(s[4]) by {
      assert s[4] == ToString(d.major)[0];
    }
    assert !StartsWith(s, "mtp-") by { assert "mtp-"[0] == 'm'; }
    assert !StartsWith(s, "ptp-") by { assert "ptp-"[0] == 'p'; }
    assert !StartsWith(s, "vol-crypt-") by { assert "vol-crypt-"[4] == 'c'; }
  }

  // ---------- distinct partitions, distinct volume ids ----------

  /**
   * Two partitions of one disk share a volume id exactly when they are the same partition, or the
   * disk itself has the extended major and a low partition lands on a high one's minor.
   */
  lemma PartitionIdsCollide(maj: nat, min: nat, p: nat, q: nat)
    requires IsUint32(p) && IsUint32(q) && p <= q
    ensures VolIdFromDev(PartitionDev(maj, min, p)) == VolIdFromDev(PartitionDev(maj, min, q))
            <==> p == q
                 || (maj == MAJORID_BLKEXT && p <= MAX_SCSI_VOLUMES < q
                     && (min + p) % UINT32_RANGE == q - MAX_PARTITION)
  {
    var d, e := PartitionDev(maj, min, p), PartitionDev(maj, min, q);
    if VolIdFromDev(d) == VolIdFromDev(e) {
      VolIdInjective(d, e);
      if q <= MAX_SCSI_VOLUMES {
        var a, b := (min + p) / UINT32_RANGE, (min + q) / UINT32_RANGE;
        assert min + p == a * UINT32_RANGE + d.minor && min + q == b * UINT32_RANGE + e.minor;
        assert q - p == (b - a) * UINT32_RANGE;
        assert b == a;
      }
    }
  }

  /** Two partitions, of one disk or of two, have the same device number. */
  predicate SameDevice(maj1: nat, min1: nat, p: nat, maj2: nat, min2: nat, q: nat) {
    if p > MAX_SCSI_VOLUMES && q > MAX_SCSI_VOLUMES then p == q
    else if p > MAX_SCSI_VOLUMES then maj2 == MAJORID_BLKEXT && (min2 + q) % UINT32_RANGE == p - MAX_PARTITION
    else if q > MAX_SCSI_VOLUMES then maj1 == MAJORID_BLKEXT && (min1 + p) % UINT32_RANGE == q - MAX_PARTITION
    else maj1 == maj2 && (min1 + p) % UINT32_RANGE == (min2 + q) % UINT32_RANGE
  }

  /**
   * Partitions of two disks share a volume id exactly then. Past the fifteenth partition the disk
   * drops out of the id, so any two disks collide on an equal number.
   */
  lemma VolumeIdsCollideExactly(maj1: nat, min1: nat, p: nat, maj2: nat, min2: nat, q: nat)
    ensures VolIdFromDev(PartitionDev(maj1, min1, p)) == VolIdFromDev(PartitionDev(maj2, min2, q))
            <==> SameDevice(maj1, min1, p, maj2, min2, q)
  {
    var d, e := PartitionDev(maj1, min1, p), PartitionDev(maj2, min2, q);
    if VolIdFromDev(d) == VolIdFromDev(e) {
      VolIdInjective(d, e);
    }
  }

  /** The numbers a disk with up to fifteen partitions takes: its own minor and the fifteen after it. */
  predicate Apart(maj1: nat, min1: nat, maj2: nat, min2: nat) {
    maj1 != maj2 || min1 + MAX_SCSI_VOLUMES < min2 || min2 + MAX_SCSI_VOLUMES < min1
  }

  /** Two disks never collide on their first fifteen partitions or on themselves exactly when they are apart. */
  lemma ApartExactly(maj1: nat, min1: nat, maj2: nat, min2: nat)
    requires min1 + MAX_SCSI_VOLUMES < UINT32_RANGE && min2 + MAX_SCSI_VOLUMES < UINT32_RANGE
    ensures Apart(maj1, min1, maj2, min2)
            <==> forall p: nat, q: nat :: p <= MAX_SCSI_VOLUMES && q <= MAX_SCSI_VOLUMES ==>
                   !SameDevice(maj1, min1, p, maj2, min2, q)
  {
    if !Apart(maj1, min1, maj2, min2) {
      var p, q := if min1 <= min2 then min2 - min1 else 0, if min1 <= min2 then 0 else min1 - min2;
      assert SameDevice(maj1, min1, p, maj2, min2, q);
    }
  }
}
