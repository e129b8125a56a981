/**
 * The check on the parameters of a new partition, on 64-bit integers: an operation that would
 * overflow or divide by zero yields `Undefined` instead of a value.
 */
module Sectors {
  import opened Wrappers
  import opened Decimal
  import opened Divisors

  const INT32_MAX := 0x7fff_ffff
  const INT64_MIN := -0x8000_0000_0000_0000
  const INT64_MAX := 0x7fff_ffff_ffff_ffff

  datatype Checked<T> = Value(value: T) | Undefined

  predicate IsInt64(n: int) {
    INT64_MIN <= n <= INT64_MAX
  }

  function Mul64(a: int, b: int): Checked<int> {
    if IsInt64(a * b) then Value(a * b) else Undefined
  }

  /** C++ remainder: it takes the sign of the dividend. */
  function Rem64(a: int, b: int): Checked<int> {
    if b == 0 || (a == INT64_MIN && b == -1) then Undefined
    else
      var m := if b > 0 then b else -b;
      Value(if a >= 0 then a % m else -((-a) % m))
  }

  // ---------- the parsed table ----------

  datatype TableInfo = TableInfo(sectorSize: int, alignSector: int, lastUsableSector: int)

  datatype Params = Params(startSector: int, endSector: int, typeCode: string)

  /** `ConvertStringToInt32`: one to ten digits, no leading zero, below the largest 32-bit number. */
  function ConvertStringToInt32(s: string): Option<int> {
    if 1 <= |s| <= 10 && AllDigits(s) && s[0] != '0' && Decimal.Value(s) < INT32_MAX then Some(Decimal.Value(s))
    else None
  }

  lemma {:induction false} LeadingDigit(s: string)
    requires s != "" && AllDigits(s) && s[0] != '0'
    ensures Decimal.Value(s) >= 1
  {
    if |s| > 1 {
      LeadingDigit(s[..|s| - 1]);
    }
  }

  lemma {:induction false} PositiveDecimal(n: nat)
    requires n >= 1
    ensures ToString(n)[0] != '0'
  {
    if n >= 10 {
      PositiveDecimal(n / 10);
    }
  }

  lemma TenDigits(n: nat)
    requires n < INT32_MAX
    ensures |ToString(n)| <= 10
  {
    ToStringLength(n, 10);
    assert Pow10(4) == 10000 && Pow10(7) == 1000 * Pow10(4) && Pow10(10) == 1000 * Pow10(7);
  }

  /** Every number in range is read back from its decimal form, and nothing else is read. */
  lemma ConvertExactly(s: string, n: int)
    ensures ConvertStringToInt32(s) == Some(n) ==> 1 <= n < INT32_MAX
    ensures 1 <= n < INT32_MAX ==> ConvertStringToInt32(ToString(n)) == Some(n)
  {
    if ConvertStringToInt32(s) == Some(n) {
      LeadingDigit(s);
    }
    if 1 <= n < INT32_MAX {
      ValueOfToString(n);
      PositiveDecimal(n);
      TenDigits(n);
    }
  }

  /** What the setters leave in a table that was parsed: both sizes went through the conversion. */
  predicate Parsed(t: TableInfo) {
    1 <= t.sectorSize < INT32_MAX && 1 <= t.alignSector < INT32_MAX && 0 <= t.lastUsableSector <= INT64_MAX
  }

  // ---------- the check ----------

  const MIB := 1024 * 1024

  function MinimumSize(typeCode: string): int {
    if typeCode in {"vfat", "ext4", "f2fs", "hmfs"} then 16 * MIB
    else if typeCode == "exfat" then 32 * MIB
    else if typeCode == "ntfs" then 4 * MIB
    else INT64_MIN
  }

  predicate SupportedTypeCode(typeCode: string) {
    typeCode in {"vfat", "exfat", "ntfs", "ext4", "f2fs", "hmfs"}
  }

  function IsParamsValid(p: Params, t: TableInfo): Checked<bool> {
    if p.startSector > t.lastUsableSector || p.startSector < t.alignSector then Value(false)
    else
      var bytes := Mul64(p.startSector, t.sectorSize);
      if bytes.Undefined? then Undefined
      else
        var rest := Rem64(bytes.value, t.alignSector);
        if rest.Undefined? then Undefined
        else if rest.value != 0 then Value(false)
        else if p.endSector > t.lastUsableSector || p.endSector < t.alignSector then Value(false)
        else
          var interval := Mul64(p.endSector - p.startSector + 1, t.sectorSize);
          if interval.Undefined? then Undefined
          else Value(interval.value >= MinimumSize(p.typeCode))
  }

  // ---------- no overflow, no division by zero ----------

  lemma Monotone64(a: int, b: int, c: int)
    requires 0 <= c && a <= b
    ensures a * c <= b * c
  {
  }

  /**
   * On a parsed table the check is defined for all parameters exactly when the table has no usable
   * aligned sector or its last usable sector starts below 2^63 bytes.
   */
  lemma DefinedExactly(t: TableInfo)
    requires Parsed(t)
    ensures (forall p: Params :: IsParamsValid(p, t) != Undefined)
            <==> (t.lastUsableSector < t.alignSector || IsInt64(t.lastUsableSector * t.sectorSize))
  {
    var last, size := t.lastUsableSector, t.sectorSize;
    if last >= t.alignSector && !IsInt64(last * size) {
      var p := Params(last, last, "vfat");
      assert IsParamsValid(p, t) == Undefined;
    } else {
      forall p: Params ensures IsParamsValid(p, t) != Undefined {
        DefinedOn(p, t);
      }
    }
  }

  lemma DefinedOn(p: Params, t: TableInfo)
    requires Parsed(t)
    requires t.lastUsableSector < t.alignSector || IsInt64(t.lastUsableSector * t.sectorSize)
    ensures IsParamsValid(p, t) != Undefined
  {
    var last, size := t.lastUsableSector, t.sectorSize;
    if t.alignSector <= p.startSector <= last {
      Monotone64(0, p.startSector, size);
      Monotone64(p.startSector, last, size);
      if t.alignSector <= p.endSector <= last {
        Monotone64(p.endSector - p.startSector + 1, last, size);
        Monotone64(-last, p.endSector - p.startSector + 1, size);
        assert (-last) * size == -(last * size);
      }
    }
  }

  /** In particular, whenever the whole usable area ends below 2^63 bytes. */
  lemma SmallDiskIsDefined(p: Params, t: TableInfo)
    requires Parsed(t) && (t.lastUsableSector + 1) * t.sectorSize <= INT64_MAX
    ensures IsParamsValid(p, t) != Undefined
  {
    Monotone64(t.lastUsableSector, t.lastUsableSector + 1, t.sectorSize);
    Monotone64(0, t.lastUsableSector, t.sectorSize);
    DefinedOn(p, t);
  }

  // ---------- what acceptance means ----------

  /**
   * Accepted exactly when: the range lies between the alignment and the last usable sector, in
   * order, is large enough for the filesystem, and starts on a multiple of the alignment divided
   * by what it has in common with the sector size.
   */
  lemma AcceptedExactly(p: Params, t: TableInfo)
    requires Parsed(t) && SupportedTypeCode(p.typeCode)
    requires (t.lastUsableSector + 1) * t.sectorSize <= INT64_MAX
    ensures t.alignSector / Gcd(t.alignSector, t.sectorSize) > 0
    ensures IsParamsValid(p, t) == Value(true)
            <==> && t.alignSector <= p.startSector <= p.endSector <= t.lastUsableSector
                 && (p.endSector - p.startSector + 1) * t.sectorSize >= MinimumSize(p.typeCode)
                 && Divides(t.alignSector / Gcd(t.alignSector, t.sectorSize), p.startSector)
  {
    SmallDiskIsDefined(p, t);
    DividesProduct(t.alignSector, t.sectorSize, p.startSector);
    SizeOrdersEnds(p, t);
    if p.startSector >= t.alignSector {
      Monotone64(0, p.startSector, t.sectorSize);
    }
    hide Gcd;
  }

  /** Every supported filesystem needs some room, so a large enough range ends after it starts. */
  lemma SizeOrdersEnds(p: Params, t: TableInfo)
    requires Parsed(t) && SupportedTypeCode(p.typeCode)
    ensures MinimumSize(p.typeCode) > 0
    ensures (p.endSector - p.startSector + 1) * t.sectorSize >= MinimumSize(p.typeCode) ==> p.startSector <= p.endSector
  {
    if p.endSector < p.startSector {
      Monotone64(p.endSector - p.startSector + 1, 0, t.sectorSize);
    }
  }

  /** The check asks for whole aligned sectors exactly when alignment and sector size are coprime. */
  lemma AlignmentIsExact(t: TableInfo)
    requires Parsed(t)
    ensures (forall start :: Divides(t.alignSector, start * t.sectorSize) <==> Divides(t.alignSector, start))
            <==> Gcd(t.alignSector, t.sectorSize) == 1
  {
    var a, size := t.alignSector, t.sectorSize;
    var g := Gcd(a, size);
    if g == 1 {
      forall start ensures Divides(a, start * size) <==> Divides(a, start) {
        DividesProduct(a, size, start);
      }
    } else {
      var x, y := GcdSpec(a, size);
      var k := Quotient(g, a);
      DividesProduct(a, size, k);
      ProperFactor(g, k, a);
      MultipleDivides(k, 1);
    }
  }

  lemma ProperFactor(g: int, k: int, a: int)
    requires g > 1 && a > 0 && a == g * k
    ensures 0 < k < a && !Divides(a, k)
  {
    if k <= 0 { Divisors.Monotone(g, k, 0); }
    Divisors.Monotone(k, 2, g);
  }

  /** With the usual 512-byte sectors and 2048-sector alignment, sector 2052 is accepted. */
  lemma MisalignedAccepted()
    ensures var t := TableInfo(512, 2048, 1000000);
            var p := Params(2052, 100000, "vfat");
            IsParamsValid(p, t) == Value(true) && p.startSector % t.alignSector != 0
  {
  }
}
