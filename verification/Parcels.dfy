/**
 * What crosses the process boundary: partition tables, disks and volumes written to a parcel and
 * read back. A parcel is a sequence of typed tokens with a read cursor.
 */
module Parcels {
  import opened Wrappers

  const PARCEL_STRING_MAX_LEN := 4096
  const PARTITION_COUNT_MAX := 256
  const DISK_VOLUME_IDS_PARCEL_MAX := 256

  datatype Token = Int32(i: int) | Int64(l: int) | Uint32(n: nat) | Uint64(u: nat) | Bool(b: bool) | Str(s: string)

  datatype PartitionInfo = PartitionInfo(
    partitionNum: int, diskId: string, startSector: int, endSector: int, sizeBytes: int, fsType: string)

  datatype PartitionTableInfo = PartitionTableInfo(
    diskId: string, tableType: string, partitionCount: int, totalSector: int, sectorSize: int, alignSector: int,
    lastUsableSector: int, partitions: seq<PartitionInfo>)

  datatype Disk = Disk(
    diskId: string, sizeBytes: int, diskType: int, removable: bool, volumeIds: seq<string>, extraInfo: string,
    vendorId: int, productId: int, serialNumber: string, busnum: int, devAddress: int,
    local: DiskLocal)

  /** The fields of a disk that stay in the process. */
  datatype DiskLocal = DiskLocal(
    cdromState: int, isUsbBus: bool, sysPath: string, devName: string, vendor: string, partitionType: string)

  datatype VolumeCore = VolumeCore(
    id: string, kind: int, diskId: string, state: int, errorFlag: bool, fsType: string, extraInfo: string)

  datatype VolumeExternal = VolumeExternal(
    core: VolumeCore, flags: int, fsType: int, fsUuid: string, path: string, description: string, partitionNum: int,
    loopPath: string, mapperPath: string, mountFlag: bool, offset: nat, sizeLimit: nat,
    isUserData: bool, umountResult: string, freeSize: int)

  // ---------- what is written ----------

  function PartitionTokens(p: PartitionInfo): seq<Token> {
    [Int32(p.partitionNum), Str(p.diskId), Int64(p.startSector), Int64(p.endSector), Int64(p.sizeBytes), Str(p.fsType)]
  }

  function PartitionsTokens(ps: seq<PartitionInfo>): seq<Token> {
    if ps == [] then [] else PartitionTokens(ps[0]) + PartitionsTokens(ps[1..])
  }

  function TableHead(t: PartitionTableInfo): seq<Token> {
    [Str(t.diskId), Str(t.tableType), Int32(t.partitionCount), Int64(t.totalSector), Int32(t.sectorSize),
     Int32(t.alignSector), Uint32(|t.partitions|)]
  }

  function TableTokens(t: PartitionTableInfo): seq<Token> {
    TableHead(t) + PartitionsTokens(t.partitions)
  }

  function StringsTokens(ss: seq<string>): seq<Token> {
    if ss == [] then [] else [Str(ss[0])] + StringsTokens(ss[1..])
  }

  function DiskHead(d: Disk): seq<Token> {
    [Str(d.diskId), Int64(d.sizeBytes), Int32(d.diskType), Bool(d.removable), Uint32(|d.volumeIds|)]
  }

  function DiskTail(d: Disk): seq<Token> {
    [Str(d.extraInfo), Int32(d.vendorId), Int32(d.productId), Str(d.serialNumber), Int32(d.busnum), Int32(d.devAddress)]
  }

  function DiskTokens(d: Disk): seq<Token> {
    DiskHead(d) + StringsTokens(d.volumeIds) + DiskTail(d)
  }

  function CoreTokens(c: VolumeCore): seq<Token> {
    [Str(c.id), Int32(c.kind), Str(c.diskId), Int32(c.state), Bool(c.errorFlag), Str(c.fsType), Str(c.extraInfo)]
  }

  function VolumeTail(v: VolumeExternal): seq<Token> {
    [Int32(v.flags), Int32(v.fsType), Str(v.fsUuid), Str(v.path), Str(v.description), Int32(v.partitionNum),
     Str(v.loopPath), Str(v.mapperPath), Bool(v.mountFlag), Uint64(v.offset), Uint64(v.sizeLimit)]
  }

  function VolumeTokens(v: VolumeExternal): seq<Token> {
    CoreTokens(v.core) + VolumeTail(v)
  }

  // ---------- the parcel ----------

  class Parcel {
    var tokens: seq<Token>
    var cursor: nat
    const capacity: nat

    constructor (capacity: nat)
      ensures tokens == [] && cursor == 0 && this.capacity == capacity
    {
      tokens, cursor := [], 0;
      this.capacity := capacity;
    }

    method Write(t: Token) returns (ok: bool)
      modifies this`tokens
      ensures ok <==> |old(tokens)| < capacity
      ensures tokens == if ok then old(tokens) + [t] else old(tokens)
    {
      ok := |tokens| < capacity;
      if ok {
        tokens := tokens + [t];
      }
    }

    /** A chain of writes that gives up at the first one that fails. */
    method WriteEach(ts: seq<Token>) returns (ok: bool)
      modifies this`tokens
      ensures ok <==> |old(tokens)| + |ts| <= capacity || ts == []
      ensures ok ==> tokens == old(tokens) + ts
      ensures exists k :: 0 <= k <= |ts| && tokens == old(tokens) + ts[..k]
    {
      for i := 0 to |ts|
        invariant tokens == old(tokens) + ts[..i]
        invariant i > 0 ==> |old(tokens)| + i <= capacity
      {
        ok := Write(ts[i]);
        if !ok {
          return;
        }
        assert ts[..i + 1] == ts[..i] + [ts[i]];
      }
      assert ts[..|ts|] == ts;
      return true;
    }

    method ReadInt32() returns (v: int)
      modifies this`cursor
      ensures (v, cursor) == GetInt32(tokens, old(cursor))
    {
      if cursor < |tokens| && tokens[cursor].Int32? {
        v, cursor := tokens[cursor].i, cursor + 1;
      } else {
        v := 0;
      }
    }

    method ReadInt64() returns (v: int)
      modifies this`cursor
      ensures (v, cursor) == GetInt64(tokens, old(cursor))
    {
      if cursor < |tokens| && tokens[cursor].Int64? {
        v, cursor := tokens[cursor].l, cursor + 1;
      } else {
        v := 0;
      }
    }

    method ReadUint32() returns (v: nat)
      modifies this`cursor
      ensures (v, cursor) == GetUint32(tokens, old(cursor))
    {
      if cursor < |tokens| && tokens[cursor].Uint32? {
        v, cursor := tokens[cursor].n, cursor + 1;
      } else {
        v := 0;
      }
    }

    method ReadUint64() returns (v: nat)
      modifies this`cursor
      ensures (v, cursor) == GetUint64(tokens, old(cursor))
    {
      if cursor < |tokens| && tokens[cursor].Uint64? {
        v, cursor := tokens[cursor].u, cursor + 1;
      } else {
        v := 0;
      }
    }

    method ReadBool() returns (v: bool)
      modifies this`cursor
      ensures (v, cursor) == GetBool(tokens, old(cursor))
    {
      if cursor < |tokens| && tokens[cursor].Bool? {
        v, cursor := tokens[cursor].b, cursor + 1;
      } else {
        v := false;
      }
    }

    method ReadString() returns (v: string)
      modifies this`cursor
      ensures (v, cursor) == GetString(tokens, old(cursor))
    {
      if cursor < |tokens| && tokens[cursor].Str? {
        v, cursor := tokens[cursor].s, cursor + 1;
      } else {
        v := "";
      }
    }
  }

  // ---------- what a read yields ----------

  function GetInt32(ts: seq<Token>, i: nat): (int, nat) {
    if i < |ts| && ts[i].Int32? then (ts[i].i, i + 1) else (0, i)
  }

  function GetInt64(ts: seq<Token>, i: nat): (int, nat) {
    if i < |ts| && ts[i].Int64? then (ts[i].l, i + 1) else (0, i)
  }

  function GetUint32(ts: seq<Token>, i: nat): (nat, nat) {
    if i < |ts| && ts[i].Uint32? then (ts[i].n, i + 1) else (0, i)
  }

  function GetUint64(ts: seq<Token>, i: nat): (nat, nat) {
    if i < |ts| && ts[i].Uint64? then (ts[i].u, i + 1) else (0, i)
  }

  function GetBool(ts: seq<Token>, i: nat): (bool, nat) {
    if i < |ts| && ts[i].Bool? then (ts[i].b, i + 1) else (false, i)
  }

  function GetString(ts: seq<Token>, i: nat): (string, nat) {
    if i < |ts| && ts[i].Str? then (ts[i].s, i + 1) else ("", i)
  }

  predicate Fits(s: string) {
    |s| <= PARCEL_STRING_MAX_LEN
  }

  function GetPartition(ts: seq<Token>, i: nat): (Option<PartitionInfo>, nat) {
    var (num, i1) := GetInt32(ts, i);
    var (diskId, i2) := GetString(ts, i1);
    if !Fits(diskId) then (None, i2)
    else
      var (start, i3) := GetInt64(ts, i2);
      var (end, i4) := GetInt64(ts, i3);
      var (size, i5) := GetInt64(ts, i4);
      var (fs, i6) := GetString(ts, i5);
      (if Fits(fs) then Some(PartitionInfo(num, diskId, start, end, size, fs)) else None, i6)
  }

  /** n partitions appended to `acc`; nothing as soon as one of them cannot be read. */
  function GetPartitions(ts: seq<Token>, i: nat, n: nat, acc: seq<PartitionInfo>): (Option<seq<PartitionInfo>>, nat)
    decreases n
  {
    if n == 0 then (Some(acc), i)
    else
      var (p, j) := GetPartition(ts, i);
      if p.None? then (None, j) else GetPartitions(ts, j, n - 1, acc + [p.value])
  }

  function GetTable(ts: seq<Token>, i: nat): (Option<PartitionTableInfo>, nat) {
    var (diskId, i1) := GetString(ts, i);
    if !Fits(diskId) then (None, i1)
    else
      var (kind, i2) := GetString(ts, i1);
      if !Fits(kind) then (None, i2)
      else
        var (count, i3) := GetInt32(ts, i2);
        var (total, i4) := GetInt64(ts, i3);
        var (sector, i5) := GetInt32(ts, i4);
        var (align, i6) := GetInt32(ts, i5);
        var (n, i7) := GetUint32(ts, i6);
        if n > PARTITION_COUNT_MAX then (None, i7)
        else
          var (ps, i8) := GetPartitions(ts, i7, n, []);
          (if ps.None? then None
           else Some(PartitionTableInfo(diskId, kind, count, total, sector, align, 0, ps.value)), i8)
  }

  function GetStrings(ts: seq<Token>, i: nat, n: nat, acc: seq<string>): (Option<seq<string>>, nat)
    decreases n
  {
    if n == 0 then (Some(acc), i)
    else
      var (s, j) := GetString(ts, i);
      if !Fits(s) then (None, j) else GetStrings(ts, j, n - 1, acc + [s])
  }

  const LOCAL_DEFAULTS := DiskLocal(0, false, "", "", "", "")

  function GetDisk(ts: seq<Token>, i: nat): (Option<Disk>, nat) {
    var (diskId, i1) := GetString(ts, i);
    if !Fits(diskId) then (None, i1)
    else
      var (size, i2) := GetInt64(ts, i1);
      var (kind, i3) := GetInt32(ts, i2);
      var (removable, i4) := GetBool(ts, i3);
      var (n, i5) := GetUint32(ts, i4);
      if n > DISK_VOLUME_IDS_PARCEL_MAX then (None, i5)
      else
        var (ids, i6) := GetStrings(ts, i5, n, []);
        if ids.None? then (None, i6) else GetDiskTail(ts, i6, diskId, size, kind, removable, ids.value)
  }

  function GetDiskTail(ts: seq<Token>, i: nat, diskId: string, size: int, kind: int, removable: bool, ids: seq<string>)
    : (Option<Disk>, nat)
  {
    var (extra, i1) := GetString(ts, i);
    if !Fits(extra) then (None, i1)
    else
      var (vendor, i2) := GetInt32(ts, i1);
      var (product, i3) := GetInt32(ts, i2);
      var (serial, i4) := GetString(ts, i3);
      if !Fits(serial) then (None, i4)
      else
        var (bus, i5) := GetInt32(ts, i4);
        var (address, i6) := GetInt32(ts, i5);
        (Some(Disk(diskId, size, kind, removable, ids, extra, vendor, product, serial, bus, address, LOCAL_DEFAULTS)),
         i6)
  }

  function GetCore(ts: seq<Token>, i: nat): (Option<VolumeCore>, nat) {
    var (id, i1) := GetString(ts, i);
    if !Fits(id) then (None, i1)
    else
      var (kind, i2) := GetInt32(ts, i1);
      var (diskId, i3) := GetString(ts, i2);
      if !Fits(diskId) then (None, i3)
      else
        var (state, i4) := GetInt32(ts, i3);
        var (flag, i5) := GetBool(ts, i4);
        var (fs, i6) := GetString(ts, i5);
        if !Fits(fs) then (None, i6)
        else
          var (extra, i7) := GetString(ts, i6);
          (if Fits(extra) then Some(VolumeCore(id, kind, diskId, state, flag, fs, extra)) else None, i7)
  }

  /** The strings of the outer part are taken at any length, and the core's error flag is not copied over. */
  function GetVolume(ts: seq<Token>, i: nat): (Option<VolumeExternal>, nat) {
    var (core, i1) := GetCore(ts, i);
    if core.None? then (None, i1) else GetVolumeTail(ts, i1, core.value)
  }

  function GetVolumeTail(ts: seq<Token>, i1: nat, core: VolumeCore): (Option<VolumeExternal>, nat) {
    var (flags, i2) := GetInt32(ts, i1);
    var (fsType, i3) := GetInt32(ts, i2);
    var (uuid, i4) := GetString(ts, i3);
    var (path, i5) := GetString(ts, i4);
    var (description, i6) := GetString(ts, i5);
    var (num, i7) := GetInt32(ts, i6);
    var (loopPath, i8) := GetString(ts, i7);
    var (mapper, i9) := GetString(ts, i8);
    var (mountFlag, i10) := GetBool(ts, i9);
    var (offset, i11) := GetUint64(ts, i10);
    var (limit, i12) := GetUint64(ts, i11);
    (Some(VolumeExternal(core.(errorFlag := false), flags, fsType, uuid, path, description, num,
                         loopPath, mapper, mountFlag, offset, limit, false, "", 0)), i12)
  }

  // ---------- methods ----------

  method UnmarshalStrings(p: Parcel, n: nat) returns (r: Option<seq<string>>)
    modifies p`cursor
    ensures (r, p.cursor) == GetStrings(p.tokens, old(p.cursor), n, [])
  {
    var ss := [];
    for i := 0 to n
      invariant GetStrings(p.tokens, old(p.cursor), n, []) == GetStrings(p.tokens, p.cursor, n - i, ss)
    {
      var s := p.ReadString();
      if !Fits(s) {
        return None;
      }
      ss := ss + [s];
    }
    return Some(ss);
  }

  method UnmarshalDisk(p: Parcel) returns (r: Option<Disk>)
    modifies p`cursor
    ensures (r, p.cursor) == GetDisk(p.tokens, old(p.cursor))
  {
    hide GetStrings;
    var diskId := p.ReadString();
    if !Fits(diskId) {
      return None;
    }
    var size := p.ReadInt64();
    var kind := p.ReadInt32();
    var removable := p.ReadBool();
    var n := p.ReadUint32();
    if n > DISK_VOLUME_IDS_PARCEL_MAX {
      return None;
    }
    var ids := UnmarshalStrings(p, n);
    if ids.None? {
      return None;
    }
    var extra := p.ReadString();
    if !Fits(extra) {
      return None;
    }
    var vendor := p.ReadInt32();
    var product := p.ReadInt32();
    var serial := p.ReadString();
    if !Fits(serial) {
      return None;
    }
    var bus := p.ReadInt32();
    var address := p.ReadInt32();
    return Some(Disk(diskId, size, kind, removable, ids.value, extra, vendor, product, serial, bus, address,
                     LOCAL_DEFAULTS));
  }

  method UnmarshalCore(p: Parcel) returns (r: Option<VolumeCore>)
    modifies p`cursor
    ensures (r, p.cursor) == GetCore(p.tokens, old(p.cursor))
  {
    var id := p.ReadString();
    if !Fits(id) {
      return None;
    }
    var kind := p.ReadInt32();
    var diskId := p.ReadString();
    if !Fits(diskId) {
      return None;
    }
    var state := p.ReadInt32();
    var flag := p.ReadBool();
    var fs := p.ReadString();
    if !Fits(fs) {
      return None;
    }
    var extra := p.ReadString();
    if !Fits(extra) {
      return None;
    }
    return Some(VolumeCore(id, kind, diskId, state, flag, fs, extra));
  }

  method UnmarshalVolume(p: Parcel) returns (r: Option<VolumeExternal>)
    modifies p`cursor
    ensures (r, p.cursor) == GetVolume(p.tokens, old(p.cursor))
  {
    hide GetCore;
    var core := UnmarshalCore(p);
    if core.None? {
      return None;
    }
    var flags := p.ReadInt32();
    var fsType := p.ReadInt32();
    var uuid := p.ReadString();
    var path := p.ReadString();
    var description := p.ReadString();
    var num := p.ReadInt32();
    var loopPath := p.ReadString();
    var mapper := p.ReadString();
    var mountFlag := p.ReadBool();
    var offset := p.ReadUint64();
    var limit := p.ReadUint64();
    return Some(VolumeExternal(core.value.(errorFlag := false), flags, fsType, uuid, path, description, num,
                               loopPath, mapper, mountFlag, offset, limit, false, "", 0));
  }

  method MarshalDisk(d: Disk, p: Parcel) returns (ok: bool)
    modifies p`tokens
    ensures ok <==> |old(p.tokens)| + |DiskTokens(d)| <= p.capacity
    ensures ok ==> p.tokens == old(p.tokens) + DiskTokens(d)
  {
    hide StringsTokens;
    ghost var start := p.tokens;
    ok := p.WriteEach(DiskHead(d));
    if !ok {
      return;
    }
    ok := p.WriteEach(StringsTokens(d.volumeIds));
    if !ok {
      return;
    }
    ok := p.WriteEach(DiskTail(d));
    assert ok ==> p.tokens == start + DiskTokens(d);
  }

  method MarshalVolume(v: VolumeExternal, p: Parcel) returns (ok: bool)
    modifies p`tokens
    ensures ok <==> |old(p.tokens)| + |VolumeTokens(v)| <= p.capacity
    ensures ok ==> p.tokens == old(p.tokens) + VolumeTokens(v)
  {
    ghost var start := p.tokens;
    ok := p.WriteEach(CoreTokens(v.core));
    if !ok {
      return;
    }
    ok := p.WriteEach(VolumeTail(v));
    assert ok ==> p.tokens == start + VolumeTokens(v);
  }

  method UnmarshalPartition(p: Parcel) returns (r: Option<PartitionInfo>)
    modifies p`cursor
    ensures (r, p.cursor) == GetPartition(p.tokens, old(p.cursor))
  {
    var num := p.ReadInt32();
    var diskId := p.ReadString();
    if !Fits(diskId) {
      return None;
    }
    var start := p.ReadInt64();
    var end := p.ReadInt64();
    var size := p.ReadInt64();
    var fs := p.ReadString();
    if !Fits(fs) {
      return None;
    }
    return Some(PartitionInfo(num, diskId, start, end, size, fs));
  }

  method UnmarshalTable(p: Parcel) returns (r: Option<PartitionTableInfo>)
    modifies p`cursor
    ensures (r, p.cursor) == GetTable(p.tokens, old(p.cursor))
  {
    hide GetPartition;
    var diskId := p.ReadString();
    if !Fits(diskId) {
      return None;
    }
    var kind := p.ReadString();
    if !Fits(kind) {
      return None;
    }
    var count := p.ReadInt32();
    var total := p.ReadInt64();
    var sector := p.ReadInt32();
    var align := p.ReadInt32();
    var n := p.ReadUint32();
    if n > PARTITION_COUNT_MAX {
      return None;
    }
    var partitions := UnmarshalPartitions(p, n);
    if partitions.None? {
      return None;
    }
    return Some(PartitionTableInfo(diskId, kind, count, total, sector, align, 0, partitions.value));
  }

  method UnmarshalPartitions(p: Parcel, n: nat) returns (r: Option<seq<PartitionInfo>>)
    modifies p`cursor
    ensures (r, p.cursor) == GetPartitions(p.tokens, old(p.cursor), n, [])
  {
    hide GetPartition;
    var ps := [];
    for i := 0 to n
      invariant GetPartitions(p.tokens, old(p.cursor), n, []) == GetPartitions(p.tokens, p.cursor, n - i, ps)
    {
      var part := UnmarshalPartition(p);
      if part.None? {
        return None;
      }
      ps := ps + [part.value];
    }
    return Some(ps);
  }

  method MarshalPartition(v: PartitionInfo, p: Parcel) returns (ok: bool)
    modifies p`tokens
    ensures ok <==> |old(p.tokens)| + |PartitionTokens(v)| <= p.capacity
    ensures ok ==> p.tokens == old(p.tokens) + PartitionTokens(v)
  {
    ok := p.WriteEach(PartitionTokens(v));
  }

  method MarshalPartitions(ps: seq<PartitionInfo>, p: Parcel) returns (ok: bool)
    modifies p`tokens
    ensures ok ==> p.tokens == old(p.tokens) + PartitionsTokens(ps)
    ensures |old(p.tokens)| + |PartitionsTokens(ps)| <= p.capacity ==> ok
  {
    hide PartitionTokens;
    ghost var start := p.tokens;
    assert ps[..0] == [] && start + PartitionsTokens([]) == start;
    for i := 0 to |ps|
      invariant p.tokens == start + PartitionsTokens(ps[..i])
    {
      PartitionsNext(ps, i);
      ok := MarshalPartition(ps[i], p);
      if !ok {
        return;
      }
      assert start + PartitionsTokens(ps[..i]) + PartitionTokens(ps[i]) == start + PartitionsTokens(ps[..i + 1]);
    }
    assert ps[..|ps|] == ps;
    return true;
  }

  method MarshalTable(t: PartitionTableInfo, p: Parcel) returns (ok: bool)
    modifies p`tokens
    ensures ok ==> |t.partitions| <= PARTITION_COUNT_MAX && p.tokens == old(p.tokens) + TableTokens(t)
    ensures |t.partitions| <= PARTITION_COUNT_MAX && |old(p.tokens)| + |TableTokens(t)| <= p.capacity ==> ok
  {
    hide PartitionsTokens;
    ghost var start := p.tokens;
    var head := TableHead(t);
    ok := p.WriteEach(head[..6]);
    if !ok || |t.partitions| > PARTITION_COUNT_MAX {
      return false;
    }
    ok := p.Write(head[6]);
    if !ok {
      return;
    }
    assert head[..6] + [head[6]] == head;
    assert p.tokens == start + head;
    ok := MarshalPartitions(t.partitions, p);
    assert ok ==> p.tokens == start + TableTokens(t);
  }

  lemma {:induction false} PartitionsAppend(a: seq<PartitionInfo>, b: seq<PartitionInfo>)
    ensures PartitionsTokens(a + b) == PartitionsTokens(a) + PartitionsTokens(b)
    decreases |a|
  {
    hide PartitionTokens;
    if a == [] {
      assert a + b == b;
    } else {
      assert (a + b)[1..] == a[1..] + b;
      PartitionsAppend(a[1..], b);
    }
  }

  lemma Cut<T>(s: seq<T>, i: nat)
    requires i < |s|
    ensures s[..i + 1] == s[..i] + [s[i]] && s[..i + 1] + s[i + 1..] == s
  {
  }

  lemma OnePartition(p: PartitionInfo)
    ensures PartitionsTokens([p]) == PartitionTokens(p)
  {
    assert PartitionsTokens([p]) == PartitionTokens(p) + PartitionsTokens([p][1..]);
  }

  lemma PartitionsNext(ps: seq<PartitionInfo>, i: nat)
    requires i < |ps|
    ensures PartitionsTokens(ps[..i + 1]) == PartitionsTokens(ps[..i]) + PartitionTokens(ps[i])
    ensures PartitionsTokens(ps) == PartitionsTokens(ps[..i + 1]) + PartitionsTokens(ps[i + 1..])
  {
    hide PartitionTokens, PartitionsTokens;
    Cut(ps, i);
    PartitionsAppend(ps[..i], [ps[i]]);
    OnePartition(ps[i]);
    PartitionsAppend(ps[..i + 1], ps[i + 1..]);
  }

  // ---------- round trips ----------

  /** The tokens from i on start with these. */
  predicate At(ts: seq<Token>, i: nat, part: seq<Token>) {
    i + |part| <= |ts| && ts[i..i + |part|] == part
  }

  lemma AtSplit(ts: seq<Token>, i: nat, a: seq<Token>, b: seq<Token>)
    requires At(ts, i, a + b)
    ensures At(ts, i, a) && At(ts, i + |a|, b)
  {
    assert ts[i..i + |a|] == (a + b)[..|a|] == a;
    assert ts[i + |a|..i + |a| + |b|] == (a + b)[|a|..] == b;
  }

  lemma AtToken(ts: seq<Token>, i: nat, part: seq<Token>, k: nat)
    requires At(ts, i, part) && k < |part|
    ensures i + k < |ts| && ts[i + k] == part[k]
  {
    assert ts[i..i + |part|][k] == ts[i + k];
  }

  /** A partition comes back whole exactly when both its strings fit, and the rest is left unread. */
  lemma PartitionRoundTrip(ts: seq<Token>, i: nat, p: PartitionInfo)
    requires At(ts, i, PartitionTokens(p))
    ensures GetPartition(ts, i).0 == if Fits(p.diskId) && Fits(p.fsType) then Some(p) else None
    ensures GetPartition(ts, i).0.Some? ==> GetPartition(ts, i).1 == i + |PartitionTokens(p)|
  {
    var part := PartitionTokens(p);
    AtToken(ts, i, part, 0);
    AtToken(ts, i, part, 1);
    AtToken(ts, i, part, 2);
    AtToken(ts, i, part, 3);
    AtToken(ts, i, part, 4);
    AtToken(ts, i, part, 5);
  }

  predicate PartitionFits(p: PartitionInfo) {
    Fits(p.diskId) && Fits(p.fsType)
  }

  lemma {:induction false} PartitionsRoundTrip(ts: seq<Token>, i: nat, ps: seq<PartitionInfo>, acc: seq<PartitionInfo>)
    requires At(ts, i, PartitionsTokens(ps))
    ensures var (r, j) := GetPartitions(ts, i, |ps|, acc);
            && (r == if forall k :: 0 <= k < |ps| ==> PartitionFits(ps[k]) then Some(acc + ps) else None)
            && (r.Some? ==> j == i + |PartitionsTokens(ps)|)
    decreases |ps|
  {
    hide PartitionTokens, GetPartition, Fits;
    if ps != [] {
      AtSplit(ts, i, PartitionTokens(ps[0]), PartitionsTokens(ps[1..]));
      PartitionRoundTrip(ts, i, ps[0]);
      assert acc + [ps[0]] + ps[1..] == acc + ps;
      if PartitionFits(ps[0]) {
        PartitionsRoundTrip(ts, i + |PartitionTokens(ps[0])|, ps[1..], acc + [ps[0]]);
        assert forall k :: 0 < k < |ps| ==> ps[k] == ps[1..][k - 1];
      }
    } else {
      assert acc + ps == acc;
    }
  }

  predicate TableFits(t: PartitionTableInfo) {
    && Fits(t.diskId) && Fits(t.tableType) && |t.partitions| <= PARTITION_COUNT_MAX
    && forall k :: 0 <= k < |t.partitions| ==> PartitionFits(t.partitions[k])
  }

  /**
   * A table, partitions and all, comes back exactly when its strings and its list fit. The last
   * usable sector does not travel: it comes back as zero.
   */
  lemma TableRoundTrip(ts: seq<Token>, i: nat, t: PartitionTableInfo)
    requires At(ts, i, TableTokens(t))
    ensures GetTable(ts, i).0 == if TableFits(t) then Some(t.(lastUsableSector := 0)) else None
    ensures GetTable(ts, i).0.Some? ==> GetTable(ts, i).1 == i + |TableTokens(t)|
  {
    hide PartitionsTokens, GetPartitions, Fits, PartitionFits, At;
    var head := TableHead(t);
    AtSplit(ts, i, head, PartitionsTokens(t.partitions));
    AtToken(ts, i, head, 0);
    AtToken(ts, i, head, 1);
    AtToken(ts, i, head, 2);
    AtToken(ts, i, head, 3);
    AtToken(ts, i, head, 4);
    AtToken(ts, i, head, 5);
    AtToken(ts, i, head, 6);
    PartitionsRoundTrip(ts, i + 7, t.partitions, []);
    assert [] + t.partitions == t.partitions;
  }

  lemma {:induction false} StringsRoundTrip(ts: seq<Token>, i: nat, ss: seq<string>, acc: seq<string>)
    requires At(ts, i, StringsTokens(ss))
    ensures |StringsTokens(ss)| == |ss|
    ensures var (r, j) := GetStrings(ts, i, |ss|, acc);
            && (r == if forall k :: 0 <= k < |ss| ==> Fits(ss[k]) then Some(acc + ss) else None)
            && (r.Some? ==> j == i + |ss|)
    decreases |ss|
  {
    hide Fits;
    if ss != [] {
      AtSplit(ts, i, [Str(ss[0])], StringsTokens(ss[1..]));
      AtToken(ts, i, [Str(ss[0])], 0);
      StringsRoundTrip(ts, i + 1, ss[1..], acc + [ss[0]]);
      assert acc + [ss[0]] + ss[1..] == acc + ss;
      assert forall k :: 0 < k < |ss| ==> ss[k] == ss[1..][k - 1];
    } else {
      assert acc + ss == acc;
    }
  }

  predicate DiskFits(d: Disk) {
    && Fits(d.diskId) && |d.volumeIds| <= DISK_VOLUME_IDS_PARCEL_MAX && Fits(d.extraInfo) && Fits(d.serialNumber)
    && forall k :: 0 <= k < |d.volumeIds| ==> Fits(d.volumeIds[k])
  }

  /**
   * A disk comes back exactly when its strings and its list of volumes fit; what stays in the
   * process comes back at its defaults. The writer sets no limit, so a disk with more volumes is
   * written whole and then refused.
   */
  lemma DiskRoundTrip(ts: seq<Token>, i: nat, d: Disk)
    requires At(ts, i, DiskTokens(d))
    ensures GetDisk(ts, i).0 == if DiskFits(d) then Some(d.(local := LOCAL_DEFAULTS)) else None
    ensures GetDisk(ts, i).0.Some? ==> GetDisk(ts, i).1 == i + |DiskTokens(d)|
  {
    hide StringsTokens, GetStrings, GetString, GetInt64, GetInt32, GetBool, GetUint32, Fits, GetDiskTail, DiskTail,
      At, DiskHead;
    var head, ids, tail := DiskHead(d), StringsTokens(d.volumeIds), DiskTail(d);
    AtSplit(ts, i, head + ids, tail);
    AtSplit(ts, i, head, ids);
    DiskHeadRoundTrip(ts, i, d);
    StringsRoundTrip(ts, i + 5, d.volumeIds, []);
    assert [] + d.volumeIds == d.volumeIds;
    DiskTailRoundTrip(ts, i + 5 + |ids|, d);
  }

  lemma DiskHeadRoundTrip(ts: seq<Token>, i: nat, d: Disk)
    requires At(ts, i, DiskHead(d))
    ensures |DiskHead(d)| == 5
    ensures GetString(ts, i) == (d.diskId, i + 1) && GetInt64(ts, i + 1) == (d.sizeBytes, i + 2)
    ensures GetInt32(ts, i + 2) == (d.diskType, i + 3) && GetBool(ts, i + 3) == (d.removable, i + 4)
    ensures GetUint32(ts, i + 4) == (|d.volumeIds|, i + 5)
  {
    hide At;
    var head := DiskHead(d);
    AtToken(ts, i, head, 0);
    AtToken(ts, i, head, 1);
    AtToken(ts, i, head, 2);
    AtToken(ts, i, head, 3);
    AtToken(ts, i, head, 4);
  }

  lemma DiskTailRoundTrip(ts: seq<Token>, i: nat, d: Disk)
    requires At(ts, i, DiskTail(d))
    ensures var r := GetDiskTail(ts, i, d.diskId, d.sizeBytes, d.diskType, d.removable, d.volumeIds);
            && (r.0 == if Fits(d.extraInfo) && Fits(d.serialNumber) then Some(d.(local := LOCAL_DEFAULTS)) else None)
            && (r.0.Some? ==> r.1 == i + |DiskTail(d)|)
  {
    hide Fits;
    var tail := DiskTail(d);
    AtToken(ts, i, tail, 0);
    AtToken(ts, i, tail, 1);
    AtToken(ts, i, tail, 2);
    AtToken(ts, i, tail, 3);
    AtToken(ts, i, tail, 4);
    AtToken(ts, i, tail, 5);
  }

  predicate CoreFits(c: VolumeCore) {
    Fits(c.id) && Fits(c.diskId) && Fits(c.fsType) && Fits(c.extraInfo)
  }

  lemma CoreRoundTrip(ts: seq<Token>, i: nat, c: VolumeCore)
    requires At(ts, i, CoreTokens(c))
    ensures GetCore(ts, i).0 == if CoreFits(c) then Some(c) else None
    ensures GetCore(ts, i).0.Some? ==> GetCore(ts, i).1 == i + |CoreTokens(c)|
  {
    hide Fits;
    var part := CoreTokens(c);
    AtToken(ts, i, part, 0);
    AtToken(ts, i, part, 1);
    AtToken(ts, i, part, 2);
    AtToken(ts, i, part, 3);
    AtToken(ts, i, part, 4);
    AtToken(ts, i, part, 5);
    AtToken(ts, i, part, 6);
  }

  /** What a volume loses on the way: the error flag, although it is written, and the local fields. */
  function Arrived(v: VolumeExternal): VolumeExternal {
    v.(core := v.core.(errorFlag := false), isUserData := false, umountResult := "", freeSize := 0)
  }

  /** A volume comes back, but for those fields, exactly when the four strings of its core fit. */
  lemma VolumeRoundTrip(ts: seq<Token>, i: nat, v: VolumeExternal)
    requires At(ts, i, VolumeTokens(v))
    ensures GetVolume(ts, i).0 == if CoreFits(v.core) then Some(Arrived(v)) else None
    ensures GetVolume(ts, i).0.Some? ==> GetVolume(ts, i).1 == i + |VolumeTokens(v)|
  {
    hide GetCore, CoreFits, GetVolumeTail, VolumeTail;
    AtSplit(ts, i, CoreTokens(v.core), VolumeTail(v));
    CoreRoundTrip(ts, i, v.core);
    VolumeTailRoundTrip(ts, i + 7, v);
  }

  lemma VolumeTailRoundTrip(ts: seq<Token>, i: nat, v: VolumeExternal)
    requires At(ts, i, VolumeTail(v))
    ensures GetVolumeTail(ts, i, v.core) == (Some(Arrived(v)), i + |VolumeTail(v)|)
  {
    hide At;
    var tail := VolumeTail(v);
    AtToken(ts, i, tail, 0);
    AtToken(ts, i, tail, 1);
    AtToken(ts, i, tail, 2);
    AtToken(ts, i, tail, 3);
    AtToken(ts, i, tail, 4);
    AtToken(ts, i, tail, 5);
    AtToken(ts, i, tail, 6);
    AtToken(ts, i, tail, 7);
    AtToken(ts, i, tail, 8);
    AtToken(ts, i, tail, 9);
    AtToken(ts, i, tail, 10);
  }
}
