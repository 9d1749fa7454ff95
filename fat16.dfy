// The read-only FAT16 volume of examples/readonlyfat16/FAT16ReadOnly.cpp:
// a root directory table held by the caller, from which the boot sector,
// both FAT copies, the root directory sectors and the placement of file data
// are synthesised on demand, following the "Boot Sector and BPB" and "FAT
// Directory Structure" sections of Microsoft's FAT specification (fatgen103).
module Fat16 {
  import opened Prelude
  import opened Fat16Names

  const NUM_SECTORS: nat := 16384
  const MAX_ROOT_DIR_ENTRIES: nat := 224
  const CLUSTER_SIZE: nat := 2
  const MAX_CLUSTERS: nat := 8192
  const SECTORS_PER_FAT: nat := 32
  const SECTORS_ROOT_DIR: nat := 14
  const NUM_FATS: nat := 2
  const BOOT_SECTOR: nat := 0
  const FATS_SECTOR: nat := 1
  const ROOT_DIR_SECTOR: nat := 65
  const DATA_SECTOR: nat := 79

  /** First name byte of a deleted entry. */
  const DELETED: byte := 0xE5

  /** The layout constants are the values of the C macros that derive them
      from the volume size, the cluster size and the root directory size. */
  lemma Layout()
    ensures MAX_CLUSTERS == (NUM_SECTORS + CLUSTER_SIZE - 1) / CLUSTER_SIZE
    ensures SECTORS_PER_FAT == (2 * MAX_CLUSTERS + 511) / 512
    ensures SECTORS_ROOT_DIR == (MAX_ROOT_DIR_ENTRIES * 32 + 511) / 512
    ensures ROOT_DIR_SECTOR == FATS_SECTOR + NUM_FATS * SECTORS_PER_FAT
    ensures DATA_SECTOR == ROOT_DIR_SECTOR + SECTORS_ROOT_DIR
  {
  }

  /** One packed 32-byte FAT16RootDirEntry. */
  datatype DirEntry = DirEntry(
    name: seq<byte>, attributes: byte, reserved: byte, created: seq<byte>,
    accessed: seq<byte>, clusterHigh: uint16, written: seq<byte>,
    clusterLow: uint16, size: uint32)

  type Entry = e: DirEntry | |e.name| == 11 && |e.created| == 5 && |e.accessed| == 2 && |e.written| == 4
    witness DirEntry([0, 0, 0, 0, 0, 0, 0, 0, 0, 0, 0], 0, 0, [0, 0, 0, 0, 0], [0, 0], 0, [0, 0, 0, 0], 0, 0)

  /** What `memset(r, 0, ...)` leaves in an entry. */
  function ZeroEntry(): (e: Entry)
    ensures e.name[0] == 0 && e.size == 0
  {
    DirEntry(Zeros(11), 0, 0, Zeros(5), Zeros(2), 0, Zeros(4), 0, 0)
  }

  /** The entry's bytes as the packed struct lays them out in memory (little-endian). */
  function EntryBytes(e: Entry): (b: seq<byte>)
    ensures |b| == 32
  {
    e.name + [e.attributes, e.reserved] + e.created + e.accessed + LE16Bytes(e.clusterHigh)
      + e.written + LE16Bytes(e.clusterLow) + LE32Bytes(e.size)
  }

  /** The packed layout puts the fields where fatgen103 wants them:
      DIR_Name at 0, DIR_FstClusHI at 20, DIR_FstClusLO at 26, DIR_FileSize at 28. */
  lemma EntryLayout(e: Entry)
    ensures EntryBytes(e)[..11] == e.name
    ensures EntryBytes(e)[11] == e.attributes
    ensures LE16(EntryBytes(e), 20) == e.clusterHigh
    ensures LE16(EntryBytes(e), 26) == e.clusterLow
    ensures LE32(EntryBytes(e), 28) == e.size
  {
    var b := EntryBytes(e);
    assert b[20..22] == LE16Bytes(e.clusterHigh);
    assert b[26..28] == LE16Bytes(e.clusterLow);
    assert b[28..32] == LE32Bytes(e.size);
  }

  // ---------------------------------------------------------------------
  // The table scan shared by updateClusters, readDataSector and readFatSector.

  /** Entries a scan bounded by `limit` visits: it stops at the first entry
      whose name starts with NUL, at `limit`, or at the end of the array. */
  function ScanLen(dir: seq<Entry>, limit: nat): (n: nat)
    ensures n <= limit && n <= |dir|
    ensures forall i :: 0 <= i < n ==> dir[i].name[0] != 0
    ensures n < limit && n < |dir| ==> dir[n].name[0] == 0
  {
    if limit == 0 || |dir| == 0 || dir[0].name[0] == 0 then 0
    else 1 + ScanLen(dir[1..], limit - 1)
  }

  /** The C loop would read past the end of the caller's array. */
  predicate Overruns(dir: seq<Entry>, limit: nat)
  {
    ScanLen(dir, limit) == |dir| < limit
  }

  /** An entry that owns clusters: not deleted and not empty. */
  predicate Live(e: Entry)
  {
    e.name[0] != DELETED && e.size != 0
  }

  /** `(size + CLUSTER_SIZE * SECTOR_SIZE - 1) / (CLUSTER_SIZE * SECTOR_SIZE)` in 32-bit arithmetic. */
  function ClusterCount(size: uint32): nat
  {
    U32(size as int + 1023) / 1024
  }

  lemma ClusterCountCovers(size: uint32)
    requires size as int + 1023 < 0x1_0000_0000
    ensures ClusterCount(size) * 1024 >= size
    ensures size > 0 ==> (ClusterCount(size) - 1) * 1024 < size
  {
  }

  /** Clusters owned by the live entries among the first `i`. */
  function ClustersBefore(dir: seq<Entry>, i: nat): nat
    requires i <= |dir|
  {
    if i == 0 then 0
    else ClustersBefore(dir, i - 1) + (if Live(dir[i - 1]) then ClusterCount(dir[i - 1].size) else 0)
  }

  lemma {:induction false} ClustersBeforeMonotone(dir: seq<Entry>, i: nat, j: nat)
    requires i <= j <= |dir|
    ensures ClustersBefore(dir, i) <= ClustersBefore(dir, j)
    ensures i < j && Live(dir[i]) ==> ClustersBefore(dir, i) + ClusterCount(dir[i].size) <= ClustersBefore(dir, j)
  {
    if i < j {
      ClustersBeforeMonotone(dir, i, j - 1);
    }
  }

  /** The start cluster updateClusters gives entry `i` (its counter is a uint16). */
  function StartCluster(dir: seq<Entry>, i: nat): uint16
    requires i <= |dir|
  {
    U16(2 + ClustersBefore(dir, i))
  }

  /** Entry `i` as updateClusters leaves it. */
  function Assigned(dir: seq<Entry>, i: nat): Entry
    requires i < |dir|
  {
    if Live(dir[i]) then dir[i].(clusterLow := StartCluster(dir, i), clusterHigh := 0) else dir[i]
  }

  /** The table once the first `n` entries have been given their start clusters. */
  function AssignUpTo(dir: seq<Entry>, n: nat): (r: seq<Entry>)
    ensures |r| == |dir|
  {
    seq(|dir|, i requires 0 <= i < |dir| => if i < n then Assigned(dir, i) else dir[i])
  }

  /** The table after updateClusters. */
  function WithClusters(dir: seq<Entry>, limit: nat): (r: seq<Entry>)
    ensures |r| == |dir|
  {
    AssignUpTo(dir, ScanLen(dir, limit))
  }

  lemma StartClusterStep(dir: seq<Entry>, i: nat)
    requires i < |dir|
    ensures StartCluster(dir, i + 1) == if Live(dir[i]) then U16(StartCluster(dir, i) as int + ClusterCount(dir[i].size)) else StartCluster(dir, i)
  {
    var a := 2 + ClustersBefore(dir, i);
    var c := ClusterCount(dir[i].size);
    if Live(dir[i]) {
      assert (a % 0x1_0000 + c) % 0x1_0000 == (a + c) % 0x1_0000;
    }
  }

  /** updateClusters changes no name nor size, so a later scan sees the same files. */
  lemma {:induction false} WithClustersKeepsScan(dir: seq<Entry>, limit: nat, limit': nat)
    ensures ScanLen(WithClusters(dir, limit), limit') == ScanLen(dir, limit')
    ensures forall i :: 0 <= i <= |dir| ==> ClustersBefore(WithClusters(dir, limit), i) == ClustersBefore(dir, i)
  {
    var r := WithClusters(dir, limit);
    assert forall i :: 0 <= i < |dir| ==> r[i].name == dir[i].name && r[i].size == dir[i].size;
    SameShapeScan(dir, r, limit');
    forall i | 0 <= i <= |dir|
      ensures ClustersBefore(r, i) == ClustersBefore(dir, i)
    {
      SameShapeClusters(dir, r, i);
    }
  }

  lemma {:induction false} SameShapeScan(a: seq<Entry>, b: seq<Entry>, limit: nat)
    requires |a| == |b| && forall i :: 0 <= i < |a| ==> a[i].name == b[i].name
    ensures ScanLen(a, limit) == ScanLen(b, limit)
  {
    if limit > 0 && |a| > 0 && a[0].name[0] != 0 {
      SameShapeScan(a[1..], b[1..], limit - 1);
    }
  }

  lemma {:induction false} SameShapeClusters(a: seq<Entry>, b: seq<Entry>, i: nat)
    requires |a| == |b| && i <= |a|
    requires forall k :: 0 <= k < |a| ==> a[k].name == b[k].name && a[k].size == b[k].size
    ensures ClustersBefore(a, i) == ClustersBefore(b, i)
  {
    if i > 0 {
      SameShapeClusters(a, b, i - 1);
    }
  }

  lemma StartClusterExact(dir: seq<Entry>, i: nat)
    requires i <= |dir| && 2 + ClustersBefore(dir, i) < 0x1_0000
    ensures StartCluster(dir, i) == 2 + ClustersBefore(dir, i)
  {
  }

  /** Below 2^16 clusters the start clusters are exact, and live files get
      consecutive, disjoint cluster ranges in table order. */
  lemma StartClustersDisjoint(dir: seq<Entry>, i: nat, j: nat)
    requires i < j < |dir| && Live(dir[i])
    requires 2 + ClustersBefore(dir, |dir|) < 0x1_0000
    ensures StartCluster(dir, i) as int + ClusterCount(dir[i].size) <= StartCluster(dir, j) as int
  {
    ClustersBeforeMonotone(dir, i, j);
    ClustersBeforeMonotone(dir, j, |dir|);
    StartClusterExact(dir, i);
    StartClusterExact(dir, j);
  }

  // ---------------------------------------------------------------------
  // Data sectors.

  /** What readDataSector does with the buffer after zeroing it: nothing, or
      hand it to the file reader for one sector of a file. The file is named
      by its 11-byte directory field; the reader receives that field as
      from83Filename turns it into a C string (Fat16Names.From83). */
  datatype DataRead = Blank | FromFile(field: seq<byte>, sector: uint32)

  /** The loop of readDataSector from entry `i` with the running sector counter. */
  function DataLookup(dir: seq<Entry>, n: nat, i: nat, sector: uint32, ds: uint32): (r: DataRead)
    requires n <= |dir| && i <= n
    ensures r.FromFile? ==> exists k :: i <= k < n && Live(dir[k]) && r.field == dir[k].name
    ensures r.FromFile? ==> r.sector <= ds && r.sector < 0x10000
    decreases n - i
  {
    if i >= n || sector > ds then Blank
    else if !Live(dir[i]) then DataLookup(dir, n, i + 1, sector, ds)
    else
      var size := U16(ClusterCount(dir[i].size) * 2);
      if ds < U32(sector + size) then FromFile(dir[i].name, ds - sector)
      else DataLookup(dir, n, i + 1, U32(sector + size), ds)
  }

  /** One step of the readDataSector loop at entry `i`. */
  lemma DataLookupUnfold(dir: seq<Entry>, n: nat, i: nat, sector: uint32, ds: uint32)
    requires i < n <= |dir| && sector <= ds
    ensures !Live(dir[i]) ==> DataLookup(dir, n, i, sector, ds) == DataLookup(dir, n, i + 1, sector, ds)
    ensures Live(dir[i]) && ds < U32(sector + U16(ClusterCount(dir[i].size) * 2)) ==>
      DataLookup(dir, n, i, sector, ds) == FromFile(dir[i].name, ds - sector)
    ensures Live(dir[i]) && ds >= U32(sector + U16(ClusterCount(dir[i].size) * 2)) ==>
      DataLookup(dir, n, i, sector, ds) == DataLookup(dir, n, i + 1, U32(sector + U16(ClusterCount(dir[i].size) * 2)), ds)
  {
  }

  function DataSector(dir: seq<Entry>, entries: nat, ds: uint32): DataRead
  {
    DataLookup(dir, ScanLen(dir, entries), 0, 0, ds)
  }

  /** Every file's data sectors fit the 16 and 32-bit counters. */
  predicate NoWrap(dir: seq<Entry>, n: nat)
    requires n <= |dir|
  {
    2 + ClustersBefore(dir, n) <= 0x8000
  }

  /** Entry `i` is a file whose cluster chain contains cluster `c`:
      2 + ClustersBefore(i) <= c < 2 + ClustersBefore(i + 1). */
  predicate InChain(dir: seq<Entry>, i: nat, c: int)
    requires i < |dir|
  {
    Live(dir[i]) && 2 + ClustersBefore(dir, i) <= c < 2 + ClustersBefore(dir, i + 1)
  }

  /** Without wrap-around the 16-bit size and the 32-bit sector counter are exact. */
  lemma DataCountersExact(dir: seq<Entry>, n: nat, i: nat)
    requires i < n <= |dir| && NoWrap(dir, n) && Live(dir[i])
    ensures U16(ClusterCount(dir[i].size) * 2) == ClusterCount(dir[i].size) * 2
    ensures U32(2 * ClustersBefore(dir, i) + U16(ClusterCount(dir[i].size) * 2)) == 2 * ClustersBefore(dir, i + 1)
  {
    ClustersBeforeMonotone(dir, i + 1, n);
    var cc := ClusterCount(dir[i].size);
    assert ClustersBefore(dir, i + 1) == ClustersBefore(dir, i) + cc;
    U16Exact(cc * 2);
    U32Exact(2 * ClustersBefore(dir, i) + cc * 2);
  }

  /** One entry of the readDataSector loop with an exact sector counter. */
  lemma DataLookupStep(dir: seq<Entry>, n: nat, i: nat, ds: uint32)
    requires i < n <= |dir| && NoWrap(dir, n) && 2 * ClustersBefore(dir, i) <= ds
    ensures ds >= 2 * ClustersBefore(dir, i + 1) ==>
      DataLookup(dir, n, i, 2 * ClustersBefore(dir, i), ds) == DataLookup(dir, n, i + 1, 2 * ClustersBefore(dir, i + 1), ds)
    ensures ds < 2 * ClustersBefore(dir, i + 1) ==>
      DataLookup(dir, n, i, 2 * ClustersBefore(dir, i), ds) == FromFile(dir[i].name, ds - 2 * ClustersBefore(dir, i))
  {
    var sector := 2 * ClustersBefore(dir, i);
    DataLookupUnfold(dir, n, i, sector, ds);
    if Live(dir[i]) {
      DataCountersExact(dir, n, i);
      assert U32(sector + U16(ClusterCount(dir[i].size) * 2)) == 2 * ClustersBefore(dir, i + 1);
    } else {
      assert ClustersBefore(dir, i + 1) == ClustersBefore(dir, i);
    }
  }

  lemma {:induction false} DataLookupHit(dir: seq<Entry>, n: nat, i: nat, ds: uint32, j: nat)
    requires i <= j < n <= |dir| && NoWrap(dir, n) && InChain(dir, j, 2 + ds / 2)
    requires 2 * ClustersBefore(dir, i) <= ds
    ensures DataLookup(dir, n, i, 2 * ClustersBefore(dir, i), ds) == FromFile(dir[j].name, ds - 2 * ClustersBefore(dir, j))
    decreases j - i
  {
    DataLookupStep(dir, n, i, ds);
    if i < j {
      ClustersBeforeMonotone(dir, i + 1, j);
      DataLookupHit(dir, n, i + 1, ds, j);
    }
  }

  lemma {:induction false} DataLookupPast(dir: seq<Entry>, n: nat, i: nat, ds: uint32)
    requires i <= n <= |dir| && NoWrap(dir, n) && ds >= 2 * ClustersBefore(dir, n)
    requires 2 * ClustersBefore(dir, i) <= ds
    ensures DataLookup(dir, n, i, 2 * ClustersBefore(dir, i), ds) == Blank
    decreases n - i
  {
    if i < n {
      ClustersBeforeMonotone(dir, i + 1, n);
      DataLookupStep(dir, n, i, ds);
      DataLookupPast(dir, n, i + 1, ds);
    }
  }

  /** Data sector `ds` belongs to the file whose FAT chain holds cluster
      2 + ds / 2, at that file's relative sector; past the last chain it is blank. */
  lemma DataSectorOwner(dir: seq<Entry>, entries: nat, ds: uint32, j: nat)
    requires NoWrap(dir, ScanLen(dir, entries))
    ensures j < ScanLen(dir, entries) && InChain(dir, j, 2 + ds / 2) ==>
      DataSector(dir, entries, ds) == FromFile(dir[j].name, ds - 2 * ClustersBefore(dir, j))
    ensures ds >= 2 * ClustersBefore(dir, ScanLen(dir, entries)) ==> DataSector(dir, entries, ds) == Blank
  {
    var n := ScanLen(dir, entries);
    if j < n && InChain(dir, j, 2 + ds / 2) {
      DataLookupHit(dir, n, 0, ds, j);
    }
    if ds >= 2 * ClustersBefore(dir, n) {
      DataLookupPast(dir, n, 0, ds);
    }
  }

  // ---------------------------------------------------------------------
  // FAT sectors.

  /** The 256 FAT16 entries of FAT sector `s` before any chain is written:
      entry 0 carries the media descriptor 0xF8 and entry 1 is 0xFFFF. */
  function FatBase(s: uint32): (w: seq<uint16>)
    ensures |w| == 256
  {
    seq(256, k => (if s == 0 && k == 0 then 0xFFF8 else if s == 0 && k == 1 then 0xFFFF else 0) as uint16)
  }

  /** The FAT entry readFatSector writes for cluster `c` of a chain ending before `last`. */
  function Link(c: nat, last: uint16): uint16
  {
    if c + 1 < last then c + 1 else 0xFFFF
  }

  /** The first clusters of a chain, from `cluster` up to `upto`, given
      their links; clusters outside the window [first, end) are skipped. */
  function ChainPart(w: seq<uint16>, cluster: uint16, upto: nat, last: uint16, first: uint16, end: uint16): (r: seq<uint16>)
    requires |w| == 256
    ensures |r| == 256
  {
    seq<uint16>(256, k requires 0 <= k < 256 =>
      var c := first + k;
      var v: uint16 := if cluster <= c < upto && c < last && c < end then Link(c, last) else w[k];
      v)
  }

  /** What the inner loop of readFatSector does with one chain: clusters
      from `cluster` up to `last`, stopping at the first cluster at or past
      `end`, get their link. */
  function ChainWrite(w: seq<uint16>, cluster: uint16, last: uint16, first: uint16, end: uint16): (r: seq<uint16>)
    requires |w| == 256
    ensures |r| == 256
  {
    ChainPart(w, cluster, last, last, first, end)
  }

  /** The value of readFatSector's cluster counter after one chain. */
  function ChainEnd(cluster: uint16, last: uint16, end: uint16): uint16
  {
    if cluster >= last || cluster >= end then cluster else Min(last, end)
  }

  datatype FatState = FatState(cluster: uint16, words: seq<uint16>)

  /** First cluster of FAT sector `s`, `sectorNumber * SECTOR_SIZE / 2` as a uint16. */
  function FirstCluster(s: uint32): uint16
  {
    U16(U32(s * 512) / 2)
  }

  /** The FAT sector's 16-bit entries after the first `n` scanned entries. */
  function FatFill(dir: seq<Entry>, n: nat, s: uint32): (st: FatState)
    requires n <= |dir|
    ensures |st.words| == 256
  {
    if n == 0 then FatState(2, FatBase(s))
    else
      var prev := FatFill(dir, n - 1, s);
      if !Live(dir[n - 1]) then prev
      else
        var first := FirstCluster(s);
        var end := U16(first + 256);
        var last := U16(prev.cluster as int + ClusterCount(dir[n - 1].size));
        FatState(ChainEnd(prev.cluster, last, end), ChainWrite(prev.words, prev.cluster, last, first, end))
  }

  /** Little-endian bytes of 256 FAT16 entries. */
  function FatBytes(w: seq<uint16>): (b: seq<byte>)
    requires |w| == 256
    ensures |b| == 512
  {
    seq(512, i requires 0 <= i < 512 => if i % 2 == 0 then w[i / 2] % 0x100 else w[i / 2] / 0x100)
  }

  lemma FatBytesUpdate(w: seq<uint16>, k: nat, v: uint16)
    requires |w| == 256 && k < 256
    ensures FatBytes(w[k := v]) == FatBytes(w)[2 * k := v % 0x100][2 * k + 1 := v / 0x100]
  {
  }

  lemma FatBytesEntry(w: seq<uint16>, k: nat)
    requires |w| == 256 && k < 256
    ensures LE16(FatBytes(w), 2 * k) == w[k]
  {
    var b := FatBytes(w);
    assert b[2 * k] == w[k] % 0x100 && b[2 * k + 1] == w[k] / 0x100;
  }

  lemma FatBytesBase(s: uint32)
    ensures FatBytes(FatBase(s)) == if s == 0 then [0xF8, 0xFF, 0xFF, 0xFF] + Zeros(508) else Zeros(512)
  {
  }

  function FatSector(dir: seq<Entry>, s: uint32): (b: seq<byte>)
    requires !Overruns(dir, MAX_ROOT_DIR_ENTRIES)
    ensures |b| == 512
  {
    FatBytes(FatFill(dir, ScanLen(dir, MAX_ROOT_DIR_ENTRIES), s).words)
  }

  /** The entry a FAT must hold for cluster `c >= 2`: the next cluster of the
      chain holding `c`, 0xFFFF at a chain's end, 0 outside every chain. */
  function ChainValue(dir: seq<Entry>, n: nat, c: int): int
    requires n <= |dir|
  {
    if n == 0 then 0
    else if InChain(dir, n - 1, c) then (if c + 1 < 2 + ClustersBefore(dir, n) then c + 1 else 0xFFFF)
    else ChainValue(dir, n - 1, c)
  }

  lemma FatWindow(s: uint32)
    requires s < 32
    ensures FirstCluster(s) == s * 256 && U16(FirstCluster(s) + 256) == s * 256 + 256
  {
  }

  /** One entry of the scan of readFatSector. */
  lemma FatFillNext(dir: seq<Entry>, i: nat, s: uint32)
    requires i < |dir|
    ensures var prev := FatFill(dir, i, s);
      var first := FirstCluster(s);
      var last := U16(prev.cluster as int + ClusterCount(dir[i].size));
      FatFill(dir, i + 1, s) == if Live(dir[i])
        then FatState(ChainEnd(prev.cluster, last, U16(first + 256)), ChainWrite(prev.words, prev.cluster, last, first, U16(first + 256)))
        else prev
  {
  }

  /** One entry of the scan of readFatSector, for a sector inside the FAT. */
  lemma FatFillUnfold(dir: seq<Entry>, n: nat, s: uint32)
    requires 0 < n <= |dir| && s < 32
    ensures var prev := FatFill(dir, n - 1, s);
      var last := U16(prev.cluster as int + ClusterCount(dir[n - 1].size));
      FatFill(dir, n, s) == if Live(dir[n - 1])
        then FatState(ChainEnd(prev.cluster, last, s * 256 + 256), ChainWrite(prev.words, prev.cluster, last, s * 256, s * 256 + 256))
        else prev
  {
    FatWindow(s);
  }

  /** What one entry of the scan does to the sector being built. */
  lemma FatFillStep(dir: seq<Entry>, n: nat, s: uint32, k: nat)
    requires 0 < n <= |dir| && NoWrap(dir, n) && s < 32 && k < 256
    requires FatFill(dir, n - 1, s).cluster as int == Min(2 + ClustersBefore(dir, n - 1), s * 256 + 256)
    requires FatFill(dir, n - 1, s).words[k] == if s * 256 + k < 2 then FatBase(s)[k] else ChainValue(dir, n - 1, s * 256 + k)
    ensures FatFill(dir, n, s).cluster as int == Min(2 + ClustersBefore(dir, n), s * 256 + 256)
    ensures FatFill(dir, n, s).words[k] == if s * 256 + k < 2 then FatBase(s)[k] else ChainValue(dir, n, s * 256 + k)
  {
    FatFillUnfold(dir, n, s);
    var prev := FatFill(dir, n - 1, s);
    var c := s * 256 + k;
    var a := 2 + ClustersBefore(dir, n - 1);
    if Live(dir[n - 1]) {
      var cnt := ClusterCount(dir[n - 1].size);
      assert 2 + ClustersBefore(dir, n) == a + cnt;
      CleanChain(prev.words, prev.cluster, cnt, s, k, a);
      assert InChain(dir, n - 1, c) <==> a <= c < a + cnt;
    } else {
      assert ClustersBefore(dir, n) == ClustersBefore(dir, n - 1);
      assert !InChain(dir, n - 1, c);
    }
  }

  /** One chain written by readFatSector when no counter wraps: cluster
      `first + k` is linked iff it lies in [a, a + cnt). */
  lemma CleanChain(w: seq<uint16>, cl: uint16, cnt: nat, s: nat, k: nat, a: nat)
    requires |w| == 256 && s < 32 && k < 256 && 2 <= a && a + cnt <= 0x8000
    requires cl as int == Min(a, s * 256 + 256)
    ensures var last := U16(cl as int + cnt);
      ChainEnd(cl, last, s * 256 + 256) as int == Min(a + cnt, s * 256 + 256)
      && ChainWrite(w, cl, last, s * 256, s * 256 + 256)[k]
        == if a <= s * 256 + k < a + cnt then Link(s * 256 + k, a + cnt) else w[k]
  {
    if a < s * 256 + 256 {
      U16Exact(a + cnt);
    } else {
      U16Exact(s * 256 + 256 + cnt);
    }
  }

  lemma {:induction false} FatFillChains(dir: seq<Entry>, n: nat, s: uint32, k: nat)
    requires n <= |dir| && NoWrap(dir, n) && s < 32 && k < 256
    ensures FatFill(dir, n, s).cluster as int == Min(2 + ClustersBefore(dir, n), s * 256 + 256)
    ensures FatFill(dir, n, s).words[k] == if s * 256 + k < 2 then FatBase(s)[k] else ChainValue(dir, n, s * 256 + k)
  {
    if n > 0 {
      ClustersBeforeMonotone(dir, n - 1, n);
      FatFillChains(dir, n - 1, s, k);
      FatFillStep(dir, n, s, k);
    }
  }

  /** The FAT sectors the volume serves describe exactly the cluster chains
      updateClusters assigned: within a chain each entry links to the next
      cluster and the last one holds 0xFFFF; every other data cluster is free. */
  lemma FatDescribesChains(dir: seq<Entry>, s: uint32, k: nat, j: nat)
    requires !Overruns(dir, MAX_ROOT_DIR_ENTRIES)
    requires NoWrap(dir, ScanLen(dir, MAX_ROOT_DIR_ENTRIES))
    requires s < 32 && k < 256 && s * 256 + k >= 2
    ensures var n := ScanLen(dir, MAX_ROOT_DIR_ENTRIES);
      var c := s * 256 + k;
      var v := LE16(FatSector(dir, s), 2 * k);
      (j < n && InChain(dir, j, c) ==> v == if c + 1 < 2 + ClustersBefore(dir, j + 1) then c + 1 else 0xFFFF)
      && (c >= 2 + ClustersBefore(dir, n) ==> v == 0)
  {
    var n := ScanLen(dir, MAX_ROOT_DIR_ENTRIES);
    var c := s * 256 + k;
    FatFillChains(dir, n, s, k);
    FatBytesEntry(FatFill(dir, n, s).words, k);
    if j < n && InChain(dir, j, c) {
      ChainValueAt(dir, n, j, c);
    }
    if c >= 2 + ClustersBefore(dir, n) {
      ChainValueFree(dir, n, c);
    }
  }

  lemma {:induction false} ChainValueAt(dir: seq<Entry>, n: nat, j: nat, c: int)
    requires j < n <= |dir| && InChain(dir, j, c)
    ensures ChainValue(dir, n, c) == if c + 1 < 2 + ClustersBefore(dir, j + 1) then c + 1 else 0xFFFF
  {
    if j < n - 1 {
      ClustersBeforeMonotone(dir, j + 1, n - 1);
      assert !InChain(dir, n - 1, c);
      ChainValueAt(dir, n - 1, j, c);
    }
  }

  lemma {:induction false} ChainValueFree(dir: seq<Entry>, n: nat, c: int)
    requires n <= |dir| && c >= 2 + ClustersBefore(dir, n)
    ensures ChainValue(dir, n, c) == 0
  {
    if n > 0 {
      ClustersBeforeMonotone(dir, n - 1, n);
      ChainValueFree(dir, n - 1, c);
    }
  }

  /** FAT sector 0 starts F8 FF FF FF. */
  lemma FatSectorZeroHeader(dir: seq<Entry>)
    requires !Overruns(dir, MAX_ROOT_DIR_ENTRIES)
    requires NoWrap(dir, ScanLen(dir, MAX_ROOT_DIR_ENTRIES))
    ensures FatSector(dir, 0)[..4] == [0xF8, 0xFF, 0xFF, 0xFF]
  {
    var n := ScanLen(dir, MAX_ROOT_DIR_ENTRIES);
    FatFillChains(dir, n, 0, 0);
    FatFillChains(dir, n, 0, 1);
  }

  // ---------------------------------------------------------------------
  // Root directory and boot sectors.

  /** The bytes of entries [a, b) back to back, as memcpy copies them. */
  function EntriesBytes(dir: seq<Entry>, a: nat, b: nat): (r: seq<byte>)
    requires a <= b <= |dir|
    ensures |r| == (32 * b - 32 * a)
    decreases b - a
  {
    if a == b then [] else EntriesBytes(dir, a, b - 1) + EntryBytes(dir[b - 1])
  }

  lemma {:induction false} EntriesBytesAt(dir: seq<Entry>, a: nat, b: nat, m: nat)
    requires a <= m < b <= |dir|
    ensures EntriesBytes(dir, a, b)[32 * m - 32 * a..32 * m - 32 * a + 32] == EntryBytes(dir[m])
    decreases b - a
  {
    if m < b - 1 {
      EntriesBytesAt(dir, a, b - 1, m);
    }
  }

  /** `sectorNumber * SECTOR_SIZE / sizeof(FAT16RootDirEntry)` in 32-bit arithmetic. */
  function FirstEntry(s: uint32): nat
  {
    U32(s * 512) / 32
  }

  /** Whenever the first entry of a sector is a table index, the sector's
      32-bit end index is 16 entries further on. */
  lemma RootDirWindow(s: uint32)
    requires FirstEntry(s) < 0x1_0000
    ensures U32(U32(s + 1) * 512) / 32 == FirstEntry(s) + 16
  {
    var q := s / 0x80_0000;
    var t := s % 0x80_0000;
    assert s * 512 == q * 0x1_0000_0000 + 512 * t;
    ModMultiple(q, 512 * t);
    assert t < 0x1000;
    assert U32(s + 1) == s + 1;
    assert s * 512 + 512 == q * 0x1_0000_0000 + 512 * t + 512;
    ModMultiple(q, 512 * t + 512);
  }

  lemma ModMultiple(q: int, r: int)
    requires 0 <= r < 0x1_0000_0000
    ensures U32(q * 0x1_0000_0000 + r) == r
  {
  }

  /** Root directory sector `s`: the entries from `FirstEntry(s)` up to the
      sector's end or `entries`, whichever comes first, then zeros. */
  function RootDirSector(dir: seq<Entry>, entries: uint16, s: uint32): (b: seq<byte>)
    requires entries <= |dir|
    ensures |b| == 512
  {
    var start := FirstEntry(s);
    if start >= entries then Zeros(512)
    else
      RootDirWindow(s);
      EntriesSector(dir, start, Min(U32(U32(s + 1) * 512) / 32, entries))
  }

  /** A sector holding entries [a, b) followed by zeros. */
  function EntriesSector(dir: seq<Entry>, a: nat, b: nat): (r: seq<byte>)
    requires a <= b <= |dir| && b - a <= 16
    ensures |r| == 512
  {
    EntriesBytes(dir, a, b) + Zeros(512 - (32 * b - 32 * a))
  }

  lemma EntriesSectorSlot(dir: seq<Entry>, a: nat, b: nat, i: nat)
    requires a <= b <= |dir| && b - a <= 16 && i < 16
    ensures EntriesSector(dir, a, b)[32 * i..32 * i + 32] == if a + i < b then EntryBytes(dir[a + i]) else Zeros(32)
  {
    var e := EntriesBytes(dir, a, b);
    var z := Zeros(512 - (32 * b - 32 * a));
    if a + i < b {
      EntriesBytesAt(dir, a, b, a + i);
      SliceOfPrefix(e, z, 32 * i, 32);
    } else {
      SliceOfZeros(e, z, 32 * i, 32);
    }
  }

  /** Slot `i` of root directory sector `s` holds table entry 16 * s + i when
      the table has one, and zeros otherwise. */
  lemma RootDirSectorSlots(dir: seq<Entry>, entries: uint16, s: uint32, i: nat)
    requires entries as int <= |dir| && s < SECTORS_ROOT_DIR && i < 16
    ensures var b := RootDirSector(dir, entries, s);
      b[32 * i..32 * i + 32] == if 16 * s + i < entries as int then EntryBytes(dir[16 * s + i]) else Zeros(32)
  {
    Layout();
    assert FirstEntry(s) == 16 * s;
    if 16 * s < entries as int {
      RootDirSlotWithin(dir, entries, s, i);
    } else {
      SliceOfZeros([], RootDirSector(dir, entries, s), 32 * i, 32);
    }
  }

  lemma RootDirSlotWithin(dir: seq<Entry>, entries: uint16, s: uint32, i: nat)
    requires entries as int <= |dir| && i < 16
    requires FirstEntry(s) == 16 * s < entries as int
    ensures var b := RootDirSector(dir, entries, s);
      b[32 * i..32 * i + 32] == if 16 * s + i < entries as int then EntryBytes(dir[16 * s + i]) else Zeros(32)
  {
    var a := 16 * s;
    var bound := Min(a + 16, entries as int);
    RootDirSectorIs(dir, entries, s);
    EntriesSectorSlot(dir, a, bound, i);
    assert a + i < bound <==> 16 * s + i < entries as int;
  }

  lemma RootDirSectorIs(dir: seq<Entry>, entries: uint16, s: uint32)
    requires entries as int <= |dir| && FirstEntry(s) < entries as int
    ensures RootDirSector(dir, entries, s) == EntriesSector(dir, FirstEntry(s), Min(FirstEntry(s) + 16, entries as int))
  {
    RootDirWindow(s);
  }

  lemma SliceOfPrefix(e: seq<byte>, z: seq<byte>, lo: nat, len: nat)
    requires lo + len <= |e|
    ensures (e + z)[lo..lo + len] == e[lo..lo + len]
  {
  }

  lemma SliceOfZeros(e: seq<byte>, z: seq<byte>, lo: nat, len: nat)
    requires |e| <= lo && lo + len <= |e| + |z|
    requires forall k :: 0 <= k < |z| ==> z[k] == 0
    ensures (e + z)[lo..lo + len] == Zeros(len)
  {
    assert (e + z)[lo..lo + len] == z[lo - |e|..lo - |e| + len];
  }

  const OEM_NAME: seq<byte> := ['r' as byte, 'o' as byte, 'f' as byte, 'a' as byte, 't' as byte, 0, 0, 0]

  /** The packed FAT16BootRecord: jump code, OEM name and the BIOS parameter block. */
  function BootRecord(): (b: seq<byte>)
    ensures |b| == 37
  {
    [0xEB, 0x3C, 0x90] + OEM_NAME + LE16Bytes(512) + [CLUSTER_SIZE] + LE16Bytes(1) + [NUM_FATS]
      + LE16Bytes(MAX_ROOT_DIR_ENTRIES) + LE16Bytes(NUM_SECTORS) + [0xF8] + LE16Bytes(SECTORS_PER_FAT)
      + LE16Bytes(0x20) + LE16Bytes(0x20) + LE32Bytes(0) + LE32Bytes(0) + [0x80]
  }

  function BootSector(): (b: seq<byte>)
    ensures |b| == 512
  {
    BootRecord() + Zeros(510 - 37) + [0x55, 0xAA]
  }

  /** The boot sector's BPB describes the layout readSector serves, and it
      ends with the 0x55AA signature. */
  lemma BootSectorDescribesLayout()
    ensures var b := BootSector();
      LE16(b, 11) == 512 && b[13] == CLUSTER_SIZE && LE16(b, 14) == FATS_SECTOR
      && b[16] == NUM_FATS && LE16(b, 17) == MAX_ROOT_DIR_ENTRIES && LE16(b, 19) == NUM_SECTORS
      && b[21] == 0xF8 && LE16(b, 22) == SECTORS_PER_FAT
      && b[510] == 0x55 && b[511] == 0xAA
      && ROOT_DIR_SECTOR == LE16(b, 14) + b[16] * LE16(b, 22)
      && DATA_SECTOR == ROOT_DIR_SECTOR + (LE16(b, 17) * 32 + 511) / 512
  {
    var b := BootSector();
    assert b[11..13] == LE16Bytes(512);
    assert b[14..16] == LE16Bytes(1);
    assert b[17..19] == LE16Bytes(MAX_ROOT_DIR_ENTRIES);
    assert b[19..21] == LE16Bytes(NUM_SECTORS);
    assert b[22..24] == LE16Bytes(SECTORS_PER_FAT);
  }

  // ---------------------------------------------------------------------
  // The whole volume.

  /** The part of the volume a sector number falls in, with its index there. */
  datatype Region = BootRegion | FatRegion(index: uint32) | RootDirRegion(index: uint32) | DataRegion(index: uint32)

  /** The dispatch of readSector; a FAT sector of either copy maps to its
      index within one FAT. */
  function RegionOf(n: uint32): (r: Region)
    ensures r.FatRegion? ==> r.index < SECTORS_PER_FAT
  {
    if n == BOOT_SECTOR then BootRegion
    else if n < ROOT_DIR_SECTOR then FatRegion((n - FATS_SECTOR) % SECTORS_PER_FAT)
    else if n < DATA_SECTOR then RootDirRegion(n - ROOT_DIR_SECTOR)
    else DataRegion(n - DATA_SECTOR)
  }

  /** The 512 bytes readSector leaves in the buffer for a region; a data
      sector stays zero until the file reader fills it. */
  function RegionBytes(dir: seq<Entry>, entries: uint16, r: Region): (b: seq<byte>)
    requires entries as int <= |dir| && (r.FatRegion? ==> !Overruns(dir, MAX_ROOT_DIR_ENTRIES))
    ensures |b| == 512
  {
    match r
    case BootRegion => BootSector()
    case FatRegion(i) => FatSector(dir, i)
    case RootDirRegion(i) => RootDirSector(dir, entries, i)
    case DataRegion(_) => Zeros(512)
  }

  /** readSector reads within the caller's table: a FAT sector's scan stops
      inside the array. */
  predicate Servable(dir: seq<Entry>, n: uint32)
  {
    RegionOf(n).FatRegion? ==> !Overruns(dir, MAX_ROOT_DIR_ENTRIES)
  }

  function SectorBytes(dir: seq<Entry>, entries: uint16, n: uint32): (b: seq<byte>)
    requires entries as int <= |dir| && Servable(dir, n)
    ensures |b| == 512
  {
    RegionBytes(dir, entries, RegionOf(n))
  }

  /** What readSector asks of the file reader for sector `n`. */
  function SectorRead(dir: seq<Entry>, entries: nat, n: uint32): (r: DataRead)
    ensures !RegionOf(n).DataRegion? ==> r == Blank
    ensures r.FromFile? ==> exists k :: 0 <= k < |dir| && Live(dir[k]) && r.field == dir[k].name
  {
    match RegionOf(n)
    case DataRegion(ds) => DataSector(dir, entries, ds)
    case _ => Blank
  }

  /** The 32-bit sector number FAT16ReadSector passes for slot `i` of a run. */
  function SlotSector(sector: uint32, i: nat): uint32
  {
    U32(sector + i)
  }

  /** The volume layout: sector 0 is the boot sector, the next 32 sectors are
      FAT 0 and the 32 after them FAT 1, then 14 root directory sectors, then data. */
  lemma RegionsCoverVolume(n: uint32)
    ensures RegionOf(n) == BootRegion <==> n == 0
    ensures RegionOf(n).FatRegion? <==> 1 <= n < 65
    ensures 1 <= n < 33 ==> RegionOf(n) == FatRegion(n - 1)
    ensures 33 <= n < 65 ==> RegionOf(n) == FatRegion(n - 33)
    ensures RegionOf(n).RootDirRegion? <==> 65 <= n < 79
    ensures 65 <= n < 79 ==> RegionOf(n) == RootDirRegion(n - 65)
    ensures RegionOf(n).DataRegion? <==> 79 <= n
    ensures 79 <= n ==> RegionOf(n) == DataRegion(n - 79)
  {
  }

  /** Both FAT copies are identical: sector n and sector n + 32 hold FAT sector n - 1. */
  lemma FatCopiesAgree(dir: seq<Entry>, entries: uint16, n: uint32)
    requires entries as int <= |dir| && !Overruns(dir, MAX_ROOT_DIR_ENTRIES)
    requires FATS_SECTOR <= n < FATS_SECTOR + SECTORS_PER_FAT
    ensures SectorBytes(dir, entries, n) == SectorBytes(dir, entries, n + SECTORS_PER_FAT)
    ensures SectorBytes(dir, entries, n) == FatSector(dir, n - FATS_SECTOR)
  {
    assert RegionOf(n) == RegionOf(n + SECTORS_PER_FAT) == FatRegion(n - FATS_SECTOR);
  }

  /** The slot FAT16AddFile fills: the first entry, among the first
      `entries`, whose name starts with NUL. */
  function FreeSlot(dir: seq<Entry>, entries: uint16): (slot: Option<nat>)
    requires entries as int <= |dir|
    ensures slot.None? <==> forall k :: 0 <= k < entries ==> dir[k].name[0] != 0
    ensures slot.Some? ==> slot.value < entries as int && dir[slot.value].name[0] == 0
    ensures slot.Some? ==> forall k :: 0 <= k < slot.value ==> dir[k].name[0] != 0
  {
    var n := ScanLen(dir, entries as int);
    if n < entries as int then Some(n) else None
  }

  /** The table with entry `i` named after `name` in 8.3 form and given `size`. */
  function Added(dir: seq<Entry>, i: nat, name: seq<byte>, size: uint32): (r: seq<Entry>)
    requires i < |dir|
    ensures |r| == |dir|
  {
    dir[i := dir[i].(name := To83(name), size := size)]
  }

  /** After FAT16AddFile the new file is part of the volume: the scans of
      updateClusters, readDataSector and readFatSector reach it, past every
      entry they reached before. */
  lemma {:induction false} AddedFileVisible(dir: seq<Entry>, entries: uint16, name: seq<byte>, size: uint32)
    requires entries as int <= |dir| && IsCString(name) && FreeSlot(dir, entries).Some?
    ensures var i := FreeSlot(dir, entries).value;
      var r := WithClusters(Added(dir, i, name, size), entries as int);
      ScanLen(r, entries as int) > i && r[i].name == To83(name) && r[i].size == size
  {
    var i := FreeSlot(dir, entries).value;
    var a := Added(dir, i, name, size);
    To83NotNul(name);
    WithClustersKeepsScan(a, entries as int, entries as int);
    ScanPast(a, entries as int, i);
  }

  lemma {:induction false} ScanPast(dir: seq<Entry>, limit: nat, i: nat)
    requires i < limit && i < |dir| && forall k :: 0 <= k <= i ==> dir[k].name[0] != 0
    ensures ScanLen(dir, limit) > i
  {
    if i > 0 {
      ScanPast(dir[1..], limit - 1, i - 1);
    }
  }

  /** The caller's root directory, as FAT16SetRootDir installs it. */
  class Volume {
    var rootDir: array<Entry>
    var rootDirEntries: uint16

    ghost predicate Valid()
      reads this
    {
      rootDirEntries as int <= rootDir.Length
    }

    /** FAT16SetRootDir: zeroes the first `count` entries; the count is kept as a uint16. */
    constructor SetRootDir(r: array<Entry>, count: uint32)
      requires count as int <= r.Length
      modifies r
      ensures Valid() && rootDir == r && rootDirEntries == U16(count)
      ensures forall i :: 0 <= i < U32(32 * count) / 32 ==> r[i] == ZeroEntry()
      ensures r[U32(32 * count) / 32..] == old(r[U32(32 * count) / 32..])
    {
      // memset covers sizeof(*r) * count bytes, a 32-bit product.
      var zeroed := U32(32 * count) / 32;
      var i := 0;
      while i < zeroed
        invariant 0 <= i <= zeroed
        invariant forall k :: 0 <= k < i ==> r[k] == ZeroEntry()
        invariant r[zeroed..] == old(r[zeroed..])
      {
        r[i] := ZeroEntry();
        i := i + 1;
      }
      rootDir := r;
      rootDirEntries := U16(count);
    }

    /** updateClusters: every live file visited by the scan gets its start cluster. */
    method UpdateClusters()
      requires Valid()
      modifies rootDir
      ensures rootDir[..] == WithClusters(old(rootDir[..]), rootDirEntries as int)
    {
      ghost var dir := rootDir[..];
      ghost var n := ScanLen(dir, rootDirEntries as int);
      var cluster: uint16 := 2;
      var i := 0;
      while i < rootDirEntries as int && rootDir[i].name[0] != 0
        invariant 0 <= i <= n
        invariant cluster == StartCluster(dir, i)
        invariant rootDir[..] == AssignUpTo(dir, i)
      {
        var e := rootDir[i];
        assert e == dir[i];
        StartClusterStep(dir, i);
        if e.name[0] == DELETED || e.size == 0 {
          assert AssignUpTo(dir, i + 1) == AssignUpTo(dir, i);
          i := i + 1;
          continue;
        }
        rootDir[i] := e.(clusterLow := cluster, clusterHigh := 0);
        cluster := U16(cluster as int + ClusterCount(e.size));
        assert AssignUpTo(dir, i + 1) == AssignUpTo(dir, i)[i := Assigned(dir, i)];
        i := i + 1;
      }
    }

    /** The search loop of FAT16AddFile: the index of the first entry whose name starts with NUL. */
    method FirstUnnamed() returns (i: nat)
      requires Valid()
      ensures i == ScanLen(rootDir[..], rootDirEntries as int)
    {
      i := 0;
      while i < rootDirEntries as int && rootDir[i].name[0] != 0
        invariant 0 <= i <= ScanLen(rootDir[..], rootDirEntries as int)
      {
        i := i + 1;
      }
    }

    /** FAT16AddFile: the first entry whose name starts with NUL receives the
        8.3 name and the size, then all start clusters are recomputed. */
    method AddFile(name: seq<byte>, size: uint32) returns (slot: Option<nat>)
      requires Valid() && IsCString(name)
      modifies rootDir
      ensures slot == FreeSlot(old(rootDir[..]), rootDirEntries)
      ensures slot.None? ==> rootDir[..] == old(rootDir[..])
      ensures slot.Some? ==> rootDir[..] == WithClusters(Added(old(rootDir[..]), slot.value, name, size), rootDirEntries as int)
    {
      var i := FirstUnnamed();
      if i >= rootDirEntries as int {
        return None;
      }
      var field := To83Filename(name);
      rootDir[i] := rootDir[i].(name := field, size := size);
      assert rootDir[..] == Added(old(rootDir[..]), i, name, size);
      UpdateClusters();
      slot := Some(i);
    }

    /** readDataSector: zeroes the buffer and names the file sector, if any, the reader must supply. */
    method ReadDataSector(buf: array<byte>, at: nat, dataSector: uint32) returns (r: DataRead)
      requires Valid() && at + 512 <= buf.Length
      modifies buf
      ensures buf[at..at + 512] == Zeros(512)
      ensures buf[..at] == old(buf[..at]) && buf[at + 512..] == old(buf[at + 512..])
      ensures r == DataSector(rootDir[..], rootDirEntries as int, dataSector)
    {
      Fill(buf, at, 512, 0);
      r := FindDataSector(dataSector);
    }

    /** The loop of readDataSector: walks the files in table order, adding
        up their sector counts, until the one holding `dataSector`. */
    method FindDataSector(dataSector: uint32) returns (r: DataRead)
      requires Valid()
      ensures r == DataSector(rootDir[..], rootDirEntries as int, dataSector)
    {
      ghost var dir := rootDir[..];
      ghost var n := ScanLen(dir, rootDirEntries as int);
      var sector: uint32 := 0;
      var i := 0;
      while i < rootDirEntries as int && rootDir[i].name[0] != 0 && sector <= dataSector
        invariant 0 <= i <= n
        invariant DataLookup(dir, n, i, sector, dataSector) == DataSector(dir, rootDirEntries as int, dataSector)
      {
        var e := rootDir[i];
        assert e == dir[i];
        DataLookupUnfold(dir, n, i, sector, dataSector);
        if e.name[0] == DELETED || e.size == 0 {
          assert DataLookup(dir, n, i + 1, sector, dataSector) == DataLookup(dir, n, i, sector, dataSector);
          i := i + 1;
          continue;
        }
        var size: uint16 := U16(ClusterCount(e.size) * CLUSTER_SIZE);
        if dataSector < U32(sector + size) {
          r := FromFile(e.name, dataSector - sector);
          return;
        }
        assert DataLookup(dir, n, i + 1, U32(sector + size), dataSector) == DataLookup(dir, n, i, sector, dataSector);
        sector := U32(sector + size);
        i := i + 1;
      }
      r := Blank;
    }

    /** readBootSector. */
    method ReadBootSector(buf: array<byte>, at: nat)
      requires at + 512 <= buf.Length
      modifies buf
      ensures buf[at..at + 512] == BootSector()
      ensures buf[..at] == old(buf[..at]) && buf[at + 512..] == old(buf[at + 512..])
    {
      Fill(buf, at, 512, 0);
      Copy(buf, at, BootRecord());
      assert forall k :: at + 37 <= k < at + 512 ==> buf[k] == 0;
      buf[at + 0x1FE] := 0x55;
      buf[at + 0x1FF] := 0xAA;
      forall k | 0 <= k < 512
        ensures buf[at + k] == BootSector()[k]
      {
        if k < 37 {
          assert buf[at..at + 37][k] == BootRecord()[k];
        }
      }
      assert buf[at..at + 512] == BootSector();
    }

    /** readFatSector: FAT sector `s` built from the chains of the first
        MAX_ROOT_DIR_ENTRIES table slots, as far as the scan goes. */
    method ReadFatSector(buf: array<byte>, at: nat, s: uint32)
      requires at + 512 <= buf.Length && !Overruns(rootDir[..], MAX_ROOT_DIR_ENTRIES)
      modifies buf
      ensures buf[at..at + 512] == FatSector(rootDir[..], s)
      ensures buf[..at] == old(buf[..at]) && buf[at + 512..] == old(buf[at + 512..])
    {
      FatHeader(buf, at, s);
      var first: uint16 := FirstCluster(s);
      var end: uint16 := U16(first + 256);
      var cluster: uint16 := 2;
      ghost var dir := rootDir[..];
      ghost var n := ScanLen(dir, MAX_ROOT_DIR_ENTRIES);
      var i := 0;
      while i < MAX_ROOT_DIR_ENTRIES && rootDir[i].name[0] != 0
        invariant 0 <= i <= n
        invariant cluster == FatFill(dir, i, s).cluster
        invariant buf[at..at + 512] == FatBytes(FatFill(dir, i, s).words)
        invariant buf[..at] == old(buf[..at]) && buf[at + 512..] == old(buf[at + 512..])
      {
        var e := rootDir[i];
        assert e == dir[i];
        FatFillNext(dir, i, s);
        if e.name[0] == DELETED || e.size == 0 {
          i := i + 1;
          continue;
        }
        var last: uint16 := U16(cluster as int + ClusterCount(e.size));
        cluster := WriteChain(buf, at, cluster, last, first, end, FatFill(dir, i, s).words);
        i := i + 1;
      }
    }

    /** readRootDirSector: the table entries that belong to root directory sector `s`. */
    method ReadRootDirSector(buf: array<byte>, at: nat, s: uint32)
      requires Valid() && at + 512 <= buf.Length
      modifies buf
      ensures buf[at..at + 512] == RootDirSector(rootDir[..], rootDirEntries, s)
      ensures buf[..at] == old(buf[..at]) && buf[at + 512..] == old(buf[at + 512..])
    {
      Fill(buf, at, 512, 0);
      var start := U32(s * 512) / 32;
      var end := U32(U32(s + 1) * 512) / 32;
      if start >= rootDirEntries as int {
        assert buf[at..at + 512] == Zeros(512);
        return;
      }
      if end > rootDirEntries as int {
        end := rootDirEntries as int;
      }
      RootDirWindow(s);
      CopyEntries(buf, at, rootDir, start, end);
    }


    /** readSector: dispatches on the volume layout. Its result names the
        file sector the file reader must supply, if any. */
    method ReadSector(buf: array<byte>, at: nat, n: uint32) returns (r: DataRead)
      requires Valid() && at + 512 <= buf.Length
      requires Servable(rootDir[..], n)
      modifies buf
      ensures buf[at..at + 512] == SectorBytes(rootDir[..], rootDirEntries, n)
      ensures r == SectorRead(rootDir[..], rootDirEntries as int, n)
      ensures buf[..at] == old(buf[..at]) && buf[at + 512..] == old(buf[at + 512..])
    {
      r := Blank;
      match RegionOf(n)
      case BootRegion =>
        ReadBootSector(buf, at);
      case FatRegion(i) =>
        ReadFatSector(buf, at, i);
      case RootDirRegion(i) =>
        ReadRootDirSector(buf, at, i);
      case DataRegion(i) =>
        r := ReadDataSector(buf, at, i);
    }

    /** FAT16ReadSector: `numSectors` consecutive sectors into consecutive
        512-byte slots of `buf`; the C function always reports success. */
    method ReadSectors(buf: array<byte>, sector: uint32, numSectors: uint16) returns (ok: bool, served: seq<DataRead>)
      requires Valid() && 512 * numSectors <= buf.Length
      requires forall i :: 0 <= i < numSectors ==> Servable(rootDir[..], SlotSector(sector, i))
      modifies buf
      ensures ok && |served| == numSectors as int
      ensures forall i :: 0 <= i < numSectors ==>
        served[i] == SectorRead(rootDir[..], rootDirEntries as int, SlotSector(sector, i))
        && Slot(buf[..], i) == SectorBytes(rootDir[..], rootDirEntries, SlotSector(sector, i))
      ensures buf[512 * numSectors..] == old(buf[512 * numSectors..])
    {
      served := [];
      var i := 0;
      while i < numSectors as int
        invariant 0 <= i <= numSectors as int && |served| == i
        invariant forall k :: 0 <= k < i ==>
          served[k] == SectorRead(rootDir[..], rootDirEntries as int, SlotSector(sector, k))
          && Slot(buf[..], k) == SectorBytes(rootDir[..], rootDirEntries, SlotSector(sector, k))
        invariant buf[512 * numSectors..] == old(buf[512 * numSectors..])
      {
        ghost var before := buf[..];
        var r := ReadSector(buf, 512 * i, SlotSector(sector, i));
        SlotsKept(before, buf[..], i, numSectors as int);
        assert Slot(buf[..], i) == buf[512 * i..512 * i + 512];
        served := served + [r];
        i := i + 1;
      }
      ok := true;
    }

  }

  /** Slot `i` of a multi-sector buffer. */
  function Slot(b: seq<byte>, i: nat): seq<byte>
    requires 512 * i + 512 <= |b|
  {
    b[512 * i..512 * i + 512]
  }

  /** Writing slot `i` of a run of `count` slots keeps the earlier slots and
      what lies past the run. */
  lemma SlotsKept(a: seq<byte>, b: seq<byte>, i: nat, count: nat)
    requires i < count && |a| == |b| && 512 * count <= |a|
    requires a[..512 * i] == b[..512 * i] && a[512 * i + 512..] == b[512 * i + 512..]
    ensures forall k :: 0 <= k < i ==> Slot(a, k) == Slot(b, k)
    ensures a[512 * count..] == b[512 * count..]
  {
    forall k | 0 <= k < i
      ensures Slot(a, k) == Slot(b, k)
    {
      assert Slot(a, k) == a[..512 * i][512 * k..512 * k + 512];
      assert Slot(b, k) == b[..512 * i][512 * k..512 * k + 512];
    }
    assert a[512 * count..] == a[512 * i + 512..][512 * count - 512 * i - 512..];
    assert b[512 * count..] == b[512 * i + 512..][512 * count - 512 * i - 512..];
  }

  /** The start of readFatSector: a zeroed sector, with the two reserved
      entries F8 FF FF FF in FAT sector 0. */
  method FatHeader(buf: array<byte>, at: nat, s: uint32)
    requires at + 512 <= buf.Length
    modifies buf
    ensures buf[at..at + 512] == FatBytes(FatBase(s))
    ensures buf[..at] == old(buf[..at]) && buf[at + 512..] == old(buf[at + 512..])
  {
    Fill(buf, at, 512, 0);
    ghost var before := buf[..];
    if s == 0 {
      buf[at] := 0xF8;
      buf[at + 1] := 0xFF;
      buf[at + 2] := 0xFF;
      buf[at + 3] := 0xFF;
      assert buf[..] == before[at := 0xF8][at + 1 := 0xFF][at + 2 := 0xFF][at + 3 := 0xFF];
      assert buf[at..at + 512] == [0xF8, 0xFF, 0xFF, 0xFF] + Zeros(508);
    } else {
      assert buf[at..at + 512] == Zeros(512);
    }
    FatBytesBase(s);
  }

  /** The memcpy of readRootDirSector into a zeroed sector. */
  method CopyEntries(buf: array<byte>, at: nat, dir: array<Entry>, start: nat, end: nat)
    requires at + 512 <= buf.Length && start <= end <= dir.Length && end - start <= 16
    requires forall x :: at <= x < at + 512 ==> buf[x] == 0
    modifies buf
    ensures buf[at..at + 512] == EntriesSector(dir[..], start, end)
    ensures buf[..at] == old(buf[..at]) && buf[at + 512..] == old(buf[at + 512..])
  {
    var e := EntriesBytes(dir[..], start, end);
    Copy(buf, at, e);
    assert forall x :: at + |e| <= x < at + 512 ==> buf[x] == 0;
    assert buf[at + |e|..at + 512] == Zeros(512 - |e|);
    assert buf[at..at + 512] == buf[at..at + |e|] + buf[at + |e|..at + 512];
  }

  /** One step of the inner loop of readFatSector: cluster `c` of the
      chain gets its link when it lies inside the sector's window. */
  lemma ChainPartStep(w: seq<uint16>, cluster0: uint16, c: uint16, last: uint16, first: uint16, end: uint16)
    requires |w| == 256 && end == U16(first as int + 256) && cluster0 <= c < last && c < end
    ensures first <= c ==> c - first < 256
    ensures first <= c ==>
      ChainPart(w, cluster0, c as int + 1, last, first, end) == ChainPart(w, cluster0, c as int, last, first, end)[c - first := Link(c as int, last)]
    ensures c < first ==> ChainPart(w, cluster0, c as int + 1, last, first, end) == ChainPart(w, cluster0, c as int, last, first, end)
  {
  }

  /** The two little-endian bytes of FAT entry `k` of the sector at `buf[at..]`:
      the next cluster, or FF FF at the chain's end. */
  method WriteLink(buf: array<byte>, at: nat, k: nat, c: uint16, last: uint16, ghost w: seq<uint16>)
    requires |w| == 256 && k < 256 && at + 512 <= buf.Length && buf[at..at + 512] == FatBytes(w)
    modifies buf
    ensures buf[at..at + 512] == FatBytes(w[k := Link(c as int, last)])
    ensures buf[..at] == old(buf[..at]) && buf[at + 512..] == old(buf[at + 512..])
  {
    if c as int + 1 < last as int {
      var next: uint16 := c + 1;
      buf[at + 2 * k] := next % 0x100;
      buf[at + 2 * k + 1] := next / 0x100;
    } else {
      buf[at + 2 * k] := 0xFF;
      buf[at + 2 * k + 1] := 0xFF;
    }
    FatBytesUpdate(w, k, Link(c as int, last));
    assert buf[at..at + 512] == FatBytes(w)[2 * k := Link(c as int, last) % 0x100][2 * k + 1 := Link(c as int, last) / 0x100];
  }

  /** The inner loop of readFatSector for one chain, from `cluster0` up to
      `last`, leaving the loop at the first cluster past the sector. */
  method WriteChain(buf: array<byte>, at: nat, cluster0: uint16, last: uint16, first: uint16, end: uint16, ghost w: seq<uint16>)
    returns (cluster: uint16)
    requires |w| == 256 && at + 512 <= buf.Length && end == U16(first as int + 256)
    requires buf[at..at + 512] == FatBytes(w)
    modifies buf
    ensures cluster == ChainEnd(cluster0, last, end)
    ensures buf[at..at + 512] == FatBytes(ChainWrite(w, cluster0, last, first, end))
    ensures buf[..at] == old(buf[..at]) && buf[at + 512..] == old(buf[at + 512..])
  {
    cluster := cluster0;
    while cluster < last
      invariant cluster0 <= cluster
      invariant cluster == cluster0 || (cluster <= last && cluster <= end)
      invariant buf[at..at + 512] == FatBytes(ChainPart(w, cluster0, cluster as int, last, first, end))
      invariant buf[..at] == old(buf[..at]) && buf[at + 512..] == old(buf[at + 512..])
    {
      if cluster >= end {
        break;
      }
      ChainPartStep(w, cluster0, cluster, last, first, end);
      if first <= cluster {
        WriteLink(buf, at, cluster - first, cluster, last, ChainPart(w, cluster0, cluster as int, last, first, end));
      }
      cluster := cluster + 1;
    }
    assert ChainPart(w, cluster0, cluster as int, last, first, end) == ChainWrite(w, cluster0, last, first, end);
  }

  /** `sector * SECTOR_SIZE` and the end offset of FAT16MemoryFileReader, in 32-bit arithmetic. */
  function ReaderStart(sector: uint32): uint32
  {
    U32(sector * 512)
  }

  function ReaderEnd(sector: uint32, numSectors: uint32): uint32
  {
    U32(ReaderStart(sector) + U32(numSectors * 512))
  }

  /** FAT16MemoryFileReader: copies the requested sectors of an in-memory file,
      clipped to its length. Past the end it returns true; otherwise the C
      function runs off its end without a return value, modelled as None. */
  method MemoryFileReader(out: array<byte>, input: seq<byte>, inLength: uint32, sector: uint32, numSectors: uint32)
    returns (r: Option<bool>)
    requires inLength as int <= |input|
    requires ReaderStart(sector) < inLength ==> ReaderStart(sector) <= ReaderEnd(sector, numSectors)
    requires ReaderStart(sector) < inLength ==> Min(ReaderEnd(sector, numSectors), inLength) - ReaderStart(sector) <= out.Length
    modifies out
    ensures ReaderStart(sector) >= inLength ==> r == Some(true) && out[..] == old(out[..])
    ensures ReaderStart(sector) < inLength ==>
      var start := ReaderStart(sector);
      var end := Min(ReaderEnd(sector, numSectors), inLength);
      r.None? && out[..end - start] == input[start..end] && out[end - start..] == old(out[end - start..])
  {
    var start := ReaderStart(sector);
    if start >= inLength {
      return Some(true);
    }
    var end := ReaderEnd(sector, numSectors);
    if end > inLength {
      end := inLength;
    }
    Copy(out, 0, input[start..end]);
    assert out[..end - start] == out[0..|input[start..end]|];
    r := None;
  }

  /** memset(buf + at, v, len). */
  method Fill(buf: array<byte>, at: nat, len: nat, v: byte)
    requires at + len <= buf.Length
    modifies buf
    ensures forall k :: at <= k < at + len ==> buf[k] == v
    ensures buf[..at] == old(buf[..at]) && buf[at + len..] == old(buf[at + len..])
  {
    var k := 0;
    while k < len
      invariant 0 <= k <= len
      invariant forall m :: at <= m < at + k ==> buf[m] == v
      invariant buf[..at] == old(buf[..at]) && buf[at + k..] == old(buf[at + k..])
    {
      buf[at + k] := v;
      k := k + 1;
    }
  }

  /** memcpy(buf + at, src, |src|). */
  method Copy(buf: array<byte>, at: nat, src: seq<byte>)
    requires at + |src| <= buf.Length
    modifies buf
    ensures buf[at..at + |src|] == src
    ensures buf[..at] == old(buf[..at]) && buf[at + |src|..] == old(buf[at + |src|..])
  {
    var k := 0;
    while k < |src|
      invariant 0 <= k <= |src|
      invariant buf[at..at + k] == src[..k]
      invariant buf[..at] == old(buf[..at]) && buf[at + k..] == old(buf[at + k..])
    {
      buf[at + k] := src[k];
      k := k + 1;
    }
  }
}
