// The sparse read-only disk image of readonlydrive/compress.py: the encoder
// that turns a raw image into an offset table plus a stream of populated
// sectors, and the two decoders it emits as C.
module SectorImage {
  import opened Prelude

  /** Table entry of a sector whose 512 bytes are all zero. */
  const IMAGE_EMPTY_SECTOR: uint16 := 0xFFFF

  /** What the generated C header holds. `offsets` has IMAGE_SECTOR_DATA_COUNT entries. */
  datatype Image = Image(sectors: nat, offsets: seq<uint16>, stream: seq<byte>)

  datatype CompressError = StreamTooBig(sector: nat)

  function SectorCount(len: nat): (n: nat)
    ensures n * 512 >= len
    ensures n * 512 < len + 512
  {
    (len + 511) / 512
  }

  /** The raw image followed by zeros up to a whole number of sectors. */
  function Padded(raw: seq<byte>): (p: seq<byte>)
    ensures |p| == SectorCount(|raw|) * 512
    ensures p[..|raw|] == raw
    ensures forall k :: |raw| <= k < |p| ==> p[k] == 0
  {
    raw + Zeros(SectorCount(|raw|) * 512 - |raw|)
  }

  function SectorOf(p: seq<byte>, i: nat): seq<byte>
    requires i * 512 + 512 <= |p|
  {
    p[i * 512 .. i * 512 + 512]
  }

  predicate IsEmpty(p: seq<byte>, i: nat)
    requires i * 512 + 512 <= |p|
  {
    forall x :: i * 512 <= x < i * 512 + 512 ==> p[x] == 0
  }

  /** Number of populated sectors among the first `n`. */
  function Populated(p: seq<byte>, n: nat): nat
    requires n * 512 <= |p|
  {
    if n == 0 then 0
    else Populated(p, n - 1) + (if IsEmpty(p, n - 1) then 0 else 1)
  }

  /** The populated sectors among the first `n`, back to back. */
  function Stream(p: seq<byte>, n: nat): seq<byte>
    requires n * 512 <= |p|
  {
    if n == 0 then []
    else Stream(p, n - 1) + (if IsEmpty(p, n - 1) then [] else SectorOf(p, n - 1))
  }

  /** 1 + the index of the last populated sector among the first `n`, 0 when none is. */
  function FullCount(p: seq<byte>, n: nat): (c: nat)
    requires n * 512 <= |p|
    ensures c <= n
  {
    if n == 0 then 0
    else if !IsEmpty(p, n - 1) then n
    else FullCount(p, n - 1)
  }

  /** The offset-table entry the encoder records for sector `i`. */
  function Entry(p: seq<byte>, i: nat): int
    requires i * 512 + 512 <= |p|
  {
    if IsEmpty(p, i) then IMAGE_EMPTY_SECTOR as int else 512 * Populated(p, i)
  }

  /** The encoder raises "stream too big" exactly when some populated sector
      is reached with 0xFFFF or more stream bytes already emitted. */
  predicate Fits(p: seq<byte>, n: nat)
    requires n * 512 <= |p|
  {
    forall i :: 0 <= i < n ==> !IsEmpty(p, i) ==> 512 * Populated(p, i) < 0xFFFF
  }

  /** `img` is the header compress.py writes for `raw`. */
  predicate Encodes(raw: seq<byte>, img: Image)
  {
    var p := Padded(raw);
    var n := SectorCount(|raw|);
    img.sectors == n
    && Fits(p, n)
    && |img.offsets| == FullCount(p, n)
    && (forall i :: 0 <= i < |img.offsets| ==> img.offsets[i] as int == Entry(p, i))
    && img.stream == Stream(p, n)
  }

  lemma {:induction false} FullCountBounds(p: seq<byte>, n: nat)
    requires n * 512 <= |p|
    ensures FullCount(p, n) > 0 ==> !IsEmpty(p, FullCount(p, n) - 1)
    ensures forall i :: FullCount(p, n) <= i < n ==> IsEmpty(p, i)
  {
    if n > 0 && IsEmpty(p, n - 1) {
      FullCountBounds(p, n - 1);
    }
  }

  lemma {:induction false} PopulatedMonotone(p: seq<byte>, i: nat, n: nat)
    requires i <= n && n * 512 <= |p|
    ensures Populated(p, i) <= Populated(p, n)
    ensures i < n && !IsEmpty(p, i) ==> Populated(p, i) < Populated(p, n)
  {
    if i < n {
      PopulatedMonotone(p, i, n - 1);
    }
  }

  /** The stream is 512 bytes per populated sector. */
  lemma {:induction false} StreamLength(p: seq<byte>, n: nat)
    requires n * 512 <= |p|
    ensures |Stream(p, n)| == 512 * Populated(p, n)
  {
    if n > 0 {
      StreamLength(p, n - 1);
    }
  }

  /** The stream of the first `m` sectors is a prefix of the stream of the first `n`. */
  lemma {:induction false} StreamPrefix(p: seq<byte>, m: nat, n: nat)
    requires m <= n && n * 512 <= |p|
    ensures |Stream(p, m)| <= |Stream(p, n)| && Stream(p, n)[..|Stream(p, m)|] == Stream(p, m)
  {
    if m < n {
      StreamPrefix(p, m, n - 1);
      var prev := Stream(p, n - 1);
      var tail := if IsEmpty(p, n - 1) then [] else SectorOf(p, n - 1);
      assert Stream(p, n) == prev + tail;
      var len := |Stream(p, m)|;
      assert (prev + tail)[..len] == prev[..len];
    }
  }

  lemma StreamIndexKept(p: seq<byte>, m: nat, n: nat, at: nat)
    requires m <= n && n * 512 <= |p| && at < |Stream(p, m)|
    ensures at < |Stream(p, n)| && Stream(p, n)[at] == Stream(p, m)[at]
  {
    StreamPrefix(p, m, n);
    assert Stream(p, n)[at] == Stream(p, n)[..|Stream(p, m)|][at];
  }

  /** The bytes a populated sector adds at the end of the stream. */
  lemma StreamTail(p: seq<byte>, i: nat, j: nat)
    requires i * 512 + 512 <= |p| && !IsEmpty(p, i) && j < 512
    ensures 512 * Populated(p, i) + j < |Stream(p, i + 1)|
    ensures Stream(p, i + 1)[512 * Populated(p, i) + j] == p[i * 512 + j]
  {
    StreamLength(p, i);
    var prev := Stream(p, i);
    assert Stream(p, i + 1) == prev + SectorOf(p, i);
    assert (prev + SectorOf(p, i))[|prev| + j] == SectorOf(p, i)[j];
  }

  /** A populated sector `i` sits in the stream at 512 * (populated sectors before it). */
  lemma {:induction false} StreamAt(p: seq<byte>, n: nat, i: nat, j: nat)
    requires n * 512 <= |p|
    requires i < n && j < 512 && !IsEmpty(p, i)
    ensures 512 * Populated(p, i) + j < |Stream(p, n)|
    ensures Stream(p, n)[512 * Populated(p, i) + j] == p[i * 512 + j]
  {
    StreamTail(p, i, j);
    StreamIndexKept(p, i + 1, n, 512 * Populated(p, i) + j);
  }

  /** Populated offsets strictly increase by table index: 0, 512, 1024, ... */
  lemma OffsetsIncrease(raw: seq<byte>, img: Image, i: nat, k: nat)
    requires Encodes(raw, img)
    requires i < k < |img.offsets|
    requires img.offsets[i] != IMAGE_EMPTY_SECTOR && img.offsets[k] != IMAGE_EMPTY_SECTOR
    ensures img.offsets[i] as int + 512 <= img.offsets[k] as int
  {
    var p, n := Padded(raw), SectorCount(|raw|);
    assert img.offsets[i] as int == Entry(p, i) && img.offsets[k] as int == Entry(p, k);
    assert !IsEmpty(p, i) && !IsEmpty(p, k);
    PopulatedMonotone(p, i, k);
  }

  /** An offset is never mistaken for the sentinel: Entry is the sentinel iff the sector is empty. */
  lemma SentinelIffEmpty(raw: seq<byte>, img: Image, i: nat)
    requires Encodes(raw, img)
    requires i < |img.offsets|
    ensures (img.offsets[i] == IMAGE_EMPTY_SECTOR) <==> IsEmpty(Padded(raw), i)
  {
    var p, n := Padded(raw), SectorCount(|raw|);
    FullCountBounds(p, n);
    if !IsEmpty(p, i) {
      assert 512 * Populated(p, i) < 0xFFFF;
    }
  }

  /** `image_fetch_byte` over the emitted tables. */
  predicate WellFormed(img: Image)
  {
    forall i :: 0 <= i < |img.offsets| && img.offsets[i] != IMAGE_EMPTY_SECTOR ==>
      img.offsets[i] as int + 512 <= |img.stream|
  }

  function FetchByte(img: Image, offset: uint32): (b: byte)
    requires WellFormed(img)
    ensures offset / 512 >= |img.offsets| ==> b == 0
  {
    var sector := offset / 512;
    if sector >= |img.offsets| || img.offsets[sector] == IMAGE_EMPTY_SECTOR then 0
    else img.stream[img.offsets[sector] as int + offset % 512]
  }

  /** The 512 bytes `image_fetch_sector` writes for `sector`. */
  function SectorData(img: Image, sector: uint16): (d: seq<byte>)
    requires WellFormed(img)
    ensures |d| == 512
  {
    if sector as int >= |img.offsets| || img.offsets[sector] == IMAGE_EMPTY_SECTOR then Zeros(512)
    else img.stream[img.offsets[sector] as int .. img.offsets[sector] as int + 512]
  }

  /** Fetching a sector agrees with fetching its bytes one at a time. */
  lemma SectorDataIsBytes(img: Image, sector: uint16, j: nat)
    requires WellFormed(img) && j < 512
    ensures SectorData(img, sector)[j] == FetchByte(img, sector as int * 512 + j)
  {
    assert (sector as int * 512 + j) / 512 == sector as int;
    assert (sector as int * 512 + j) % 512 == j;
  }

  lemma EncodedIsWellFormed(raw: seq<byte>, img: Image)
    requires Encodes(raw, img)
    ensures WellFormed(img)
  {
    var p, n := Padded(raw), SectorCount(|raw|);
    FullCountBounds(p, n);
    forall i | 0 <= i < |img.offsets| && img.offsets[i] != IMAGE_EMPTY_SECTOR
      ensures img.offsets[i] as int + 512 <= |img.stream|
    {
      StreamLength(p, n);
      PopulatedMonotone(p, i, n);
    }
  }

  /** Round trip: every byte of the padded image is fetched back unchanged. */
  lemma RoundTrip(raw: seq<byte>, img: Image, offset: uint32)
    requires Encodes(raw, img)
    requires offset < img.sectors * 512
    ensures WellFormed(img)
    ensures FetchByte(img, offset) == Padded(raw)[offset]
  {
    EncodedIsWellFormed(raw, img);
    var p, n := Padded(raw), SectorCount(|raw|);
    var s, j := offset / 512, offset % 512;
    assert offset == s * 512 + j;
    FullCountBounds(p, n);
    if s < |img.offsets| && img.offsets[s] != IMAGE_EMPTY_SECTOR {
      SentinelIffEmpty(raw, img, s);
      StreamAt(p, n, s, j);
    } else if s < |img.offsets| {
      SentinelIffEmpty(raw, img, s);
      assert IsEmpty(p, s);
    } else {
      assert IsEmpty(p, s);
    }
  }

  /** The inner byte scan of compress.py's encoder loop; it stops at the first non-zero byte. */
  method ScanSector(data: seq<byte>, i: nat) returns (emptySector: bool)
    requires i * 512 + 512 <= |data|
    ensures emptySector <==> IsEmpty(data, i)
  {
    emptySector := true;
    var j := 0;
    while j < 512
      invariant 0 <= j <= 512
      invariant forall m :: i * 512 <= m < i * 512 + j ==> data[m] == 0
    {
      if data[i * 512 + j] != 0 {
        emptySector := false;
        break;
      }
      j := j + 1;
    }
  }

  /** The encoder's state after the first `i` sectors. */
  predicate Progress(p: seq<byte>, i: nat, fullCount: nat, stream: seq<byte>, offsets: seq<uint16>)
    requires i * 512 <= |p|
  {
    fullCount == FullCount(p, i) && stream == Stream(p, i) && |stream| == 512 * Populated(p, i)
    && Fits(p, i) && |offsets| == i && forall k :: 0 <= k < i ==> offsets[k] as int == Entry(p, k)
  }

  /** An empty sector adds only the sentinel to the table. */
  lemma ProgressEmpty(p: seq<byte>, i: nat, fullCount: nat, stream: seq<byte>, offsets: seq<uint16>)
    requires i * 512 + 512 <= |p| && Progress(p, i, fullCount, stream, offsets) && IsEmpty(p, i)
    ensures Progress(p, i + 1, fullCount, stream, offsets + [IMAGE_EMPTY_SECTOR])
  {
    FitsExtend(p, i);
    EntriesExtend(p, offsets, IMAGE_EMPTY_SECTOR);
  }

  /** A populated sector is recorded at the stream's length and appended to it. */
  lemma ProgressFull(p: seq<byte>, i: nat, fullCount: nat, stream: seq<byte>, offsets: seq<uint16>)
    requires i * 512 + 512 <= |p| && Progress(p, i, fullCount, stream, offsets) && !IsEmpty(p, i)
    requires |stream| < 0xFFFF
    ensures Progress(p, i + 1, i + 1, stream + p[i * 512 .. i * 512 + 512], offsets + [|stream|])
  {
    FitsExtend(p, i);
    EntriesExtend(p, offsets, |stream|);
  }

  /** The encoder loop of compress.py. The table is cut to the first
      `fullCount` entries when it is emitted. */
  method Compress(raw: seq<byte>) returns (r: Result<Image, CompressError>)
    ensures r.Ok? <==> Fits(Padded(raw), SectorCount(|raw|))
    ensures r.Ok? ==> Encodes(raw, r.value)
  {
    var sectors := SectorCount(|raw|);
    var data := Padded(raw);
    var stream: seq<byte> := [];
    var fullCount := 0;
    var sectorOffsets: seq<uint16> := [];
    var i := 0;
    while i < sectors
      invariant 0 <= i <= sectors
      invariant Progress(data, i, fullCount, stream, sectorOffsets)
    {
      var emptySector := ScanSector(data, i);
      if emptySector {
        ProgressEmpty(data, i, fullCount, stream, sectorOffsets);
        sectorOffsets := sectorOffsets + [IMAGE_EMPTY_SECTOR];
      } else {
        if |stream| >= 0xFFFF {
          NotFits(data, i, sectors);
          return Err(StreamTooBig(i));
        }
        ProgressFull(data, i, fullCount, stream, sectorOffsets);
        fullCount := i + 1;
        sectorOffsets := sectorOffsets + [|stream|];
        stream := stream + data[i * 512 .. i * 512 + 512];
      }
      i := i + 1;
    }
    FullCountBounds(data, sectors);
    r := Ok(Image(sectors, sectorOffsets[..fullCount], stream));
  }

  lemma EntriesExtend(p: seq<byte>, offsets: seq<uint16>, e: uint16)
    requires |offsets| * 512 + 512 <= |p|
    requires forall k :: 0 <= k < |offsets| ==> offsets[k] as int == Entry(p, k)
    requires e as int == Entry(p, |offsets|)
    ensures forall k :: 0 <= k <= |offsets| ==> (offsets + [e])[k] as int == Entry(p, k)
  {
  }

  lemma FitsExtend(p: seq<byte>, i: nat)
    requires i * 512 + 512 <= |p| && Fits(p, i)
    requires !IsEmpty(p, i) ==> 512 * Populated(p, i) < 0xFFFF
    ensures Fits(p, i + 1)
  {
  }

  lemma NotFits(p: seq<byte>, i: nat, n: nat)
    requires i < n && n * 512 <= |p|
    requires !IsEmpty(p, i) && 512 * Populated(p, i) >= 0xFFFF
    ensures !Fits(p, n)
  {
  }

  /** `image_fetch_sector`: the caller's buffer receives the sector's 512 bytes. */
  method FetchSector(img: Image, sector: uint16, data: array<byte>)
    requires WellFormed(img)
    requires data.Length >= 512
    modifies data
    ensures data[..512] == SectorData(img, sector)
    ensures data[512..] == old(data[512..])
  {
    var src := SectorData(img, sector);
    var k := 0;
    while k < 512
      invariant 0 <= k <= 512
      invariant data[..k] == src[..k]
      invariant data[512..] == old(data[512..])
    {
      data[k] := src[k];
      k := k + 1;
    }
  }
}
