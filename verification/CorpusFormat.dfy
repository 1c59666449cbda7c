/**
 The sealed files of one generation of the offline password corpus: 28-byte records sorted by key,
 an index with one offset per 20-bit prefix and one digest per prefix range, and a manifest.
 */
module CorpusFormat {
  import opened Common
  import opened Bytes

  const HEADER_SIZE: nat := 128
  const RECORD_SIZE: nat := 28
  const KEY_SIZE: nat := 20
  const PREFIX_BITS: nat := 20
  const PREFIX_COUNT: nat := 0x10_0000
  const MAX_RANGE_BYTES: nat := 0x20_0000
  const RANGE_CAPACITY: nat := MAX_RANGE_BYTES / RECORD_SIZE
  const MAX_RECORDS: nat := PREFIX_COUNT * RANGE_CAPACITY
  const INDEX_SIZE: nat := HEADER_SIZE + 8 * (PREFIX_COUNT + 1) + 32 * PREFIX_COUNT
  const FORMAT_VERSION: nat := 1

  /** "ASPWNDAT" and "ASPWNIDX" */
  const DATA_MAGIC: seq<byte> := [0x41, 0x53, 0x50, 0x57, 0x4e, 0x44, 0x41, 0x54]
  const INDEX_MAGIC: seq<byte> := [0x41, 0x53, 0x50, 0x57, 0x4e, 0x49, 0x44, 0x58]

  type DatasetId = s: seq<byte> | |s| == 16 witness seq(16, _ => 0)
  type Key = s: seq<byte> | |s| == KEY_SIZE witness seq(20, _ => 0)
  type Record = s: seq<byte> | |s| == RECORD_SIZE witness seq(28, _ => 0)

  datatype Problem =
    | InvalidInput | InvalidCount | InvalidPrefixOrder | DuplicateRecord | CapacityExceeded | ChecksumMismatch
    | InvalidIndex | InvalidHeader | ManifestMismatch | InvalidManifest | UnsupportedFormat | TruncatedData
    | CorruptRange | InvalidRecords | DataChecksumMismatch | Closed

  function KeyOf(r: Record): Key { r[..KEY_SIZE] }

  function CountOf(r: Record): u64 {
    Be64(0, r[KEY_SIZE..]);
    FromBe(r[KEY_SIZE..])
  }

  function MakeRecord(key: Key, n: u64): (r: Record)
    ensures KeyOf(r) == key && CountOf(r) == n
  {
    Be64(n, ToBe(n, 8));
    var r := key + ToBe(n, 8);
    assert r[..KEY_SIZE] == key && r[KEY_SIZE..] == ToBe(n, 8);
    r
  }

  /** The first 20 bits of a key. */
  function Prefix(key: Key): (p: nat)
    ensures p < PREFIX_COUNT
  {
    (key[0] as int) * 4096 + (key[1] as int) * 16 + (key[2] as int) / 16
  }

  function PrefixOf(r: Record): nat { Prefix(KeyOf(r)) }

  /** Bytewise order of keys never runs against the order of their prefixes. */
  lemma PrefixMonotone(a: Key, b: Key)
    requires Less(a, b)
    ensures Prefix(a) <= Prefix(b)
  {
    if a[0] == b[0] {
      var x, y := a[1..], b[1..];
      assert Less(x, y) && x[0] == a[1] && y[0] == b[1];
      if x[0] == y[0] {
        assert Less(x[1..], y[1..]) && x[1..][0] == a[2] && y[1..][0] == b[2];
        assert a[2] <= b[2];
      }
    }
  }

  lemma PrefixDecides(a: Key, b: Key)
    requires Prefix(a) < Prefix(b)
    ensures Less(a, b)
  {
    LessTrichotomy(a, b);
    if Less(b, a) { PrefixMonotone(b, a); }
  }

  // ----- record files

  function Flat(recs: seq<Record>): (s: seq<byte>)
    ensures |s| == RECORD_SIZE * |recs|
  {
    if recs == [] then [] else Flat(recs[..|recs| - 1]) + recs[|recs| - 1]
  }

  lemma {:induction false} FlatAppend(a: seq<Record>, b: seq<Record>)
    ensures Flat(a + b) == Flat(a) + Flat(b)
    decreases |b|
  {
    if b == [] {
      assert a + b == a;
    } else {
      var n := |b| - 1;
      FlatAppend(a, b[..n]);
      assert (a + b)[..|a + b| - 1] == a + b[..n];
    }
  }

  lemma CutMiddle(x: seq<byte>, y: seq<byte>, z: seq<byte>)
    ensures (x + y + z)[|x|..|x| + |y|] == y
  {
  }

  lemma FlatSlice(recs: seq<Record>, a: nat, b: nat)
    requires a <= b <= |recs|
    ensures Flat(recs)[RECORD_SIZE * a..RECORD_SIZE * b] == Flat(recs[a..b])
  {
    var left, mid, right := recs[..a], recs[a..b], recs[b..];
    assert recs == (left + mid) + right;
    FlatAppend(left + mid, right);
    FlatAppend(left, mid);
    CutMiddle(Flat(left), Flat(mid), Flat(right));
  }

  function RecordAt(s: seq<byte>, i: nat): Record
    requires RECORD_SIZE * (i + 1) <= |s|
  {
    s[RECORD_SIZE * i..RECORD_SIZE * (i + 1)]
  }

  /** The whole records of a byte string. */
  function Records(s: seq<byte>): (recs: seq<Record>)
    ensures |recs| == |s| / RECORD_SIZE
    ensures forall i | 0 <= i < |recs| :: recs[i] == RecordAt(s, i)
  {
    seq(|s| / RECORD_SIZE, i requires 0 <= i < |s| / RECORD_SIZE => RecordAt(s, i))
  }

  /** A byte string of whole records is the flattening of its records. */
  lemma {:induction false} FlatRecords(s: seq<byte>, n: nat)
    requires |s| == RECORD_SIZE * n
    ensures Flat(Records(s)) == s && |Records(s)| == n
    decreases n
  {
    if n == 0 {
      assert Records(s) == [];
    } else {
      var front := s[..RECORD_SIZE * (n - 1)];
      FlatRecords(front, n - 1);
      forall i | 0 <= i < n - 1 ensures Records(s)[i] == Records(front)[i] {
        assert RecordAt(s, i) == RecordAt(front, i);
      }
      assert Records(s)[..n - 1] == Records(front);
      assert s == front + RecordAt(s, n - 1);
    }
  }

  lemma RecordsFlat(recs: seq<Record>)
    ensures Records(Flat(recs)) == recs
  {
    forall i | 0 <= i < |recs| ensures Records(Flat(recs))[i] == recs[i] {
      FlatSlice(recs, i, i + 1);
      assert recs[i..i + 1] == [recs[i]];
      assert Flat([recs[i]]) == Flat([]) + recs[i] by { assert [recs[i]][..0] == []; }
    }
  }

  // ----- sorted record sequences

  ghost predicate Ascending(recs: seq<Record>) {
    forall i, j | 0 <= i < j < |recs| :: Less(KeyOf(recs[i]), KeyOf(recs[j]))
  }

  predicate Positive(recs: seq<Record>) { forall i | 0 <= i < |recs| :: CountOf(recs[i]) > 0 }

  /** `n` is the count that `recs` give for `key`: its record's count, or 0 if it has none. */
  ghost predicate IsCount(recs: seq<Record>, key: Key, n: nat) {
    && (forall r | r in recs && KeyOf(r) == key :: CountOf(r) == n)
    && ((forall r | r in recs :: KeyOf(r) != key) ==> n == 0)
  }

  /** How many records have a prefix below `p`. */
  function CountBelow(recs: seq<Record>, p: nat): (n: nat)
    ensures n <= |recs|
  {
    if recs == [] then 0
    else CountBelow(recs[..|recs| - 1], p) + (if PrefixOf(recs[|recs| - 1]) < p then 1 else 0)
  }

  // ----- the index file

  function Header(magic: seq<byte>, id: DatasetId, n: u64): (s: seq<byte>)
    requires |magic| == 8
    ensures |s| == HEADER_SIZE
  {
    magic + ToBe(FORMAT_VERSION, 4) + [1, PREFIX_BITS] + ToBe(RECORD_SIZE, 2) + id + ToBe(n, 8) + Zeros(88)
  }

  function Offset(idx: seq<byte>, p: nat): u64
    requires |idx| == INDEX_SIZE && p <= PREFIX_COUNT
  {
    var field := idx[HEADER_SIZE + 8 * p..HEADER_SIZE + 8 * (p + 1)];
    Be64(0, field);
    FromBe(field)
  }

  function DigestAt(p: nat): nat { HEADER_SIZE + 8 * (PREFIX_COUNT + 1) + 32 * p }

  function RangeDigest(idx: seq<byte>, p: nat): Digest
    requires |idx| == INDEX_SIZE && p < PREFIX_COUNT
  {
    idx[DigestAt(p)..DigestAt(p) + 32]
  }

  /** An index file read field by field: its header, its offsets and its range digests. */
  datatype Layout = Layout(header: seq<byte>, offsets: seq<u64>, digests: seq<Digest>)

  function LayoutOf(idx: seq<byte>): Layout
    requires |idx| == INDEX_SIZE
  {
    Layout(
      idx[..HEADER_SIZE],
      seq(PREFIX_COUNT + 1, p requires 0 <= p <= PREFIX_COUNT => Offset(idx, p)),
      seq(PREFIX_COUNT, p requires 0 <= p < PREFIX_COUNT => RangeDigest(idx, p)))
  }

  /** `dataSize`. */
  function DataSize(n: nat): Result<nat, Problem> {
    if n > MAX_RECORDS then Failure(CapacityExceeded) else Success(HEADER_SIZE + n * RECORD_SIZE)
  }

  /** The manifest's fields; texts and times enter as whether they have the accepted form. */
  datatype Manifest = Manifest(
    knownFormat: bool, datasetId: DatasetId, recordCount: u64, dataSize: int, indexSize: int,
    dataDigest: Digest, indexDigest: Digest, maxRangeBytes: u64, complete: bool, timesParse: bool)

  function Validate(m: Manifest, id: DatasetId): Option<Problem> {
    match DataSize(m.recordCount)
    case Failure(e) => Some(e)
    case Success(size) =>
      if !m.knownFormat then Some(UnsupportedFormat)
      else if m.datasetId != id || m.recordCount == 0 || m.dataSize != size || m.indexSize != INDEX_SIZE ||
              !m.complete || m.maxRangeBytes == 0 || m.maxRangeBytes > MAX_RANGE_BYTES || !m.timesParse
      then Some(InvalidManifest)
      else None
  }

  predicate Complete(ix: Layout) { |ix.offsets| == PREFIX_COUNT + 1 && |ix.digests| == PREFIX_COUNT }

  function RangeBytes(ix: Layout, p: nat): int
    requires Complete(ix) && p < PREFIX_COUNT
  {
    (ix.offsets[p + 1] - ix.offsets[p]) * RECORD_SIZE
  }

  predicate RangeFits(h: Hash, ix: Layout, n: nat, p: nat)
    requires Complete(ix) && p < PREFIX_COUNT
  {
    && ix.offsets[p] <= ix.offsets[p + 1] <= n
    && RangeBytes(ix, p) <= MAX_RANGE_BYTES
    && (RangeBytes(ix, p) == 0 ==> ix.digests[p] == h([]))
  }

  /** The offsets tile 0..n, the largest range is the manifest's, and empty ranges carry the empty digest. */
  ghost predicate IndexOk(h: Hash, ix: Layout, m: Manifest) {
    && Complete(ix)
    && ix.header == Header(INDEX_MAGIC, m.datasetId, m.recordCount)
    && ix.offsets[0] == 0 && ix.offsets[PREFIX_COUNT] == m.recordCount
    && (forall p | 0 <= p < PREFIX_COUNT :: RangeFits(h, ix, m.recordCount, p))
    && (forall p | 0 <= p < PREFIX_COUNT :: RangeBytes(ix, p) <= m.maxRangeBytes)
    && (m.maxRangeBytes == 0 || exists p | 0 <= p < PREFIX_COUNT :: RangeBytes(ix, p) == m.maxRangeBytes)
  }

  /** Offsets that ascend from 0 to `n`. */
  ghost predicate Tiles(ix: Layout, n: nat) {
    && Complete(ix)
    && ix.offsets[0] == 0 && ix.offsets[PREFIX_COUNT] == n
    && forall p, q | 0 <= p <= q <= PREFIX_COUNT :: ix.offsets[p] <= ix.offsets[q]
  }

  lemma {:induction false} OffsetsGrow(h: Hash, ix: Layout, m: Manifest, p: nat, q: nat)
    requires IndexOk(h, ix, m) && p <= q <= PREFIX_COUNT
    ensures ix.offsets[p] <= ix.offsets[q]
    decreases q - p
  {
    if p < q {
      OffsetsGrow(h, ix, m, p, q - 1);
      assert RangeFits(h, ix, m.recordCount, q - 1);
      assert q - 1 + 1 == q;
    }
  }

  lemma IndexTiles(h: Hash, ix: Layout, m: Manifest)
    requires IndexOk(h, ix, m)
    ensures Tiles(ix, m.recordCount)
  {
    forall p, q | 0 <= p <= q <= PREFIX_COUNT ensures ix.offsets[p] <= ix.offsets[q] {
      OffsetsGrow(h, ix, m, p, q);
    }
  }

  /** `checkIndex`: one pass with a running maximum, in 64-bit numbers that cannot overflow. */
  method CheckIndex(h: Hash, idx: seq<byte>, m: Manifest) returns (problem: Option<Problem>)
    requires m.recordCount <= MAX_RECORDS
    ensures problem == None <==> |idx| == INDEX_SIZE && IndexOk(h, LayoutOf(idx), m)
  {
    if |idx| != INDEX_SIZE {
      return Some(InvalidIndex);
    }
    problem := CheckLayout(h, LayoutOf(idx), m);
  }

  method CheckLayout(h: Hash, ix: Layout, m: Manifest) returns (problem: Option<Problem>)
    requires m.recordCount <= MAX_RECORDS && Complete(ix)
    ensures problem == None <==> IndexOk(h, ix, m)
  {
    if ix.header != Header(INDEX_MAGIC, m.datasetId, m.recordCount) {
      return Some(InvalidHeader);
    }
    if ix.offsets[0] != 0 || ix.offsets[PREFIX_COUNT] != m.recordCount {
      return Some(InvalidIndex);
    }
    var largest: u64 := 0;
    var p := 0;
    while p < PREFIX_COUNT
      invariant 0 <= p <= PREFIX_COUNT
      invariant forall q | 0 <= q < p :: RangeFits(h, ix, m.recordCount, q) && RangeBytes(ix, q) <= largest
      invariant largest == 0 || exists q | 0 <= q < p :: RangeBytes(ix, q) == largest
    {
      var a, b := ix.offsets[p], ix.offsets[p + 1];
      assert RangeFits(h, ix, m.recordCount, p) ==> a <= b <= m.recordCount;
      if b < a || b > m.recordCount {
        return Some(InvalidIndex);
      }
      var size: u64 := (b - a) * RECORD_SIZE;
      assert size == RangeBytes(ix, p);
      if size > MAX_RANGE_BYTES {
        return Some(CapacityExceeded);
      }
      if size > largest {
        largest := size;
      }
      if size == 0 && ix.digests[p] != h([]) {
        return Some(InvalidIndex);
      }
      p := p + 1;
    }
    problem := if largest != m.maxRangeBytes then Some(ManifestMismatch) else None;
  }
}
