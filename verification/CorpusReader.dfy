/** Opening, scrubbing and searching one generation of the corpus. */
module CorpusReader {
  import opened Common
  import opened Bytes
  import opened CorpusFormat

  /** The bytes of prefix range `p` in a data file laid out by `ix`. */
  function RangeOf(ix: Layout, n: nat, file: seq<byte>, p: nat): (chunk: seq<byte>)
    requires Tiles(ix, n) && p < PREFIX_COUNT && |file| == HEADER_SIZE + RECORD_SIZE * n
    ensures |chunk| == RECORD_SIZE * (ix.offsets[p + 1] - ix.offsets[p])
  {
    file[HEADER_SIZE + RECORD_SIZE * ix.offsets[p]..HEADER_SIZE + RECORD_SIZE * ix.offsets[p + 1]]
  }

  /** Record `i` of a range is in its range, has a positive count and follows its predecessor. */
  predicate RecordFits(recs: seq<Record>, p: nat, i: nat)
    requires i < |recs|
  {
    PrefixOf(recs[i]) == p && CountOf(recs[i]) != 0 && (i > 0 ==> Less(KeyOf(recs[i - 1]), KeyOf(recs[i])))
  }

  ghost predicate RangeScrubbed(h: Hash, digest: Digest, chunk: seq<byte>, p: nat)
  {
    && h(chunk) == digest
    && forall i | 0 <= i < |Records(chunk)| :: RecordFits(Records(chunk), p, i)
  }

  /** What `loadVersion` establishes about a data file: its size and header. */
  predicate FileLoaded(m: Manifest, file: seq<byte>) {
    && m.recordCount <= MAX_RECORDS
    && |file| == m.dataSize == HEADER_SIZE + RECORD_SIZE * m.recordCount
    && file[..HEADER_SIZE] == Header(DATA_MAGIC, m.datasetId, m.recordCount)
  }

  /** The complete scrub: every range is as indexed and sorted, and the whole file has the manifest's digest. */
  ghost predicate Scrubbed(h: Hash, ix: Layout, m: Manifest, file: seq<byte>)
    requires Tiles(ix, m.recordCount) && FileLoaded(m, file)
  {
    && (forall p | 0 <= p < PREFIX_COUNT :: RangeScrubbed(h, ix.digests[p], RangeOf(ix, m.recordCount, file, p), p))
    && h(file) == m.dataDigest
  }

  method ScrubRange(h: Hash, digest: Digest, chunk: seq<byte>, p: nat) returns (problem: Option<Problem>)
    ensures problem == None <==> RangeScrubbed(h, digest, chunk, p)
  {
    if h(chunk) != digest {
      return Some(CorruptRange);
    }
    var recs := Records(chunk);
    var i := 0;
    while i < |recs|
      invariant 0 <= i <= |recs|
      invariant forall j | 0 <= j < i :: RecordFits(recs, p, j)
    {
      if !RecordFits(recs, p, i) {
        return Some(InvalidRecords);
      }
      i := i + 1;
    }
    problem := None;
  }

  lemma EmptyScrubbed(h: Hash, digest: Digest, p: nat)
    requires h([]) == digest
    ensures RangeScrubbed(h, digest, [], p)
  {
  }

  /** The data file up to the start of range `p`. */
  function Before(ix: Layout, n: nat, file: seq<byte>, p: nat): seq<byte>
    requires Tiles(ix, n) && p <= PREFIX_COUNT && |file| == HEADER_SIZE + RECORD_SIZE * n
  {
    assert ix.offsets[p] <= ix.offsets[PREFIX_COUNT];
    file[..HEADER_SIZE + RECORD_SIZE * ix.offsets[p]]
  }

  lemma BeforeNext(ix: Layout, n: nat, file: seq<byte>, p: nat)
    requires Tiles(ix, n) && p < PREFIX_COUNT && |file| == HEADER_SIZE + RECORD_SIZE * n
    ensures Before(ix, n, file, p + 1) == Before(ix, n, file, p) + RangeOf(ix, n, file, p)
  {
  }

  /** `verifyContents`: the digest is streamed range by range, yet it is the digest of the whole file. */
  method VerifyContents(h: Hash, ix: Layout, m: Manifest, file: seq<byte>) returns (problem: Option<Problem>)
    requires Tiles(ix, m.recordCount) && FileLoaded(m, file)
    requires forall p | 0 <= p < PREFIX_COUNT && ix.offsets[p] == ix.offsets[p + 1] :: ix.digests[p] == h([])
    ensures problem == None <==> Scrubbed(h, ix, m, file)
  {
    var stream := Header(DATA_MAGIC, m.datasetId, m.recordCount);
    var p := 0;
    while p < PREFIX_COUNT
      invariant 0 <= p <= PREFIX_COUNT
      invariant stream == Before(ix, m.recordCount, file, p)
      invariant forall q | 0 <= q < p :: RangeScrubbed(h, ix.digests[q], RangeOf(ix, m.recordCount, file, q), q)
    {
      var chunk := RangeOf(ix, m.recordCount, file, p);
      if |chunk| != 0 {
        var bad := ScrubRange(h, ix.digests[p], chunk, p);
        if bad.Some? {
          return bad;
        }
        stream := stream + chunk;
      } else {
        EmptyScrubbed(h, ix.digests[p], p);
        assert chunk == [] && stream == stream + chunk;
      }
      BeforeNext(ix, m.recordCount, file, p);
      p := p + 1;
    }
    assert stream == file;
    problem := if h(stream) != m.dataDigest then Some(DataChecksumMismatch) else None;
  }

  // ----- what a scrubbed file is

  /** The records of a data file. */
  function FileRecords(file: seq<byte>): seq<Record>
    requires |file| >= HEADER_SIZE
  {
    Records(file[HEADER_SIZE..])
  }

  lemma SliceOfSlice(s: seq<byte>, x: nat, y: nat, i: nat, j: nat)
    requires x <= y <= |s| && i <= j <= y - x
    ensures s[x..y][i..j] == s[x + i..x + j]
  {
    var mid := s[x..y];
    forall k | 0 <= k < j - i ensures mid[i..j][k] == s[x + i..x + j][k] {
      assert mid[i..j][k] == mid[i + k];
    }
  }

  lemma RangeRecords(ix: Layout, n: nat, file: seq<byte>, p: nat)
    requires Tiles(ix, n) && p < PREFIX_COUNT && |file| == HEADER_SIZE + RECORD_SIZE * n
    ensures |FileRecords(file)| == n && ix.offsets[p] <= ix.offsets[p + 1] <= n
    ensures Records(RangeOf(ix, n, file, p)) == FileRecords(file)[ix.offsets[p]..ix.offsets[p + 1]]
  {
    var a, b := ix.offsets[p], ix.offsets[p + 1];
    var chunk, recs := RangeOf(ix, n, file, p), FileRecords(file);
    assert ix.offsets[p + 1] <= ix.offsets[PREFIX_COUNT];
    forall i | 0 <= i < b - a ensures Records(chunk)[i] == recs[a..b][i] {
      SliceOfSlice(file, HEADER_SIZE + RECORD_SIZE * a, HEADER_SIZE + RECORD_SIZE * b, RECORD_SIZE * i,
          RECORD_SIZE * (i + 1));
      SliceOfSlice(file, HEADER_SIZE, |file|, RECORD_SIZE * (a + i), RECORD_SIZE * (a + i + 1));
      assert file[HEADER_SIZE..] == file[HEADER_SIZE..|file|];
      assert Records(chunk)[i] == RecordAt(chunk, i) && recs[a + i] == RecordAt(file[HEADER_SIZE..], a + i);
    }
  }

  /** Every record position lies in exactly one range. */
  lemma {:induction false} RangeAt(ix: Layout, n: nat, i: nat, top: nat) returns (p: nat)
    requires Tiles(ix, n) && top <= PREFIX_COUNT && i < ix.offsets[top]
    ensures p < top && ix.offsets[p] <= i < ix.offsets[p + 1] <= n
    decreases top
  {
    if ix.offsets[top - 1] <= i {
      p := top - 1;
      assert ix.offsets[p + 1] <= ix.offsets[PREFIX_COUNT];
    } else {
      p := RangeAt(ix, n, i, top - 1);
    }
  }

  lemma {:induction false} FitsAscend(recs: seq<Record>, p: nat, i: nat, j: nat)
    requires i < j < |recs| && forall k | 0 <= k < |recs| :: RecordFits(recs, p, k)
    ensures Less(KeyOf(recs[i]), KeyOf(recs[j]))
    decreases j
  {
    assert RecordFits(recs, p, j);
    if i < j - 1 {
      FitsAscend(recs, p, i, j - 1);
      LessTransitive(KeyOf(recs[i]), KeyOf(recs[j - 1]), KeyOf(recs[j]));
    }
  }

  /** Records cut by the offsets into ranges that each ascend within one prefix. */
  ghost predicate Ranged(ix: Layout, recs: seq<Record>) {
    && Tiles(ix, |recs|)
    && forall p, i | 0 <= p < PREFIX_COUNT && 0 <= i < |recs| && ix.offsets[p] <= i < ix.offsets[p + 1] ::
         RecordRanged(ix, recs, p, i)
  }

  predicate RecordRanged(ix: Layout, recs: seq<Record>, p: nat, i: nat)
    requires Complete(ix) && p < PREFIX_COUNT && i < |recs|
  {
    && PrefixOf(recs[i]) == p && CountOf(recs[i]) > 0
    && (ix.offsets[p] < i ==> Less(KeyOf(recs[i - 1]), KeyOf(recs[i])))
  }

  /** The offsets cut the records exactly where their prefixes change. */
  ghost predicate CutByPrefix(ix: Layout, recs: seq<Record>)
    requires Complete(ix)
  {
    forall i, p | 0 <= i < |recs| && 0 <= p < PREFIX_COUNT ::
      PrefixOf(recs[i]) == p <==> ix.offsets[p] <= i < ix.offsets[p + 1]
  }

  lemma ScrubbedRanged(h: Hash, ix: Layout, m: Manifest, file: seq<byte>)
    requires Tiles(ix, m.recordCount) && FileLoaded(m, file) && Scrubbed(h, ix, m, file)
    ensures Ranged(ix, FileRecords(file)) && |FileRecords(file)| == m.recordCount
  {
    var recs, n := FileRecords(file), m.recordCount;
    forall p, i | 0 <= p < PREFIX_COUNT && 0 <= i < |recs| && ix.offsets[p] <= i < ix.offsets[p + 1]
      ensures RecordRanged(ix, recs, p, i)
    {
      var chunk := RangeOf(ix, n, file, p);
      RangeRecords(ix, n, file, p);
      assert RangeScrubbed(h, ix.digests[p], chunk, p);
      ChunkRanged(ix, recs, Records(chunk), p, i);
    }
  }

  lemma ChunkRanged(ix: Layout, recs: seq<Record>, part: seq<Record>, p: nat, i: nat)
    requires Complete(ix) && p < PREFIX_COUNT && ix.offsets[p] <= i < ix.offsets[p + 1] <= |recs|
    requires part == recs[ix.offsets[p]..ix.offsets[p + 1]]
    requires forall k | 0 <= k < |part| :: RecordFits(part, p, k)
    ensures RecordRanged(ix, recs, p, i)
  {
    assert RecordFits(part, p, i - ix.offsets[p]);
  }

  lemma {:induction false} RangedAscends(ix: Layout, recs: seq<Record>, i: nat, j: nat)
    requires Ranged(ix, recs) && i < j < |recs|
    ensures Less(KeyOf(recs[i]), KeyOf(recs[j]))
    decreases j
  {
    var p := RangeAt(ix, |recs|, j, PREFIX_COUNT);
    assert RecordRanged(ix, recs, p, j);
    if ix.offsets[p] < j {
      if i < j - 1 {
        RangedAscends(ix, recs, i, j - 1);
        LessTransitive(KeyOf(recs[i]), KeyOf(recs[j - 1]), KeyOf(recs[j]));
      }
    } else {
      var q := RangeAt(ix, |recs|, i, PREFIX_COUNT);
      assert RecordRanged(ix, recs, q, i);
      assert ix.offsets[q] <= i < ix.offsets[p];
      PrefixDecides(KeyOf(recs[i]), KeyOf(recs[j]));
    }
  }

  /**
   Whatever the index check and the scrub accept is one globally strictly ascending, hence duplicate-free,
   sequence of records with positive counts, which the offsets cut exactly where the prefixes change.
   */
  lemma AcceptedIsSorted(h: Hash, ix: Layout, m: Manifest, file: seq<byte>)
    requires Tiles(ix, m.recordCount) && FileLoaded(m, file) && Scrubbed(h, ix, m, file)
    ensures |FileRecords(file)| == m.recordCount
    ensures Ascending(FileRecords(file)) && Positive(FileRecords(file)) && CutByPrefix(ix, FileRecords(file))
  {
    ScrubbedRanged(h, ix, m, file);
    RangedSorted(ix, FileRecords(file));
  }

  lemma RangedSorted(ix: Layout, recs: seq<Record>)
    requires Ranged(ix, recs)
    ensures Ascending(recs) && Positive(recs) && CutByPrefix(ix, recs)
  {
    forall i, j | 0 <= i < j < |recs| ensures Less(KeyOf(recs[i]), KeyOf(recs[j])) {
      RangedAscends(ix, recs, i, j);
    }
    forall i | 0 <= i < |recs| ensures CountOf(recs[i]) > 0 {
      var p := RangeAt(ix, |recs|, i, PREFIX_COUNT);
      assert RecordRanged(ix, recs, p, i);
    }
    forall i, p | 0 <= i < |recs| && 0 <= p < PREFIX_COUNT
      ensures PrefixOf(recs[i]) == p <==> ix.offsets[p] <= i < ix.offsets[p + 1]
    {
      var q := RangeAt(ix, |recs|, i, PREFIX_COUNT);
      assert RecordRanged(ix, recs, q, i);
      if p < q { assert ix.offsets[p + 1] <= ix.offsets[q]; }
      if q < p { assert ix.offsets[q + 1] <= ix.offsets[p]; }
    }
  }

  // ----- the open snapshot

  /** A lock on a generation's lease file.  The lock may be given back only once. */
  class Lease {
    var held: bool

    constructor ()
      ensures held
    {
      held := true;
    }

    method Release()
      requires held
      modifies this
      ensures !held
    {
      held := false;
    }
  }

  class Snapshot {
    var closed: bool
    const index: Layout
    const manifest: Manifest
    const lease: Lease

    /** The lease is held exactly as long as the snapshot is open. */
    predicate Valid()
      reads this, lease
    {
      lease.held <==> !closed
    }

    constructor (index: Layout, manifest: Manifest, lease: Lease)
      requires lease.held
      ensures Valid() && !closed && this.index == index && this.manifest == manifest && this.lease == lease
    {
      closed := false;
      this.index := index;
      this.manifest := manifest;
      this.lease := lease;
    }

    /** Closing again does nothing: the lease is given back once. */
    method Close()
      requires Valid()
      modifies this, lease
      ensures Valid() && closed && !lease.held
    {
      if closed {
        return;
      }
      closed := true;
      lease.Release();
    }

    /**
     `Lookup` against whatever the data file holds now.  It refuses a closed snapshot, a file of another
     size and a range without its digest; on a sorted range it returns exactly the key's count.
     */
    method Lookup(h: Hash, file: seq<byte>, key: Key) returns (r: Result<u64, Problem>)
      requires Tiles(index, manifest.recordCount)
      requires manifest.dataSize == HEADER_SIZE + RECORD_SIZE * manifest.recordCount
      ensures closed ==> r == Failure(Closed)
      ensures !closed && |file| != manifest.dataSize ==> r == Failure(TruncatedData)
      ensures !closed && |file| == manifest.dataSize ==>
                Looked(h, index.digests[Prefix(key)], RangeOf(index, manifest.recordCount, file, Prefix(key)), key, r)
    {
      if closed {
        return Failure(Closed);
      }
      if |file| != manifest.dataSize {
        return Failure(TruncatedData);
      }
      var p := Prefix(key);
      var chunk := RangeOf(index, manifest.recordCount, file, p);
      if h(chunk) != index.digests[p] {
        return Failure(CorruptRange);
      }
      r := Find(chunk, key);
    }
  }

  /** The answer to a lookup in one range. */
  ghost predicate Looked(h: Hash, digest: Digest, chunk: seq<byte>, key: Key, r: Result<u64, Problem>)
  {
    && (h(chunk) != digest ==> r == Failure(CorruptRange))
    && (h(chunk) == digest && Ascending(Records(chunk)) && Positive(Records(chunk)) ==>
          r.Success? && IsCount(Records(chunk), key, r.value))
  }

  /** The binary search of a range and what `Lookup` reads where it ends. */
  method Find(chunk: seq<byte>, key: Key) returns (r: Result<u64, Problem>)
    ensures Ascending(Records(chunk)) && Positive(Records(chunk)) ==>
              r.Success? && IsCount(Records(chunk), key, r.value)
  {
    var n := |chunk| / RECORD_SIZE;
    var lo, hi := 0, n;
    ghost var recs := Records(chunk);
    while lo < hi
      invariant 0 <= lo <= hi <= n == |recs|
      invariant Ascending(recs) ==> forall j | 0 <= j < lo :: Less(KeyOf(recs[j]), key)
      invariant Ascending(recs) ==> forall j | hi <= j < n :: !Less(KeyOf(recs[j]), key)
    {
      var mid := (lo + hi) / 2;
      assert RecordAt(chunk, mid) == recs[mid];
      if !Less(KeyOf(RecordAt(chunk, mid)), key) {
        forall j | mid <= j < n && Ascending(recs) ensures !Less(KeyOf(recs[j]), key) {
          if j > mid && Less(KeyOf(recs[j]), key) { LessTransitive(KeyOf(recs[mid]), KeyOf(recs[j]), key); }
        }
        hi := mid;
      } else {
        forall j | 0 <= j <= mid && Ascending(recs) ensures Less(KeyOf(recs[j]), key) {
          if j < mid { LessTransitive(KeyOf(recs[j]), KeyOf(recs[mid]), key); }
        }
        lo := mid + 1;
      }
    }
    if lo < n && KeyOf(RecordAt(chunk, lo)) == key {
      var count := CountOf(RecordAt(chunk, lo));
      assert RecordAt(chunk, lo) == recs[lo];
      if Ascending(recs) { OnlyOne(recs, lo, key); }
      if count == 0 {
        return Failure(CorruptRange);
      }
      return Success(count);
    }
    if Ascending(recs) {
      forall r | r in recs ensures KeyOf(r) != key {
        var j :| 0 <= j < |recs| && recs[j] == r;
        LessTrichotomy(key, key);
      }
    }
    r := Success(0);
  }

  /** In an ascending sequence the record found is the only one with its key. */
  lemma OnlyOne(recs: seq<Record>, i: nat, key: Key)
    requires Ascending(recs) && i < |recs| && KeyOf(recs[i]) == key
    ensures IsCount(recs, key, CountOf(recs[i]))
  {
    forall r | r in recs && KeyOf(r) == key ensures r == recs[i] {
      var j :| 0 <= j < |recs| && recs[j] == r;
      LessTrichotomy(key, key);
    }
    assert recs[i] in recs;
  }

  // ----- fail closed

  /** The three files of a generation as they are at some moment. */
  datatype Files = Files(manifest: seq<byte>, index: seq<byte>, data: seq<byte>)

  /** The manifest parser: some function of the manifest's bytes. */
  type Decoder = seq<byte> -> Option<Manifest>

  /** Everything `loadVersion` checks. */
  ghost predicate Loads(h: Hash, decode: Decoder, f: Files, id: DatasetId, expected: Option<Digest>) {
    && (expected.Some? ==> h(f.manifest) == expected.value)
    && decode(f.manifest).Some?
    && var m := decode(f.manifest).value;
    && Validate(m, id) == None
    && h(f.index) == m.indexDigest
    && |f.index| == INDEX_SIZE && IndexOk(h, LayoutOf(f.index), m)
    && FileLoaded(m, f.data)
  }

  method LoadVersion(h: Hash, decode: Decoder, f: Files, id: DatasetId, expected: Option<Digest>)
    returns (problem: Option<Problem>)
    ensures problem == None <==> Loads(h, decode, f, id, expected)
  {
    if expected.Some? && h(f.manifest) != expected.value {
      return Some(ManifestMismatch);
    }
    if decode(f.manifest).None? {
      return Some(InvalidManifest);
    }
    var m := decode(f.manifest).value;
    var invalid := Validate(m, id);
    if invalid.Some? {
      return invalid;
    }
    if h(f.index) != m.indexDigest {
      return Some(InvalidIndex);
    }
    var bad := CheckIndex(h, f.index, m);
    if bad.Some? {
      return bad;
    }
    if |f.data| != m.dataSize {
      return Some(TruncatedData);
    }
    if f.data[..HEADER_SIZE] != Header(DATA_MAGIC, id, m.recordCount) {
      return Some(InvalidHeader);
    }
    problem := None;
  }

  /** A generation that `Verify` and `Activate` accept. */
  ghost predicate Verified(h: Hash, decode: Decoder, f: Files, id: DatasetId) {
    && Loads(h, decode, f, id, None)
    && Tiles(LayoutOf(f.index), decode(f.manifest).value.recordCount)
    && Scrubbed(h, LayoutOf(f.index), decode(f.manifest).value, f.data)
  }

  method Verify(h: Hash, decode: Decoder, f: Files, id: DatasetId) returns (problem: Option<Problem>)
    ensures problem == None <==> Verified(h, decode, f, id)
  {
    problem := LoadVersion(h, decode, f, id, None);
    if problem == None {
      var m, ix := decode(f.manifest).value, LayoutOf(f.index);
      IndexTiles(h, ix, m);
      forall p | 0 <= p < PREFIX_COUNT && ix.offsets[p] == ix.offsets[p + 1] ensures ix.digests[p] == h([]) {
        assert RangeFits(h, ix, m.recordCount, p);
      }
      problem := VerifyContents(h, ix, m, f.data);
    }
  }

  /** A key's range of a scrubbed file gives the key the count the whole file gives it. */
  lemma RangeAnswers(h: Hash, ix: Layout, m: Manifest, file: seq<byte>, key: Key)
    requires Tiles(ix, m.recordCount) && FileLoaded(m, file) && Scrubbed(h, ix, m, file)
    ensures var part := Records(RangeOf(ix, m.recordCount, file, Prefix(key)));
            && Ascending(part) && Positive(part)
            && forall n :: IsCount(part, key, n) <==> IsCount(FileRecords(file), key, n)
  {
    AcceptedIsSorted(h, ix, m, file);
    var p := Prefix(key);
    RangeRecords(ix, m.recordCount, file, p);
    PartAnswers(ix, FileRecords(file), Records(RangeOf(ix, m.recordCount, file, p)), key);
  }

  lemma PartAnswers(ix: Layout, recs: seq<Record>, part: seq<Record>, key: Key)
    requires Complete(ix) && CutByPrefix(ix, recs) && Ascending(recs) && Positive(recs)
    requires ix.offsets[Prefix(key)] <= ix.offsets[Prefix(key) + 1] <= |recs|
    requires part == recs[ix.offsets[Prefix(key)]..ix.offsets[Prefix(key) + 1]]
    ensures Ascending(part) && Positive(part)
    ensures forall n :: IsCount(part, key, n) <==> IsCount(recs, key, n)
  {
    var a := ix.offsets[Prefix(key)];
    forall i, j | 0 <= i < j < |part| ensures Less(KeyOf(part[i]), KeyOf(part[j])) {
      assert part[i] == recs[a + i] && part[j] == recs[a + j];
    }
    forall r | KeyOf(r) == key ensures r in part <==> r in recs {
      if r in recs {
        var i :| 0 <= i < |recs| && recs[i] == r;
        assert PrefixOf(recs[i]) == Prefix(key);
        assert part[i - a] == r;
      }
    }
  }

  /** What a reader relies on once `loadVersion` has returned: the decoded manifest and index. */
  ghost predicate LoadedAs(h: Hash, decode: Decoder, f: Files, m: Manifest, ix: Layout) {
    && decode(f.manifest) == Some(m)
    && h(f.index) == m.indexDigest
    && |f.index| == INDEX_SIZE && LayoutOf(f.index) == ix
    && Tiles(ix, m.recordCount)
    && m.dataSize == HEADER_SIZE + RECORD_SIZE * m.recordCount
  }

  lemma LoadsAs(h: Hash, decode: Decoder, f: Files, id: DatasetId, expected: Option<Digest>)
    requires Loads(h, decode, f, id, expected)
    ensures LoadedAs(h, decode, f, decode(f.manifest).value, LayoutOf(f.index))
  {
    IndexTiles(h, LayoutOf(f.index), decode(f.manifest).value);
  }

  /** A lookup in any data file of the right size answers from the scrubbed one, or fails, or a hash collides. */
  lemma LookupFailsClosed(h: Hash, ix: Layout, m: Manifest, file: seq<byte>, data: seq<byte>, key: Key,
      r: Result<u64, Problem>)
    requires Tiles(ix, m.recordCount) && FileLoaded(m, file) && Scrubbed(h, ix, m, file) && |data| == m.dataSize
    requires Looked(h, ix.digests[Prefix(key)], RangeOf(ix, m.recordCount, data, Prefix(key)), key, r)
    ensures r.Failure? || IsCount(FileRecords(file), key, r.value) ||
            Collision(h, RangeOf(ix, m.recordCount, file, Prefix(key)), RangeOf(ix, m.recordCount, data, Prefix(key)))
    ensures data == file ==> r.Success?
  {
    RangeAnswers(h, ix, m, file, key);
    assert RangeScrubbed(h, ix.digests[Prefix(key)], RangeOf(ix, m.recordCount, file, Prefix(key)), Prefix(key));
  }

  /**
   Fail closed.  Let Activate have verified `f`, decoded as `m` and `ix`, and recorded its manifest's digest.
   Whatever the three files hold when Open reads them, and whatever the data file holds when Lookup reads
   it, an answer that is given is the one in the verified data, unless two of the byte strings compared on
   the way are a hash collision.
   */
  lemma FailClosed(
    h: Hash, decode: Decoder, f: Files, m: Manifest, ix: Layout,
    later: Files, m': Manifest, ix': Layout, data: seq<byte>, key: Key, r: Result<u64, Problem>)
    requires LoadedAs(h, decode, f, m, ix) && FileLoaded(m, f.data) && Scrubbed(h, ix, m, f.data)
    requires LoadedAs(h, decode, later, m', ix') && h(later.manifest) == h(f.manifest)
    requires |data| == m'.dataSize
    requires Looked(h, ix'.digests[Prefix(key)], RangeOf(ix', m'.recordCount, data, Prefix(key)), key, r)
    ensures r.Failure? || IsCount(FileRecords(f.data), key, r.value)
            || Collision(h, f.manifest, later.manifest)
            || Collision(h, f.index, later.index)
            || (ix' == ix && m' == m &&
                Collision(h, RangeOf(ix, m.recordCount, f.data, Prefix(key)),
                    RangeOf(ix, m.recordCount, data, Prefix(key))))
  {
    if later.manifest == f.manifest {
      assert m' == m;
      if later.index == f.index {
        assert ix' == ix;
        LookupFailsClosed(h, ix, m, f.data, data, key, r);
      }
    }
  }
}
