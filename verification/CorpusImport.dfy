/** Building one generation: the streaming importer, its offset index and its range digests. */
module CorpusImport {
  import opened Common
  import opened Bytes
  import opened CorpusFormat
  import opened CorpusReader
  import opened CorpusParse
  import Sorting

  // ----- sorting one prefix group

  predicate KeyLess(a: Record, b: Record) { Less(KeyOf(a), KeyOf(b)) }

  function SortByKey(recs: seq<Record>): (s: seq<Record>)
    ensures multiset(s) == multiset(recs) && |s| == |recs|
  {
    Sorting.Sort(recs, KeyLess)
  }

  /** No key twice, and no record twice. */
  ghost predicate UniqueKeys(recs: multiset<Record>) {
    && (forall r | r in recs :: recs[r] == 1)
    && (forall r, s | r in recs && s in recs && KeyOf(r) == KeyOf(s) :: r == s)
  }

  lemma NotLessTransitive(a: Key, b: Key, c: Key)
    requires !Less(b, a) && !Less(c, b)
    ensures !Less(c, a)
  {
    LessTrichotomy(a, b);
    LessTrichotomy(b, c);
    if Less(c, a) {
      if a == b { } else { LessTransitive(c, a, b); }
    }
  }

  lemma SortSorts(recs: seq<Record>)
    ensures Sorting.Sorted(SortByKey(recs), KeyLess)
  {
    forall a, b ensures !(KeyLess(a, b) && KeyLess(b, a)) {
      LessTrichotomy(KeyOf(a), KeyOf(b));
    }
    forall a, b, c | !KeyLess(b, a) && !KeyLess(c, b) ensures !KeyLess(c, a) {
      NotLessTransitive(KeyOf(a), KeyOf(b), KeyOf(c));
    }
    Sorting.SortSorts(recs, KeyLess);
  }

  /** In sorted order a repeated key shows up in neighbours. */
  lemma SortedNeighbours(s: seq<Record>, i: nat)
    requires Sorting.Sorted(s, KeyLess) && 0 < i < |s|
    ensures KeyOf(s[i - 1]) == KeyOf(s[i]) ==> !UniqueKeys(multiset(s))
    ensures KeyOf(s[i - 1]) != KeyOf(s[i]) ==> Less(KeyOf(s[i - 1]), KeyOf(s[i]))
  {
    LessTrichotomy(KeyOf(s[i - 1]), KeyOf(s[i]));
    if KeyOf(s[i - 1]) == KeyOf(s[i]) && s[i - 1] == s[i] {
      assert s == s[..i - 1] + [s[i]] + [s[i]] + s[i + 1..];
      assert multiset(s)[s[i]] >= 2;
    } else {
      assert s[i - 1] in multiset(s) && s[i] in multiset(s);
    }
  }

  lemma AscendingUnique(recs: seq<Record>)
    requires Ascending(recs)
    ensures UniqueKeys(multiset(recs))
  {
    forall r, s | r in recs && s in recs && KeyOf(r) == KeyOf(s) ensures r == s {
      var i :| 0 <= i < |recs| && recs[i] == r;
      OnlyOne(recs, i, KeyOf(r));
      var j :| 0 <= j < |recs| && recs[j] == s;
      LessTrichotomy(KeyOf(r), KeyOf(s));
    }
    forall r | r in multiset(recs) ensures multiset(recs)[r] == 1 {
      AscendingOnce(recs, r);
    }
  }

  lemma {:induction false} AscendingOnce(recs: seq<Record>, r: Record)
    requires Ascending(recs)
    ensures multiset(recs)[r] <= 1
    decreases |recs|
  {
    if recs != [] {
      var n := |recs| - 1;
      assert recs == recs[..n] + [recs[n]];
      AscendingOnce(recs[..n], r);
      if r == recs[n] && r in recs[..n] {
        var i :| 0 <= i < n && recs[i] == r;
        LessTrichotomy(KeyOf(r), KeyOf(r));
      }
    }
  }

  // ----- the index under construction

  /** The bytes of an index agree with a layout on every digest and on the offsets below `next`. */
  ghost predicate Holds(idx: seq<byte>, ix: Layout, next: nat) {
    && |idx| == INDEX_SIZE && Complete(ix) && next <= PREFIX_COUNT + 1
    && (forall p | 0 <= p < next :: Offset(idx, p) == ix.offsets[p])
    && (forall p | 0 <= p < PREFIX_COUNT :: RangeDigest(idx, p) == ix.digests[p])
  }

  lemma OffsetWritten(idx: seq<byte>, p: nat, at: nat, field: seq<byte>, n: u64)
    requires |idx| == INDEX_SIZE && p <= PREFIX_COUNT && at == HEADER_SIZE + 8 * p && field == ToBe(n, 8)
    ensures Offset(Splice(idx, at, field), p) == n
  {
    SpliceSlices(idx, at, field, at, at + 8);
    Be64(n, field);
  }

  lemma OffsetKept(idx: seq<byte>, at: nat, field: seq<byte>, p: nat)
    requires |idx| == INDEX_SIZE && at + |field| <= INDEX_SIZE && p <= PREFIX_COUNT
    requires HEADER_SIZE + 8 * p + 8 <= at || at + |field| <= HEADER_SIZE + 8 * p
    ensures Offset(Splice(idx, at, field), p) == Offset(idx, p)
  {
    SpliceSlices(idx, at, field, HEADER_SIZE + 8 * p, HEADER_SIZE + 8 * (p + 1));
  }

  lemma DigestKept(idx: seq<byte>, at: nat, field: seq<byte>, p: nat)
    requires |idx| == INDEX_SIZE && at + |field| <= INDEX_SIZE && p < PREFIX_COUNT
    requires DigestAt(p) + 32 <= at || at + |field| <= DigestAt(p)
    ensures RangeDigest(Splice(idx, at, field), p) == RangeDigest(idx, p)
  {
    SpliceSlices(idx, at, field, DigestAt(p), DigestAt(p) + 32);
  }

  lemma OffsetHolds(idx: seq<byte>, ix: Layout, next: nat)
    requires Holds(idx, ix, next) && next <= PREFIX_COUNT
    ensures Holds(Splice(idx, HEADER_SIZE + 8 * next, ToBe(ix.offsets[next], 8)), ix, next + 1)
  {
    var at, field := HEADER_SIZE + 8 * next, ToBe(ix.offsets[next], 8);
    OffsetWritten(idx, next, at, field, ix.offsets[next]);
    forall p | 0 <= p < next ensures Offset(Splice(idx, at, field), p) == ix.offsets[p] {
      OffsetKept(idx, at, field, p);
    }
    forall p | 0 <= p < PREFIX_COUNT ensures RangeDigest(Splice(idx, at, field), p) == ix.digests[p] {
      DigestKept(idx, at, field, p);
    }
  }

  lemma DigestHolds(idx: seq<byte>, ix: Layout, next: nat, c: nat, digest: Digest)
    requires Holds(idx, ix, next) && c < PREFIX_COUNT
    ensures Holds(Splice(idx, DigestAt(c), digest), ix.(digests := ix.digests[c := digest]), next)
  {
    var at := DigestAt(c);
    forall p | 0 <= p < next ensures Offset(Splice(idx, at, digest), p) == ix.offsets[p] {
      OffsetKept(idx, at, digest, p);
    }
    forall p | 0 <= p < PREFIX_COUNT ensures RangeDigest(Splice(idx, at, digest), p) == ix.digests[c := digest][p] {
      if p == c { SpliceSlices(idx, at, digest, at, at + 32); } else { DigestKept(idx, at, digest, p); }
    }
  }

  lemma HeaderHolds(idx: seq<byte>, ix: Layout, next: nat, header: seq<byte>)
    requires Holds(idx, ix, next) && |header| == HEADER_SIZE
    ensures Holds(Splice(idx, 0, header), ix, next)
  {
    forall p | 0 <= p < next ensures Offset(Splice(idx, 0, header), p) == ix.offsets[p] {
      OffsetKept(idx, 0, header, p);
    }
    forall p | 0 <= p < PREFIX_COUNT ensures RangeDigest(Splice(idx, 0, header), p) == ix.digests[p] {
      DigestKept(idx, 0, header, p);
    }
  }

  // ----- what the layout says about the records written so far

  ghost predicate RangeBuilt(h: Hash, ix: Layout, done: seq<Record>, p: nat)
    requires Tiles(ix, |done|) && p < PREFIX_COUNT
  {
    var part := done[ix.offsets[p]..ix.offsets[p + 1]];
    ix.digests[p] == h(Flat(part)) && forall k | 0 <= k < |part| :: RecordFits(part, p, k)
  }

  /** Every range is as it will be; ranges from `next` on are still empty. */
  ghost predicate Built(h: Hash, ix: Layout, done: seq<Record>, next: nat) {
    && Tiles(ix, |done|)
    && (forall p | next <= p <= PREFIX_COUNT :: ix.offsets[p] == |done|)
    && (forall p | 0 <= p < PREFIX_COUNT :: RangeBuilt(h, ix, done, p))
  }

  /** The running maximum of the range sizes. */
  ghost predicate Largest(ix: Layout, largest: nat)
    requires Complete(ix)
  {
    && (forall p | 0 <= p < PREFIX_COUNT :: RangeBytes(ix, p) <= largest)
    && (largest == 0 || exists p | 0 <= p < PREFIX_COUNT :: RangeBytes(ix, p) == largest)
  }

  function EmptyLayout(h: Hash): Layout {
    Layout([], seq(PREFIX_COUNT + 1, _ => 0), seq(PREFIX_COUNT, _ => h([])))
  }

  lemma EmptyBuilt(h: Hash)
    ensures Built(h, EmptyLayout(h), [], 0) && Largest(EmptyLayout(h), 0)
  {
    var ix := EmptyLayout(h);
    assert Flat([]) == [];
    forall p | 0 <= p < PREFIX_COUNT ensures RangeBuilt(h, ix, [], p) {
    }
  }

  /** The layout after range `c` has been written with `part`, with `total` records in all. */
  function Grow(h: Hash, ix: Layout, part: seq<Record>, c: nat, total: u64): (r: Layout)
    requires Complete(ix) && c < PREFIX_COUNT
    ensures Complete(r)
  {
    Layout(
      ix.header,
      seq(PREFIX_COUNT + 1, p requires 0 <= p <= PREFIX_COUNT => if p <= c then ix.offsets[p] else total),
      ix.digests[c := h(Flat(part))])
  }

  lemma GrowTiles(h: Hash, ix: Layout, done: seq<Record>, next: nat, part: seq<Record>, c: nat)
    requires Built(h, ix, done, next) && next <= c < PREFIX_COUNT && |done| + |part| < TWO_64
    ensures Tiles(Grow(h, ix, part, c, |done| + |part|), |done + part|)
  {
    var r := Grow(h, ix, part, c, |done| + |part|);
    forall p, q | 0 <= p <= q <= PREFIX_COUNT ensures r.offsets[p] <= r.offsets[q] {
      assert ix.offsets[p] <= ix.offsets[PREFIX_COUNT];
    }
  }

  lemma GrowRange(h: Hash, ix: Layout, done: seq<Record>, next: nat, part: seq<Record>, c: nat, p: nat)
    requires Built(h, ix, done, next) && next <= c < PREFIX_COUNT && |done| + |part| < TWO_64 && p < PREFIX_COUNT
    requires forall k | 0 <= k < |part| :: RecordFits(part, c, k)
    requires Tiles(Grow(h, ix, part, c, |done| + |part|), |done + part|)
    ensures RangeBuilt(h, Grow(h, ix, part, c, |done| + |part|), done + part, p)
  {
    var all, r := done + part, Grow(h, ix, part, c, |done| + |part|);
    var x, y := ix.offsets[p], ix.offsets[p + 1];
    assert RangeBuilt(h, ix, done, p);
    assert y <= ix.offsets[PREFIX_COUNT] == |done|;
    if p < c {
      assert r.offsets[p] == x && r.offsets[p + 1] == y && all[x..y] == done[x..y];
    } else if p == c {
      assert r.offsets[p] == |done| && r.offsets[p + 1] == |all| && all[|done|..|all|] == part;
    } else {
      assert r.offsets[p] == r.offsets[p + 1] == |all| && x == y == |done|;
      assert all[|all|..|all|] == [] && done[x..y] == [];
    }
  }

  lemma GrowBuilt(h: Hash, ix: Layout, done: seq<Record>, next: nat, part: seq<Record>, c: nat)
    requires Built(h, ix, done, next) && next <= c < PREFIX_COUNT && |done| + |part| < TWO_64
    requires forall k | 0 <= k < |part| :: RecordFits(part, c, k)
    ensures Built(h, Grow(h, ix, part, c, |done| + |part|), done + part, c + 1)
  {
    GrowTiles(h, ix, done, next, part, c);
    var all, r := done + part, Grow(h, ix, part, c, |done| + |part|);
    forall p | 0 <= p < PREFIX_COUNT ensures RangeBuilt(h, r, all, p) {
      GrowRange(h, ix, done, next, part, c, p);
    }
  }

  lemma GrowHolds(h: Hash, idx: seq<byte>, ix: Layout, part: seq<Record>, c: nat, total: u64)
    requires c < PREFIX_COUNT && Holds(idx, ix, c + 1)
    ensures Holds(Splice(idx, DigestAt(c), h(Flat(part))), Grow(h, ix, part, c, total), c + 1)
  {
    DigestHolds(idx, ix, c + 1, c, h(Flat(part)));
  }

  lemma SortKeeps(recs: seq<Record>, c: int)
    requires forall i | 0 <= i < |recs| :: PrefixOf(recs[i]) == c && CountOf(recs[i]) > 0
    ensures forall i | 0 <= i < |recs| :: PrefixOf(SortByKey(recs)[i]) == c && CountOf(SortByKey(recs)[i]) > 0
  {
    var s := SortByKey(recs);
    forall i | 0 <= i < |s| ensures PrefixOf(s[i]) == c && CountOf(s[i]) > 0 {
      assert s[i] in multiset(s);
      assert s[i] in recs;
    }
  }

  lemma GrowLargest(h: Hash, ix: Layout, done: seq<Record>, next: nat, part: seq<Record>, c: nat, largest: nat)
    requires Built(h, ix, done, next) && next <= c < PREFIX_COUNT && |done| + |part| < TWO_64
    requires Largest(ix, largest)
    ensures var size := |part| * RECORD_SIZE;
            Largest(Grow(h, ix, part, c, |done| + |part|), if size > largest then size else largest)
  {
    var r := Grow(h, ix, part, c, |done| + |part|);
    var size := |part| * RECORD_SIZE;
    var top := if size > largest then size else largest;
    forall p | 0 <= p < PREFIX_COUNT
      ensures RangeBytes(r, p) == if p == c then size else RangeBytes(ix, p)
    {
    }
    if size > largest {
      assert RangeBytes(r, c) == top;
    } else if largest > 0 {
      assert RangeBytes(ix, c) == 0;
      var p :| 0 <= p < PREFIX_COUNT && RangeBytes(ix, p) == largest;
      assert RangeBytes(r, p) == largest;
    }
  }

  /** The records written so far, and what the counters and the layout say about them. */
  ghost predicate Written(h: Hash, ix: Layout, done: seq<Record>, next: nat, largest: u64, total: u64,
      data: seq<byte>) {
    && Complete(ix) && Built(h, ix, done, next) && Largest(ix, largest) && largest <= MAX_RANGE_BYTES && total == |done|
    && |data| >= HEADER_SIZE && data[HEADER_SIZE..] == Flat(done)
  }

  lemma GrowWritten(h: Hash, ix: Layout, done: seq<Record>, next: nat, largest: u64, data: seq<byte>,
      part: seq<Record>, c: nat)
    requires |part| <= RANGE_CAPACITY && |done| + |part| < TWO_64 && next <= c < PREFIX_COUNT
    requires Written(h, ix, done, next, largest, |done|, data)
    requires forall k | 0 <= k < |part| :: RecordFits(part, c, k)
    ensures var size := |part| * RECORD_SIZE;
            Written(h, Grow(h, ix, part, c, |done| + |part|), done + part, c + 1,
                    if size > largest then size else largest, |done| + |part|, data + Flat(part))
  {
    GrowBuilt(h, ix, done, next, part, c);
    GrowLargest(h, ix, done, next, part, c, largest);
    FlatAppend(done, part);
    TailGrows(data, Flat(part));
  }

  lemma TailGrows(data: seq<byte>, more: seq<byte>)
    requires |data| >= HEADER_SIZE
    ensures (data + more)[HEADER_SIZE..] == data[HEADER_SIZE..] + more
  {
  }

  // ----- the input

  /** How many bytes of `s` its first line takes with its newline; 0 if there is no newline. */
  function LineEnd(s: seq<byte>): (k: nat)
    ensures k <= |s| && IsLineEnd(s, k)
  {
    if s == [] then 0
    else if s[0] == NEWLINE then 1
    else
      var k := LineEnd(s[1..]);
      if k == 0 then 0 else k + 1
  }

  /** `s[k - 1]` is the first newline of `s`, or `k` is 0 and there is none. */
  predicate IsLineEnd(s: seq<byte>, k: nat)
    requires k <= |s|
  {
    if k == 0 then forall i | 0 <= i < |s| :: s[i] != NEWLINE
    else s[k - 1] == NEWLINE && forall i | 0 <= i < k - 1 :: s[i] != NEWLINE
  }

  method ReadLine(input: seq<byte>, pos: nat) returns (k: nat)
    requires pos <= |input|
    ensures k == LineEnd(input[pos..])
  {
    var i := pos;
    while i < |input| && input[i] != NEWLINE
      invariant pos <= i <= |input|
      invariant forall j | pos <= j < i :: input[j] != NEWLINE
    {
      i := i + 1;
    }
    k := if i == |input| then 0 else i + 1 - pos;
    assert IsLineEnd(input[pos..], k);
    LineEndIs(input[pos..], k);
  }

  lemma LineEndIs(s: seq<byte>, k: nat)
    requires k <= |s| && IsLineEnd(s, k)
    ensures LineEnd(s) == k
  {
    assert IsLineEnd(s, LineEnd(s));
  }

  /** A line's record and whether it began with a byte-order mark. */
  datatype Entry = Entry(record: Record, bom: bool)

  function LineEntry(line: seq<byte>): Option<Entry> {
    if LineRecord(line).None? then None else Some(Entry(LineRecord(line).value, Strip(line).bom))
  }

  function Prepend(es: seq<Entry>, more: Option<seq<Entry>>): Option<seq<Entry>> {
    if more.None? then None else Some(es + more.value)
  }

  /** What the input holds, if every line of it, the last included, is a well-formed terminated line. */
  function Entries(input: seq<byte>): Option<seq<Entry>>
    decreases |input|
  {
    if input == [] then Some([])
    else
      var k := LineEnd(input);
      var e := LineEntry(input[..k]);
      if k == 0 || e.None? then None else Prepend([e.value], Entries(input[k..]))
  }

  function RecordsOf(es: seq<Entry>): (recs: seq<Record>)
    ensures |recs| == |es| && forall i | 0 <= i < |es| :: recs[i] == es[i].record
  {
    seq(|es|, i requires 0 <= i < |es| => es[i].record)
  }

  predicate Follows(a: Entry, b: Entry) {
    PrefixOf(a.record) < PrefixOf(b.record) || (PrefixOf(a.record) == PrefixOf(b.record) && !b.bom)
  }

  /** Prefixes never fall, and a byte-order mark only opens a new prefix. */
  predicate Ordered(es: seq<Entry>) { forall i | 0 < i < |es| :: Follows(es[i - 1], es[i]) }

  /** No more records share a prefix than a range can hold. */
  predicate Roomy(es: seq<Entry>) {
    forall i | RANGE_CAPACITY <= i < |es| :: PrefixOf(es[i - RANGE_CAPACITY].record) != PrefixOf(es[i].record)
  }

  ghost predicate Buildable(es: seq<Entry>) { Ordered(es) && Roomy(es) && UniqueKeys(multiset(RecordsOf(es))) }

  /** The inputs that an import accepts. */
  ghost predicate Acceptable(h: Hash, input: seq<byte>, expected: Digest) {
    && |input| / 43 <= MAX_RECORDS
    && h(input) == expected
    && Entries(input).Some? && Entries(input).value != [] && Buildable(Entries(input).value)
  }

  /** What is still to be read after `pos` bytes. */
  function Left(input: seq<byte>, pos: nat): Option<seq<Entry>>
    requires pos <= |input|
  {
    Entries(input[pos..])
  }

  /** One line off the front of the rest of an input. */
  lemma EntriesNext(input: seq<byte>, pos: nat, next: nat, line: seq<byte>, e: Option<Entry>)
    requires pos < |input| && next == pos + LineEnd(input[pos..]) && line == input[pos..next] && e == LineEntry(line)
    ensures Left(input, pos) == if pos == next || e.None? then None else Prepend([e.value], Left(input, next))
    ensures pos < next && e.Some? ==> pos + 43 <= next
  {
    var rest, k := input[pos..], next - pos;
    assert rest[..k] == line && rest[k..] == input[next..];
    if e.Some? { LineLength(line); }
  }

  lemma PrependNext(whole: Option<seq<Entry>>, es: seq<Entry>, left: Option<seq<Entry>>, e: Entry,
      more: Option<seq<Entry>>)
    requires whole == Prepend(es, left) && left == Prepend([e], more)
    ensures whole == Prepend(es + [e], more)
  {
    if more.Some? { assert es + ([e] + more.value) == (es + [e]) + more.value; }
  }

  lemma PrependNothing(es: seq<Entry>, more: Option<seq<Entry>>)
    ensures Prepend(es, Some([])) == Some(es) && Prepend([], more) == more
  {
    assert es + [] == es;
    if more.Some? { assert [] + more.value == more.value; }
  }

  lemma LineLength(line: seq<byte>)
    requires LineRecord(line).Some?
    ensures |line| >= 43
  {
  }

  lemma BuildablePrefix(es: seq<Entry>, rest: seq<Entry>)
    requires Buildable(es + rest)
    ensures Buildable(es)
  {
    var all := es + rest;
    forall i | 0 < i < |es| ensures Follows(es[i - 1], es[i]) {
      assert Follows(all[i - 1], all[i]);
    }
    forall i | RANGE_CAPACITY <= i < |es| ensures PrefixOf(es[i - RANGE_CAPACITY].record) != PrefixOf(es[i].record) {
      assert all[i] == es[i] && all[i - RANGE_CAPACITY] == es[i - RANGE_CAPACITY];
    }
    assert RecordsOf(all) == RecordsOf(es) + RecordsOf(rest);
    assert multiset(RecordsOf(es)) <= multiset(RecordsOf(all));
    if !UniqueKeys(multiset(RecordsOf(es))) { FewerKeys(multiset(RecordsOf(es)), multiset(RecordsOf(all))); }
  }

  lemma ReadOut(input: seq<byte>, pos: nat, es: seq<Entry>, left: Option<seq<Entry>>, whole: Option<seq<Entry>>)
    requires pos == |input| && left == Left(input, pos) && whole == Prepend(es, left)
    ensures whole == Some(es)
  {
    assert input[pos..] == [];
    PrependNothing(es, left);
  }

  /** An input whose beginning cannot be built cannot be built. */
  lemma Hopeless(whole: Option<seq<Entry>>, es: seq<Entry>, left: Option<seq<Entry>>)
    requires whole == Prepend(es, left) && !Buildable(es)
    ensures whole.Some? ==> !Buildable(whole.value)
  {
    if whole.Some? && Buildable(whole.value) {
      BuildablePrefix(es, left.value);
    }
  }

  /** After `es` the rest is unreadable, or its next entry is one that no import can take. */
  ghost predicate Doomed(es: seq<Entry>, left: Option<seq<Entry>>) {
    left == None || exists e, more :: left == Prepend([e], more) && !Buildable(es + [e])
  }

  lemma Misordered(es: seq<Entry>, e: Entry)
    requires es != [] && !Follows(es[|es| - 1], e)
    ensures !Buildable(es + [e])
  {
    var all := es + [e];
    assert all[|es| - 1] == es[|es| - 1] && all[|es|] == e;
  }

  lemma FewerKeys(a: multiset<Record>, b: multiset<Record>)
    requires a <= b && !UniqueKeys(a)
    ensures !UniqueKeys(b)
  {
    if UniqueKeys(b) {
      assert forall r | r in a :: r in b && a[r] <= b[r];
    }
  }

  /** The records read are those written and those collected for prefix `c`, in the order the input gives. */
  ghost predicate ReadUpTo(es: seq<Entry>, done: seq<Record>, group: seq<Record>, c: int) {
    && |es| == |done| + |group|
    && multiset(RecordsOf(es)) == multiset(done) + multiset(group)
    && (forall i | |done| <= i < |es| :: es[i].record == group[i - |done|])
    && (forall i | 0 <= i < |done| :: PrefixOf(es[i].record) < c)
    && Ordered(es) && Roomy(es)
  }

  lemma AfterFlush(es: seq<Entry>, done: seq<Record>, group: seq<Record>, c: int, next: int)
    requires ReadUpTo(es, done, group, c) && c < next
    requires forall i | 0 <= i < |group| :: PrefixOf(group[i]) == c
    ensures ReadUpTo(es, done + SortByKey(group), [], next)
  {
    forall i | 0 <= i < |es| ensures PrefixOf(es[i].record) < next {
      if i >= |done| { assert es[i].record == group[i - |done|]; }
    }
  }

  lemma RoomyWith(es: seq<Entry>, e: Entry, from: nat)
    requires Roomy(es) && |es| - from < RANGE_CAPACITY && from <= |es|
    requires forall i | 0 <= i < from :: PrefixOf(es[i].record) < PrefixOf(e.record)
    ensures Roomy(es + [e])
  {
    var all := es + [e];
    forall i | RANGE_CAPACITY <= i < |all| ensures PrefixOf(all[i - RANGE_CAPACITY].record) != PrefixOf(all[i].record) {
      if i < |es| { assert all[i] == es[i]; }
    }
  }

  lemma OrderedWith(es: seq<Entry>, e: Entry)
    requires Ordered(es) && (es == [] || Follows(es[|es| - 1], e))
    ensures Ordered(es + [e])
  {
    var all := es + [e];
    forall i | 0 < i < |all| ensures Follows(all[i - 1], all[i]) {
      if i < |es| { assert Follows(es[i - 1], es[i]); }
    }
  }

  lemma RecordsWith(es: seq<Entry>, e: Entry, done: multiset<Record>, group: seq<Record>)
    requires multiset(RecordsOf(es)) == done + multiset(group)
    ensures multiset(RecordsOf(es + [e])) == done + multiset(group + [e.record])
  {
    assert RecordsOf(es + [e]) == RecordsOf(es) + [e.record];
  }

  lemma Collected(es: seq<Entry>, e: Entry, done: seq<Record>, group: seq<Record>, c: int)
    requires ReadUpTo(es, done, group, c) && PrefixOf(e.record) == c && |group| < RANGE_CAPACITY
    requires es == [] || Follows(es[|es| - 1], e)
    ensures ReadUpTo(es + [e], done, group + [e.record], c)
  {
    RoomyWith(es, e, |done|);
    OrderedWith(es, e);
    RecordsWith(es, e, multiset(done), group);
  }

  lemma NoRoom(es: seq<Entry>, e: Entry, done: seq<Record>, group: seq<Record>, c: int)
    requires ReadUpTo(es, done, group, c) && PrefixOf(e.record) == c && |group| == RANGE_CAPACITY
    requires PrefixOf(group[0]) == c
    ensures !Roomy(es + [e])
  {
    var all := es + [e];
    assert all[|es|] == e && all[|es| - RANGE_CAPACITY] == es[|done|];
    assert es[|done|].record == group[0];
  }

  // ----- the importer

  /** What a caller of `Flush` knows about the collected group and its prefix. */
  predicate GroupOk(group: seq<Record>, current: int) {
    && -1 <= current < PREFIX_COUNT && |group| <= RANGE_CAPACITY && (group != [] ==> current >= 0)
    && (forall i | 0 <= i < |group| :: PrefixOf(group[i]) == current && CountOf(group[i]) > 0)
  }

  lemma GroupWith(group: seq<Record>, rec: Record)
    requires GroupOk(group, PrefixOf(rec)) && |group| < RANGE_CAPACITY && CountOf(rec) > 0
    ensures GroupOk(group + [rec], PrefixOf(rec))
  {
  }

  /**
   The state that `flush` carries from group to group: `next` is the first offset not yet stored and `data`
   is the record file.  The collected group and its prefix are handed to `Flush` by the import loop.
   */
  class Importer {
    const h: Hash
    const idx: array<byte>
    var next: nat
    var total: u64
    var largest: u64
    var data: seq<byte>
    ghost var done: seq<Record>
    ghost var ix: Layout

    ghost predicate Valid()
      reads this, idx
    {
      Holds(idx[..], ix, next) && Written(h, ix, done, next, largest, total, data)
    }

    constructor (h: Hash)
      ensures Valid() && fresh(idx) && this.h == h && next == 0 && done == []
    {
      this.h := h;
      idx := new byte[INDEX_SIZE](_ => 0);
      next, total, largest, data := 0, 0, 0, Zeros(HEADER_SIZE);
      done := [];
      ix := EmptyLayout(h);
      new;
      EmptyBuilt(h);
      MakeIndex();
      assert data[HEADER_SIZE..] == Flat(done);
    }

    /** The digest table of `makeIndex`. */
    method MakeIndex()
      requires idx.Length == INDEX_SIZE
      modifies idx
      ensures Holds(idx[..], EmptyLayout(h), 0)
    {
      var p := 0;
      while p < PREFIX_COUNT
        invariant 0 <= p <= PREFIX_COUNT
        invariant forall q | 0 <= q < p :: RangeDigest(idx[..], q) == h([])
      {
        ghost var before := idx[..];
        CopyInto(idx, DigestAt(p), h([]));
        forall q | 0 <= q <= p ensures RangeDigest(idx[..], q) == h([]) {
          SpliceSlices(before, DigestAt(p), h([]), DigestAt(q), DigestAt(q) + 32);
          assert q < p ==> RangeDigest(before, q) == h([]);
        }
        p := p + 1;
      }
    }

    /** `putOffset` for every prefix up to `limit` that has none yet. */
    method PutOffsets(limit: int)
      requires Holds(idx[..], ix, next) && next <= limit + 1 <= PREFIX_COUNT + 1
      requires forall p | next <= p <= limit :: ix.offsets[p] == total
      modifies idx, `next
      ensures next == limit + 1 && Holds(idx[..], ix, next)
    {
      while next <= limit
        invariant next <= limit + 1 && old(next) <= next && Holds(idx[..], ix, next)
      {
        assert ix.offsets[next] == total;
        OffsetHolds(idx[..], ix, next);
        CopyInto(idx, HEADER_SIZE + 8 * next, ToBe(total, 8));
        next := next + 1;
      }
    }

    /** The neighbour test of `flush` on the sorted group. */
    method HasDuplicate(s: seq<Record>) returns (found: bool)
      requires Sorting.Sorted(s, KeyLess)
      ensures found ==> !UniqueKeys(multiset(s))
      ensures !found ==> forall i | 0 < i < |s| :: Less(KeyOf(s[i - 1]), KeyOf(s[i]))
    {
      var i := 1;
      while i < |s|
        invariant 1 <= i
        invariant forall j | 0 < j < i && j < |s| :: Less(KeyOf(s[j - 1]), KeyOf(s[j]))
      {
        SortedNeighbours(s, i);
        if KeyOf(s[i - 1]) == KeyOf(s[i]) {
          return true;
        }
        i := i + 1;
      }
      found := false;
    }

    /** The records of a range go to the file and, one by one, into the range's digest. */
    method Write(part: seq<Record>) returns (digest: Digest)
      modifies `data
      ensures data == old(data) + Flat(part) && digest == h(Flat(part))
    {
      var stream := [];
      var i := 0;
      while i < |part|
        invariant 0 <= i <= |part|
        invariant stream == Flat(part[..i]) && data == old(data) + stream
      {
        assert part[..i + 1][..i] == part[..i];
        data, stream := data + part[i], stream + part[i];
        i := i + 1;
      }
      assert part[..|part|] == part;
      digest := h(stream);
    }

    /** `flush`: the collected group is sorted, checked, indexed and written. */
    method Flush(group: seq<Record>, current: int) returns (problem: Option<Problem>)
      requires Valid() && GroupOk(group, current)
      requires next <= current + 1 && (group != [] ==> next <= current) && total + |group| <= MAX_RECORDS
      modifies this, idx
      ensures problem.None? ==> Valid() && done == old(done) + SortByKey(group) && next <= current + 1
      ensures problem.Some? ==> !UniqueKeys(multiset(group))
    {
      if group == [] {
        assert done == done + SortByKey(group);
        return None;
      }
      SortSorts(group);
      SortKeeps(group, current);
      var sorted := SortByKey(group);
      var duplicate := HasDuplicate(sorted);
      if duplicate {
        return Some(DuplicateRecord);
      }
      Store(sorted, current);
      problem := None;
    }

    /** The second half of `flush`, once the group is known to ascend strictly. */
    method Store(part: seq<Record>, current: nat)
      requires Valid() && next <= current < PREFIX_COUNT
      requires 0 < |part| <= RANGE_CAPACITY && total + |part| <= MAX_RECORDS
      requires forall k | 0 <= k < |part| :: RecordFits(part, current, k)
      modifies this, idx
      ensures Valid() && done == old(done) + part && next == current + 1
    {
      GrowWritten(h, ix, done, next, largest, data, part, current);
      WriteRange(part, current);
      Advance(part, current);
    }

    method WriteRange(part: seq<Record>, current: nat)
      requires Valid() && next <= current < PREFIX_COUNT
      requires 0 < |part| <= RANGE_CAPACITY && total + |part| <= MAX_RECORDS
      modifies idx, `next, `data
      ensures next == current + 1 && data == old(data) + Flat(part)
      ensures Holds(idx[..], Grow(h, ix, part, current, total + |part|), next)
    {
      PutOffsets(current);
      var digest := Write(part);
      GrowHolds(h, idx[..], ix, part, current, total + |part|);
      CopyInto(idx, DigestAt(current), digest);
    }

    /** The counters after a range. */
    method Advance(part: seq<Record>, current: nat)
      requires current < PREFIX_COUNT && Complete(ix) && total + |part| <= MAX_RECORDS && |part| <= RANGE_CAPACITY
      modifies `ix, `done, `largest, `total
      ensures ix == Grow(h, old(ix), part, current, total) && total == old(total) + |part| && done == old(done) + part
      ensures largest == if |part| * RECORD_SIZE > old(largest) then |part| * RECORD_SIZE else old(largest)
    {
      ix, done := Grow(h, ix, part, current, total + |part|), done + part;
      var size: u64 := |part| * RECORD_SIZE;
      if size > largest {
        largest := size;
      }
      total := total + |part|;
    }

    // ----- the import loop

    /** What the import loop knows after the entries `es`. */
    ghost predicate Read(es: seq<Entry>, group: seq<Record>, current: int)
      reads this
    {
      && ReadUpTo(es, done, group, current) && GroupOk(group, current)
      && next <= current + 1 && (group != [] ==> next <= current)
      && (es == [] ==> current == -1) && (es != [] ==> group != [] && current == PrefixOf(es[|es| - 1].record))
    }

    /** One parsed record: a new prefix flushes the group before it, and a full group is an error. */
    method Add(rec: Record, ghost es: seq<Entry>, ghost bom: bool, group: seq<Record>, current: int)
      returns (group': seq<Record>, problem: Option<Problem>)
      requires Valid() && Read(es, group, current) && |es| < MAX_RECORDS && CountOf(rec) > 0
      requires es == [] || Follows(es[|es| - 1], Entry(rec, bom))
      modifies this, idx
      ensures problem.None? ==> Valid() && Read(es + [Entry(rec, bom)], group', PrefixOf(rec))
      ensures problem.Some? ==> !Roomy(es + [Entry(rec, bom)]) || !UniqueKeys(multiset(RecordsOf(es)))
    {
      group' := group;
      if PrefixOf(rec) != current {
        problem := Turn(es, group, current, PrefixOf(rec));
        if problem.Some? {
          return;
        }
        group' := [];
      }
      if |group'| == RANGE_CAPACITY {
        NoRoom(es, Entry(rec, bom), done, group', PrefixOf(rec));
        return group', Some(CapacityExceeded);
      }
      Collected(es, Entry(rec, bom), done, group', PrefixOf(rec));
      GroupWith(group', rec);
      group' := group' + [rec];
      problem := None;
    }

    /** A higher prefix `p` begins. */
    method Turn(ghost es: seq<Entry>, group: seq<Record>, current: int, ghost p: int) returns (problem: Option<Problem>)
      requires Valid() && Read(es, group, current) && |es| < MAX_RECORDS && current < p
      modifies this, idx
      ensures problem.None? ==> Valid() && ReadUpTo(es, done, [], p) && next <= p
      ensures problem.Some? ==> !UniqueKeys(multiset(RecordsOf(es)))
    {
      problem := Flush(group, current);
      if problem.Some? {
        FewerKeys(multiset(group), multiset(RecordsOf(es)));
      } else {
        AfterFlush(es, old(done), group, current, p);
      }
    }
  }

  /** One turn of the import loop up to its parsed record. */
  method Next(input: seq<byte>, pos: nat, current: int, ghost es: seq<Entry>, ghost left: Option<seq<Entry>>)
    returns (pos': nat, rec: Result<Record, Problem>, ghost bom: bool)
    requires pos < |input| && left == Left(input, pos)
    requires if es == [] then current == -1 else current == PrefixOf(es[|es| - 1].record)
    ensures pos' <= |input|
    ensures rec.Success? ==> pos + 43 <= pos' && left == Prepend([Entry(rec.value, bom)], Left(input, pos'))
    ensures rec.Success? ==> CountOf(rec.value) > 0 && (es == [] || Follows(es[|es| - 1], Entry(rec.value, bom)))
    ensures rec.Failure? ==> Doomed(es, left)
  {
    var k := ReadLine(input, pos);
    pos', bom := pos + k, false;
    ghost var line := input[pos..pos'];
    ghost var e := LineEntry(line);
    EntriesNext(input, pos, pos', line, e);
    if k == 0 {
      return pos', Failure(InvalidInput), false;
    }
    rec := ParseLine(input[pos..pos'], current);
    ParsedEntry(line, current, rec, e);
    if e.Some? {
      bom := e.value.bom;
      LineFollows(line, current, es, e.value);
    }
  }

  lemma ParsedEntry(line: seq<byte>, current: int, rec: Result<Record, Problem>, e: Option<Entry>)
    requires e == LineEntry(line)
    requires rec.Success? <==> LineRecord(line).Some? && OrderFits(line, PrefixOf(LineRecord(line).value), current)
    requires rec.Success? ==> rec.value == LineRecord(line).value
    ensures rec.Success? ==> e.Some? && rec.value == e.value.record && CountOf(rec.value) > 0
    ensures e.Some? ==> |line| > 0 && (rec.Success? <==> OrderFits(line, PrefixOf(e.value.record), current))
  {
    if LineRecord(line).Some? { LinePositive(line); }
  }

  lemma LineFollows(line: seq<byte>, current: int, es: seq<Entry>, e: Entry)
    requires LineEntry(line) == Some(e)
    requires if es == [] then current == -1 else current == PrefixOf(es[|es| - 1].record)
    ensures |line| > 0
    ensures OrderFits(line, PrefixOf(e.record), current) ==> es == [] || Follows(es[|es| - 1], e)
    ensures !OrderFits(line, PrefixOf(e.record), current) ==> !Buildable(es + [e])
  {
    if !OrderFits(line, PrefixOf(e.record), current) { Misordered(es, e); }
  }

  /** One turn of the import loop. */
  method Turn(b: Importer, input: seq<byte>, pos: nat, group: seq<Record>, current: int,
              ghost es: seq<Entry>, ghost left: Option<seq<Entry>>)
    returns (pos': nat, group': seq<Record>, current': int, problem: Option<Problem>, ghost e: Entry)
    requires b.Valid() && b.Read(es, group, current)
    requires 43 * |es| <= pos < |input| && |input| / 43 <= MAX_RECORDS && left == Left(input, pos)
    modifies b, b.idx
    ensures pos' <= |input|
    ensures problem.None? ==> b.Valid() && b.Read(es + [e], group', current')
    ensures problem.None? ==> pos + 43 <= pos' && left == Prepend([e], Left(input, pos'))
    ensures problem.Some? ==> Doomed(es, left)
  {
    var parsed;
    ghost var bom;
    pos', parsed, bom := Next(input, pos, current, es, left);
    group', current', e := group, current, Entry(Zeros(RECORD_SIZE), bom);
    if parsed.Failure? {
      problem := Some(parsed.error);
      return;
    }
    e := Entry(parsed.value, bom);
    group', problem := b.Add(parsed.value, es, bom, group, current);
    current' := PrefixOf(parsed.value);
    if problem.Some? && Buildable(es + [e]) { BuildablePrefix(es, [e]); }
  }

  /** The import loop: everything up to the end of the input. */
  method ReadAll(b: Importer, input: seq<byte>)
    returns (group: seq<Record>, current: int, problem: Option<Problem>)
    requires b.Valid() && b.Read([], [], -1) && |input| / 43 <= MAX_RECORDS
    modifies b, b.idx
    ensures problem.None? ==> b.Valid() && Left(input, 0).Some? && b.Read(Left(input, 0).value, group, current)
    ensures problem.Some? && Left(input, 0).Some? ==> !Buildable(Left(input, 0).value)
  {
    group, current := [], -1;
    var pos := 0;
    ghost var es: seq<Entry>, left := [], Left(input, 0);
    ghost var whole := left;
    PrependNothing([], whole);
    while pos < |input|
      invariant 43 * |es| <= pos <= |input|
      invariant whole == Prepend(es, left) && left == Left(input, pos)
      invariant b.Valid() && b.Read(es, group, current)
    {
      ghost var e;
      var next;
      next, group, current, problem, e := Turn(b, input, pos, group, current, es, left);
      if problem.Some? {
        Refused(whole, es, left);
        return;
      }
      PrependNext(whole, es, left, e, Left(input, next));
      es, left, pos := es + [e], Left(input, next), next;
    }
    ReadOut(input, pos, es, left, whole);
    problem := None;
  }

  lemma Refused(whole: Option<seq<Entry>>, es: seq<Entry>, left: Option<seq<Entry>>)
    requires whole == Prepend(es, left) && Doomed(es, left)
    ensures whole.Some? ==> !Buildable(whole.value)
  {
    if left != None {
      var e, more :| left == Prepend([e], more) && !Buildable(es + [e]);
      PrependNext(whole, es, left, e, more);
      Hopeless(whole, es + [e], more);
    }
  }

  lemma LinePositive(line: seq<byte>)
    requires LineRecord(line).Some?
    ensures CountOf(LineRecord(line).value) > 0
  {
  }

  // ----- sealing

  lemma SealIndex(idx: seq<byte>, ix: Layout, header: seq<byte>)
    requires Holds(idx, ix, PREFIX_COUNT + 1) && |header| == HEADER_SIZE
    ensures LayoutOf(Splice(idx, 0, header)) == Layout(header, ix.offsets, ix.digests)
  {
    var sealed := Splice(idx, 0, header);
    HeaderHolds(idx, ix, PREFIX_COUNT + 1, header);
    SpliceSlices(idx, 0, header, 0, HEADER_SIZE);
    forall p | 0 <= p <= PREFIX_COUNT ensures LayoutOf(sealed).offsets[p] == ix.offsets[p] {
      assert Offset(sealed, p) == ix.offsets[p];
    }
    forall p | 0 <= p < PREFIX_COUNT ensures LayoutOf(sealed).digests[p] == ix.digests[p] {
      assert RangeDigest(sealed, p) == ix.digests[p];
    }
  }

  lemma SealFits(h: Hash, ix: Layout, done: seq<Record>, p: nat, largest: nat)
    requires Built(h, ix, done, PREFIX_COUNT + 1) && p < PREFIX_COUNT
    requires RangeBytes(ix, p) <= largest <= MAX_RANGE_BYTES
    ensures RangeFits(h, ix, |done|, p)
  {
    assert ix.offsets[p + 1] <= ix.offsets[PREFIX_COUNT];
    assert RangeBuilt(h, ix, done, p);
    if ix.offsets[p] == ix.offsets[p + 1] {
      assert done[ix.offsets[p]..ix.offsets[p + 1]] == [] && Flat([]) == [];
    }
  }

  lemma SealIndexOk(h: Hash, ix: Layout, done: seq<Record>, largest: nat, m: Manifest)
    requires Built(h, ix, done, PREFIX_COUNT + 1) && Largest(ix, largest) && largest <= MAX_RANGE_BYTES
    requires ix.header == Header(INDEX_MAGIC, m.datasetId, m.recordCount)
    requires m.recordCount == |done| > 0 && m.maxRangeBytes == largest
    ensures IndexOk(h, ix, m) && largest > 0
  {
    forall p | 0 <= p < PREFIX_COUNT ensures RangeFits(h, ix, m.recordCount, p) && RangeBytes(ix, p) <= largest {
      SealFits(h, ix, done, p, largest);
    }
    var p := RangeAt(ix, |done|, 0, PREFIX_COUNT);
    assert RangeBytes(ix, p) > 0;
  }

  lemma PartScrubbed(h: Hash, part: seq<Record>, p: nat)
    requires forall k | 0 <= k < |part| :: RecordFits(part, p, k)
    ensures RangeScrubbed(h, h(Flat(part)), Flat(part), p)
  {
    RecordsFlat(part);
  }

  lemma FlatChunk(done: seq<Record>, header: seq<byte>, a: nat, b: nat, x: nat, y: nat)
    requires a <= b <= |done| && x == |header| + RECORD_SIZE * a && y == |header| + RECORD_SIZE * b
    ensures (header + Flat(done))[x..y] == Flat(done[a..b])
  {
    FlatSlice(done, a, b);
    ChunkOf(header, Flat(done), RECORD_SIZE * a, RECORD_SIZE * b, x, y);
  }

  lemma SealChunk(ix: Layout, done: seq<Record>, header: seq<byte>, p: nat, file: seq<byte>, a: nat, b: nat)
    requires Tiles(ix, |done|) && |header| == HEADER_SIZE && p < PREFIX_COUNT && file == header + Flat(done)
    requires a == ix.offsets[p] && b == ix.offsets[p + 1] && a <= b <= |done|
    ensures RangeOf(ix, |done|, file, p) == Flat(done[a..b])
  {
    FlatChunk(done, header, a, b, HEADER_SIZE + RECORD_SIZE * a, HEADER_SIZE + RECORD_SIZE * b);
  }

  lemma SealRange(h: Hash, ix: Layout, done: seq<Record>, header: seq<byte>, p: nat)
    requires Built(h, ix, done, PREFIX_COUNT + 1) && |header| == HEADER_SIZE && p < PREFIX_COUNT
    ensures RangeScrubbed(h, ix.digests[p], RangeOf(ix, |done|, header + Flat(done), p), p)
  {
    var a, b := ix.offsets[p], ix.offsets[p + 1];
    assert a <= b <= ix.offsets[PREFIX_COUNT];
    SealChunk(ix, done, header, p, header + Flat(done), a, b);
    assert RangeBuilt(h, ix, done, p);
    PartScrubbed(h, done[a..b], p);
  }

  lemma ChunkOf(header: seq<byte>, body: seq<byte>, a: nat, b: nat, x: nat, y: nat)
    requires a <= b <= |body| && x == |header| + a && y == |header| + b
    ensures (header + body)[x..y] == body[a..b]
  {
  }

  lemma SealScrubbed(h: Hash, ix: Layout, done: seq<Record>, header: seq<byte>, m: Manifest)
    requires Built(h, ix, done, PREFIX_COUNT + 1) && |header| == HEADER_SIZE && m.recordCount == |done|
    requires FileLoaded(m, header + Flat(done)) && m.dataDigest == h(header + Flat(done))
    ensures Scrubbed(h, ix, m, header + Flat(done)) && FileRecords(header + Flat(done)) == done
  {
    forall p | 0 <= p < PREFIX_COUNT
      ensures RangeScrubbed(h, ix.digests[p], RangeOf(ix, m.recordCount, header + Flat(done), p), p)
    {
      SealRange(h, ix, done, header, p);
    }
    RecordsFlat(done);
    assert (header + Flat(done))[HEADER_SIZE..] == Flat(done);
  }

  /** The manifest that an import writes. */
  function SealedManifest(h: Hash, id: DatasetId, n: u64, largest: u64, index: seq<byte>, data: seq<byte>): Manifest {
    Manifest(true, id, n, HEADER_SIZE + n * RECORD_SIZE, INDEX_SIZE, h(data), h(index), largest, true, true)
  }

  /** Files sealed over `done`. */
  ghost predicate SealedAs(h: Hash, f: Files, m: Manifest, id: DatasetId, done: seq<Record>) {
    && Validate(m, id) == None && m.recordCount == |done| && m.indexDigest == h(f.index)
    && |f.index| == INDEX_SIZE && IndexOk(h, LayoutOf(f.index), m) && FileLoaded(m, f.data)
    && Tiles(LayoutOf(f.index), m.recordCount) && Scrubbed(h, LayoutOf(f.index), m, f.data)
    && FileRecords(f.data) == done
  }

  lemma SealAll(h: Hash, idx: seq<byte>, ix: Layout, done: seq<Record>, largest: u64, data: seq<byte>, id: DatasetId,
                f: Files, m: Manifest)
    requires Holds(idx, ix, PREFIX_COUNT + 1) && 0 < |done| <= MAX_RECORDS
    requires Written(h, ix, done, PREFIX_COUNT + 1, largest, |done|, data)
    requires f.index == Splice(idx, 0, Header(INDEX_MAGIC, id, |done|))
    requires f.data == Header(DATA_MAGIC, id, |done|) + data[HEADER_SIZE..]
    requires m == SealedManifest(h, id, |done|, largest, f.index, f.data)
    ensures SealedAs(h, f, m, id, done)
  {
    var header := Header(INDEX_MAGIC, id, |done|);
    var sealed := Layout(header, ix.offsets, ix.digests);
    SealIndex(idx, ix, header);
    BuiltHeader(h, ix, done, largest, header);
    SealIndexOk(h, sealed, done, largest, m);
    DataLoaded(m, Header(DATA_MAGIC, id, |done|), done);
    SealScrubbed(h, sealed, done, Header(DATA_MAGIC, id, |done|), m);
  }

  lemma DataLoaded(m: Manifest, header: seq<byte>, done: seq<Record>)
    requires header == Header(DATA_MAGIC, m.datasetId, m.recordCount) && m.recordCount == |done| <= MAX_RECORDS
    requires m.dataSize == HEADER_SIZE + |done| * RECORD_SIZE
    ensures FileLoaded(m, header + Flat(done))
  {
  }

  lemma BuiltHeader(h: Hash, ix: Layout, done: seq<Record>, largest: nat, header: seq<byte>)
    requires Built(h, ix, done, PREFIX_COUNT + 1) && Largest(ix, largest)
    ensures Built(h, Layout(header, ix.offsets, ix.digests), done, PREFIX_COUNT + 1)
    ensures Largest(Layout(header, ix.offsets, ix.digests), largest)
  {
    var r := Layout(header, ix.offsets, ix.digests);
    forall p | 0 <= p < PREFIX_COUNT ensures RangeBytes(r, p) == RangeBytes(ix, p) {
    }
    if largest != 0 {
      var p :| 0 <= p < PREFIX_COUNT && RangeBytes(ix, p) == largest;
      assert RangeBytes(r, p) == largest;
    }
    forall p | 0 <= p < PREFIX_COUNT ensures RangeBuilt(h, r, done, p) {
      assert RangeBuilt(h, ix, done, p);
    }
  }

  /** The manifest's text form: every valid manifest is read back as written. */
  type Encoder = Manifest -> seq<byte>

  ghost predicate ReadsBack(encode: Encoder, decode: Decoder, id: DatasetId) {
    forall m {:trigger encode(m)} | Validate(m, id) == None :: decode(encode(m)) == Some(m)
  }

  /** The end of an import: the last offsets, the headers and the manifest. */
  method Seal(b: Importer, encode: Encoder, decode: Decoder, id: DatasetId) returns (f: Files)
    requires b.Valid() && 0 < |b.done| <= MAX_RECORDS && b.next <= PREFIX_COUNT + 1 && ReadsBack(encode, decode, id)
    modifies b, b.idx
    ensures Verified(b.h, decode, f, id) && FileRecords(f.data) == old(b.done)
  {
    b.PutOffsets(PREFIX_COUNT);
    ghost var before := b.idx[..];
    CopyInto(b.idx, 0, Header(INDEX_MAGIC, id, b.total));
    var data := Header(DATA_MAGIC, id, b.total) + b.data[HEADER_SIZE..];
    var index := b.idx[..];
    var m := SealedManifest(b.h, id, b.total, b.largest, index, data);
    f := Files(encode(m), index, data);
    SealAll(b.h, before, b.ix, b.done, b.largest, b.data, id, f, m);
    SealedVerified(b.h, decode, f, m, id, b.done);
  }

  lemma SealedVerified(h: Hash, decode: Decoder, f: Files, m: Manifest, id: DatasetId, done: seq<Record>)
    requires SealedAs(h, f, m, id, done) && decode(f.manifest) == Some(m)
    ensures Verified(h, decode, f, id)
  {
  }

  lemma VerifiedUnique(h: Hash, decode: Decoder, f: Files, id: DatasetId)
    requires Verified(h, decode, f, id)
    ensures UniqueKeys(multiset(FileRecords(f.data)))
  {
    AcceptedIsSorted(h, LayoutOf(f.index), decode(f.manifest).value, f.data);
    AscendingUnique(FileRecords(f.data));
  }

  lemma FlushEnds(es: seq<Entry>, done: seq<Record>, group: seq<Record>, current: int)
    requires ReadUpTo(es, done, group, current)
    ensures multiset(done + SortByKey(group)) == multiset(RecordsOf(es)) && |done + SortByKey(group)| == |es|
    ensures !UniqueKeys(multiset(group)) ==> !UniqueKeys(multiset(RecordsOf(es)))
  {
    if !UniqueKeys(multiset(group)) { FewerKeys(multiset(group), multiset(RecordsOf(es))); }
  }

  /** The last flush, the sealing and the independent verification. */
  method Finish(b: Importer, ghost es: seq<Entry>, group: seq<Record>, current: int,
                encode: Encoder, decode: Decoder, id: DatasetId)
    returns (r: Result<Files, Problem>)
    requires b.Valid() && b.Read(es, group, current) && 0 < |es| <= MAX_RECORDS && ReadsBack(encode, decode, id)
    modifies b, b.idx
    ensures r.Success? <==> UniqueKeys(multiset(RecordsOf(es)))
    ensures r.Success? ==> Verified(b.h, decode, r.value, id)
    ensures r.Success? ==> multiset(FileRecords(r.value.data)) == multiset(RecordsOf(es))
  {
    FlushEnds(es, b.done, group, current);
    var problem := b.Flush(group, current);
    if problem.Some? {
      return Failure(problem.value);
    }
    var f := Seal(b, encode, decode, id);
    VerifiedUnique(b.h, decode, f, id);
    problem := Verify(b.h, decode, f, id);
    assert problem == None;
    r := Success(f);
  }

  /** What an accepted input has become. */
  ghost predicate Imported(h: Hash, decode: Decoder, input: seq<byte>, id: DatasetId, f: Files) {
    && Verified(h, decode, f, id)
    && Entries(input).Some?
    && multiset(FileRecords(f.data)) == multiset(RecordsOf(Entries(input).value))
  }

  /**
   `Import` over faithful storage.  It accepts exactly the inputs of well-formed lines with ascending prefix
   groups that fit a range and no repeated key, and whatever it seals passes the verification it ends with.
   */
  method Import(h: Hash, encode: Encoder, decode: Decoder, id: DatasetId, input: seq<byte>, expected: Digest)
    returns (r: Result<Files, Problem>)
    requires ReadsBack(encode, decode, id)
    ensures r.Success? <==> Acceptable(h, input, expected)
    ensures r.Success? ==> Imported(h, decode, input, id, r.value)
  {
    MinSize(input);
    if |input| < 43 {
      return Failure(InvalidInput);
    }
    if DataSize(|input| / 43).Failure? {
      return Failure(CapacityExceeded);
    }
    var b := new Importer(h);
    assert b.Read([], [], -1);
    var group, current, problem := ReadAll(b, input);
    WholeInput(input);
    if problem.Some? {
      return Failure(problem.value);
    }
    if b.total == 0 && group == [] {
      return Failure(InvalidInput);
    }
    if h(input) != expected {
      return Failure(ChecksumMismatch);
    }
    r := Finish(b, Entries(input).value, group, current, encode, decode, id);
  }

  lemma WholeInput(input: seq<byte>)
    ensures Left(input, 0) == Entries(input)
    ensures Entries(input).Some? ==> 43 * |Entries(input).value| <= |input|
  {
    assert input[0..] == input;
    if Entries(input).Some? { EntriesSize(input); }
  }

  lemma {:induction false} EntriesSize(input: seq<byte>)
    requires Entries(input).Some?
    ensures 43 * |Entries(input).value| <= |input|
    decreases |input|
  {
    if input != [] {
      var k := LineEnd(input);
      LineLength(input[..k]);
      EntriesSize(input[k..]);
    }
  }

  lemma MinSize(input: seq<byte>)
    ensures Entries(input).Some? && Entries(input).value != [] ==> |input| >= 43
  {
    if Entries(input).Some? { EntriesSize(input); }
  }

  // ----- what an imported generation answers

  lemma {:induction false} CountCut(recs: seq<Record>, p: nat, cut: nat, k: nat)
    requires k <= |recs| && forall i | 0 <= i < |recs| :: PrefixOf(recs[i]) < p <==> i < cut
    ensures CountBelow(recs[..k], p) == if k < cut then k else cut
    decreases k
  {
    if k > 0 {
      CountCut(recs, p, cut, k - 1);
      assert recs[..k][..k - 1] == recs[..k - 1];
    } else {
      assert recs[..0] == [];
    }
  }

  lemma {:induction false} CountSplit(a: seq<Record>, b: seq<Record>, p: nat)
    ensures CountBelow(a + b, p) == CountBelow(a, p) + CountBelow(b, p)
    decreases |b|
  {
    if b == [] {
      assert a + b == a;
    } else {
      var n := |b| - 1;
      CountSplit(a, b[..n], p);
      assert (a + b)[..|a + b| - 1] == a + b[..n];
    }
  }

  lemma CountWithout(s: seq<Record>, j: nat, p: nat)
    requires j < |s|
    ensures CountBelow(s, p) == CountBelow(s[..j] + s[j + 1..], p) + (if PrefixOf(s[j]) < p then 1 else 0)
  {
    var left, one, right := s[..j], [s[j]], s[j + 1..];
    assert s == (left + one) + right;
    CountSplit(left + one, right, p);
    CountSplit(left, one, p);
    CountSplit(left, right, p);
    assert one[..0] == [];
  }

  /** Counting does not depend on the order of the records. */
  lemma {:induction false} CountPermuted(a: seq<Record>, b: seq<Record>, p: nat)
    requires multiset(a) == multiset(b)
    ensures CountBelow(a, p) == CountBelow(b, p)
    decreases |a|
  {
    if a == [] {
      assert |multiset(b)| == 0;
    } else {
      var n := |a| - 1;
      var j := Sorting.Position(b, a[n], a);
      CountWithout(a, n, p);
      CountWithout(b, j, p);
      Sorting.WithoutSame(a, n, b, j);
      CountPermuted(a[..n] + a[n + 1..], b[..j] + b[j + 1..], p);
    }
  }

  /** Stored offset `p` is the number of input records whose prefix is below `p`. */
  lemma OffsetsCount(h: Hash, decode: Decoder, input: seq<byte>, id: DatasetId, f: Files, p: nat)
    requires Imported(h, decode, input, id, f) && p <= PREFIX_COUNT
    ensures Offset(f.index, p) == CountBelow(RecordsOf(Entries(input).value), p)
  {
    var ix, m, recs := LayoutOf(f.index), decode(f.manifest).value, FileRecords(f.data);
    AcceptedIsSorted(h, ix, m, f.data);
    forall i | 0 <= i < |recs| ensures PrefixOf(recs[i]) < p <==> i < ix.offsets[p] {
      CutBelow(ix, recs, p, i);
    }
    CountCut(recs, p, ix.offsets[p], |recs|);
    assert recs[..|recs|] == recs;
    assert ix.offsets[p] <= ix.offsets[PREFIX_COUNT];
    CountPermuted(recs, RecordsOf(Entries(input).value), p);
  }

  /** A record lies in the range of its prefix. */
  lemma CutAt(ix: Layout, recs: seq<Record>, i: nat, q: nat)
    requires Complete(ix) && CutByPrefix(ix, recs) && i < |recs| && q == PrefixOf(recs[i])
    ensures q < PREFIX_COUNT && ix.offsets[q] <= i < ix.offsets[q + 1]
  {
    var x, y := ix.offsets[q], ix.offsets[q + 1];
    assert forall p | 0 <= p < PREFIX_COUNT :: PrefixOf(recs[i]) == p <==> ix.offsets[p] <= i < ix.offsets[p + 1];
    assert x <= i < y;
  }

  lemma CutBelow(ix: Layout, recs: seq<Record>, p: nat, i: nat)
    requires Tiles(ix, |recs|) && CutByPrefix(ix, recs) && p <= PREFIX_COUNT && i < |recs|
    ensures PrefixOf(recs[i]) < p <==> i < ix.offsets[p]
  {
    var q := PrefixOf(recs[i]);
    CutAt(ix, recs, i, q);
    if q < p { assert ix.offsets[q + 1] <= ix.offsets[p]; } else { assert ix.offsets[p] <= ix.offsets[q]; }
  }

  /**
   Looking a key up in an imported generation gives the count of its line in the input, or 0 if it has none,
   and never fails while the data file keeps its contents.
   */
  lemma LookupAgrees(h: Hash, decode: Decoder, input: seq<byte>, id: DatasetId, f: Files, key: Key,
      r: Result<u64, Problem>)
    requires Imported(h, decode, input, id, f)
    requires var m, ix := decode(f.manifest).value, LayoutOf(f.index);
             Looked(h, ix.digests[Prefix(key)], RangeOf(ix, m.recordCount, f.data, Prefix(key)), key, r)
    ensures r.Success? && IsCount(RecordsOf(Entries(input).value), key, r.value)
  {
    var m, ix := decode(f.manifest).value, LayoutOf(f.index);
    var recs, lines := FileRecords(f.data), RecordsOf(Entries(input).value);
    RangeAnswers(h, ix, m, f.data, key);
    assert RangeScrubbed(h, ix.digests[Prefix(key)], RangeOf(ix, m.recordCount, f.data, Prefix(key)), Prefix(key));
    SameAnswers(recs, lines, key, r.value);
  }

  lemma SameAnswers(recs: seq<Record>, lines: seq<Record>, key: Key, n: nat)
    requires multiset(recs) == multiset(lines) && IsCount(recs, key, n)
    ensures IsCount(lines, key, n)
  {
    assert forall r :: r in recs <==> r in multiset(recs);
    assert forall r :: r in lines <==> r in multiset(lines);
  }
}
