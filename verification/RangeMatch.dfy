/** The remote range response: a linear scan of text lines, and its agreement with the offline lookup. */
module RangeMatch {
  import opened Common
  import opened Bytes
  import opened CorpusFormat
  import opened CorpusReader
  import opened CorpusParse
  import opened CorpusImport

  const SCAN_LIMIT: nat := 128
  const SUFFIX_SIZE: nat := 35

  // ----- the line scanner

  /** The lines handed out before the end of the data or before a line too long for the buffer. */
  datatype Scanned = Scanned(lines: seq<seq<byte>>, broken: bool)

  function DropReturn(line: seq<byte>): seq<byte> {
    if line != [] && line[|line| - 1] == RETURN then line[..|line| - 1] else line
  }

  function Scan(data: seq<byte>): Scanned
    decreases |data|
  {
    if data == [] then Scanned([], false)
    else
      var k := LineEnd(data);
      if k > SCAN_LIMIT || (k == 0 && |data| >= SCAN_LIMIT) then Scanned([], true)
      else if k == 0 then Scanned([DropReturn(data)], false)
      else
        var rest := Scan(data[k..]);
        Scanned([DropReturn(data[..k - 1])] + rest.lines, rest.broken)
  }

  // ----- one response line

  function Upper(c: byte): byte { if 97 <= c <= 122 then c - 32 else c }

  function UpperAll(s: seq<byte>): (r: seq<byte>)
    ensures |r| == |s| && forall i | 0 <= i < |s| :: r[i] == Upper(s[i])
  {
    seq(|s|, i requires 0 <= i < |s| => Upper(s[i]))
  }

  predicate ValidHex(s: seq<byte>, n: nat) { |s| == n && AllHex(s) }

  /** The first colon of a line, or its length. */
  function ColonAt(line: seq<byte>): (k: nat)
    ensures k <= |line| && (k < |line| ==> line[k] == COLON) && forall i | 0 <= i < k :: line[i] != COLON
  {
    if line == [] || line[0] == COLON then 0 else 1 + ColonAt(line[1..])
  }

  datatype Row = Row(suffix: seq<byte>, count: u64)

  /** A well-formed line: 35 hexadecimal digits of either case, a colon and a decimal 64-bit number. */
  function RowOf(line: seq<byte>): Option<Row> {
    var k := ColonAt(line);
    if k == |line| || !ValidHex(line[..k], SUFFIX_SIZE) || line[k + 1..] == [] then None
    else if !AllDigits(line[k + 1..]) || DecimalValue(line[k + 1..]) >= TWO_64 then None
    else Some(Row(UpperAll(line[..k]), DecimalValue(line[k + 1..])))
  }

  // ----- a whole response

  datatype Item = Blank | Malformed | Listed(row: Row)

  function ItemOf(line: seq<byte>): Item {
    if line == [] then Blank else if RowOf(line).None? then Malformed else Listed(RowOf(line).value)
  }

  function Items(lines: seq<seq<byte>>): (items: seq<Item>)
    ensures |items| == |lines| && forall i | 0 <= i < |lines| :: items[i] == ItemOf(lines[i])
  {
    seq(|lines|, i requires 0 <= i < |lines| => ItemOf(lines[i]))
  }

  /** Every line is blank or well-formed, and no suffix is listed twice. */
  ghost predicate WellFormed(items: seq<Item>) {
    && (forall j | 0 <= j < |items| :: !items[j].Malformed?)
    && (forall i, j | 0 <= i < j < |items| && items[i].Listed? && items[j].Listed? ::
          items[i].row.suffix != items[j].row.suffix)
  }

  /** `n` is the count listed for `suffix`, or 0 if it is not listed. */
  ghost predicate Gives(items: seq<Item>, suffix: seq<byte>, n: nat) {
    && (forall j | 0 <= j < |items| && items[j].Listed? && items[j].row.suffix == suffix :: items[j].row.count == n)
    && ((forall j | 0 <= j < |items| && items[j].Listed? :: items[j].row.suffix != suffix) ==> n == 0)
  }

  /** What `matchRange` returns: an error unless the whole response is in order, else the suffix's count. */
  ghost predicate Matched(data: seq<byte>, local: seq<byte>, r: Option<u64>) {
    var items := Items(Scan(data).lines);
    && (r.Some? <==> ValidHex(local, SUFFIX_SIZE) && !Scan(data).broken && WellFormed(items) &&
                     exists j | 0 <= j < |items| :: items[j].Listed?)
    && (r.Some? ==> Gives(items, UpperAll(local), r.value))
  }

  /** The suffixes seen in `items`. */
  ghost predicate Sees(items: seq<Item>, seen: set<seq<byte>>) {
    && (forall j | 0 <= j < |items| && items[j].Listed? :: items[j].row.suffix in seen)
    && (forall x | x in seen :: exists j | 0 <= j < |items| :: items[j].Listed? && items[j].row.suffix == x)
  }

  lemma SeesRow(items: seq<Item>, row: Row, seen: set<seq<byte>>, suffix: seq<byte>, n: nat)
    requires Sees(items, seen) && WellFormed(items) && Gives(items, suffix, n)
    ensures row.suffix in seen ==> !WellFormed(items + [Listed(row)])
    ensures row.suffix !in seen ==>
              && Sees(items + [Listed(row)], seen + {row.suffix}) && WellFormed(items + [Listed(row)])
              && Gives(items + [Listed(row)], suffix, if row.suffix == suffix then row.count else n)
  {
    var all, m := items + [Listed(row)], |items|;
    assert all[m] == Listed(row) && forall j | 0 <= j < m :: all[j] == items[j];
    if row.suffix in seen {
      var j :| 0 <= j < m && items[j].Listed? && items[j].row.suffix == row.suffix;
      assert all[j].row.suffix == all[m].row.suffix;
    }
  }

  lemma SeesBlank(items: seq<Item>, seen: set<seq<byte>>, suffix: seq<byte>, n: nat)
    requires Sees(items, seen) && WellFormed(items) && Gives(items, suffix, n)
    ensures Sees(items + [Blank], seen) && WellFormed(items + [Blank]) && Gives(items + [Blank], suffix, n)
  {
    var all, m := items + [Blank], |items|;
    assert all[m] == Blank && forall j | 0 <= j < m :: all[j] == items[j];
  }

  lemma WellFormedPrefix(items: seq<Item>, k: nat)
    requires k <= |items| && !WellFormed(items[..k])
    ensures !WellFormed(items)
  {
    assert forall j | 0 <= j < k :: items[..k][j] == items[j];
  }

  /** `matchRange`. */
  method MatchRange(data: seq<byte>, local: seq<byte>) returns (r: Option<u64>)
    ensures Matched(data, local, r)
  {
    if !ValidHex(local, SUFFIX_SIZE) {
      return None;
    }
    var s := Scan(data);
    var occurrences, any := MatchItems(Items(s.lines), UpperAll(local));
    r := if occurrences.None? || s.broken || !any then None else occurrences;
  }

  /** The scan loop of `matchRange` over its lines; `any` tells whether a suffix was seen. */
  method MatchItems(items: seq<Item>, wanted: seq<byte>) returns (r: Option<u64>, any: bool)
    ensures r.Some? <==> WellFormed(items)
    ensures r.Some? ==> Gives(items, wanted, r.value)
    ensures r.Some? ==> (any <==> exists j | 0 <= j < |items| :: items[j].Listed?)
  {
    var seen: set<seq<byte>> := {};
    var occurrences: u64 := 0;
    any := false;
    var i := 0;
    while i < |items|
      invariant 0 <= i <= |items|
      invariant Sees(items[..i], seen) && WellFormed(items[..i]) && Gives(items[..i], wanted, occurrences)
    {
      assert items[..i + 1] == items[..i] + [items[i]];
      match items[i] {
        case Malformed => return None, any;
        case Blank => SeesBlank(items[..i], seen, wanted, occurrences);
        case Listed(row) =>
          SeesRow(items[..i], row, seen, wanted, occurrences);
          if row.suffix in seen {
            WellFormedPrefix(items, i + 1);
            return None, any;
          }
          seen := seen + {row.suffix};
          if row.suffix == wanted {
            occurrences := row.count;
          }
      }
      i := i + 1;
    }
    assert items[..|items|] == items;
    any := |seen| != 0;
    if any {
      var x :| x in seen;
    }
    r := Some(occurrences);
  }

  // ----- agreement with the offline corpus

  /** The 35 upper-case digits of a key behind its 20-bit prefix. */
  function SuffixOf(key: Key): (s: seq<byte>)
    ensures |s| == SUFFIX_SIZE
  {
    HexEncode(key)[5..]
  }

  function RenderRow(r: Record): seq<byte> { SuffixOf(KeyOf(r)) + [COLON] + Decimal(CountOf(r)) }

  function Ending(crlf: bool): seq<byte> { if crlf then [RETURN, NEWLINE] else [NEWLINE] }

  /** A response that lists `recs`, with either line ending. */
  function RenderRange(recs: seq<Record>, crlf: bool): seq<byte> {
    if recs == [] then [] else RenderRow(recs[0]) + Ending(crlf) + RenderRange(recs[1..], crlf)
  }

  lemma SuffixIsHex(key: Key)
    ensures AllHex(SuffixOf(key)) && UpperAll(SuffixOf(key)) == SuffixOf(key)
    ensures forall i | 0 <= i < SUFFIX_SIZE :: SuffixOf(key)[i] !in {COLON, NEWLINE, RETURN}
  {
    var s := SuffixOf(key);
    forall i | 0 <= i < SUFFIX_SIZE
      ensures HexValue(s[i]) >= 0 && Upper(s[i]) == s[i] && s[i] !in {COLON, NEWLINE, RETURN}
    {
      assert s[i] == HexDigit(Nibble(key, i + 5));
    }
    assert UpperAll(s) == s;
  }

  lemma ColonIs(line: seq<byte>, k: nat)
    requires k < |line| && line[k] == COLON && forall i | 0 <= i < k :: line[i] != COLON
    ensures ColonAt(line) == k
  {
  }

  lemma RowOfParts(line: seq<byte>, suffix: seq<byte>, digits: seq<byte>, n: u64)
    requires line == suffix + [COLON] + digits && ColonAt(line) == SUFFIX_SIZE == |suffix|
    requires AllHex(suffix) && UpperAll(suffix) == suffix
    requires digits != [] && AllDigits(digits) && DecimalValue(digits) == n
    ensures RowOf(line) == Some(Row(suffix, n))
  {
    assert line[..SUFFIX_SIZE] == suffix && line[SUFFIX_SIZE + 1..] == digits;
  }

  lemma RowRendered(r: Record)
    ensures ItemOf(RenderRow(r)) == Listed(Row(SuffixOf(KeyOf(r)), CountOf(r)))
  {
    var suffix, digits := SuffixOf(KeyOf(r)), Decimal(CountOf(r));
    SuffixIsHex(KeyOf(r));
    ColonIs(RenderRow(r), SUFFIX_SIZE);
    RowOfParts(RenderRow(r), suffix, digits, CountOf(r));
  }

  lemma RowShape(r: Record)
    ensures 36 < |RenderRow(r)| <= 56
    ensures forall i | 0 <= i < |RenderRow(r)| :: RenderRow(r)[i] !in {NEWLINE, RETURN}
  {
    SuffixIsHex(KeyOf(r));
    CountLength(CountOf(r));
    var digits := Decimal(CountOf(r));
    forall i | 0 <= i < |RenderRow(r)| ensures RenderRow(r)[i] !in {NEWLINE, RETURN} {
      if i > SUFFIX_SIZE { assert IsDigit(digits[i - SUFFIX_SIZE - 1]); }
    }
  }

  lemma ScanStep(data: seq<byte>, k: nat, line: seq<byte>, rest: seq<byte>)
    requires data != [] && k == LineEnd(data) && 0 < k <= SCAN_LIMIT
    requires line == DropReturn(data[..k - 1]) && rest == data[k..]
    ensures Scan(data) == Scanned([line] + Scan(rest).lines, Scan(rest).broken)
  {
  }

  lemma EndedLine(line: seq<byte>, crlf: bool, rest: seq<byte>, data: seq<byte>, k: nat)
    requires 0 < |line| && forall i | 0 <= i < |line| :: line[i] !in {NEWLINE, RETURN}
    requires data == line + Ending(crlf) + rest && k == |line| + |Ending(crlf)|
    ensures IsLineEnd(data, k) && data[k..] == rest && DropReturn(data[..k - 1]) == line
  {
    if crlf {
      assert data[..k - 1] == line + [RETURN];
      assert DropReturn(line + [RETURN]) == line;
    } else {
      assert data[..k - 1] == line;
    }
  }

  lemma ScanOne(line: seq<byte>, crlf: bool, rest: seq<byte>, data: seq<byte>)
    requires 0 < |line| <= 56 && forall i | 0 <= i < |line| :: line[i] !in {NEWLINE, RETURN}
    requires data == line + Ending(crlf) + rest
    ensures Scan(data) == Scanned([line] + Scan(rest).lines, Scan(rest).broken)
  {
    var k := |line| + |Ending(crlf)|;
    EndedLine(line, crlf, rest, data, k);
    LineEndIs(data, k);
    ScanStep(data, k, line, rest);
  }

  lemma {:induction false} ScanRendered(recs: seq<Record>, crlf: bool)
    ensures var s := Scan(RenderRange(recs, crlf));
            && !s.broken && |s.lines| == |recs|
            && forall i | 0 <= i < |recs| :: s.lines[i] == RenderRow(recs[i])
    decreases |recs|
  {
    if recs != [] {
      ScanRendered(recs[1..], crlf);
      RowShape(recs[0]);
      ScanOne(RenderRow(recs[0]), crlf, RenderRange(recs[1..], crlf), RenderRange(recs, crlf));
    }
  }

  /** Prefix and suffix together are the key. */
  lemma SuffixDecides(a: Key, b: Key)
    requires Prefix(a) == Prefix(b) && SuffixOf(a) == SuffixOf(b)
    ensures a == b
  {
    assert a[0] == b[0] && a[1] == b[1] && a[2] / 16 == b[2] / 16;
    forall i | 0 <= i < 40 ensures HexEncode(a)[i] == HexEncode(b)[i] {
      if i >= 5 { assert SuffixOf(a)[i - 5] == SuffixOf(b)[i - 5]; }
    }
    assert HexEncode(a) == HexEncode(b);
    HexRoundTrip(a);
    HexRoundTrip(b);
  }

  /** `part` lists, in any order, the records of `recs` with prefix `p`, each key once. */
  ghost predicate IsRange(recs: seq<Record>, p: nat, part: seq<Record>) {
    && (forall r :: r in part <==> r in recs && PrefixOf(r) == p)
    && (forall i, j | 0 <= i < j < |part| :: KeyOf(part[i]) != KeyOf(part[j]))
  }

  lemma RenderedItems(part: seq<Record>, crlf: bool)
    ensures var items := Items(Scan(RenderRange(part, crlf)).lines);
            && !Scan(RenderRange(part, crlf)).broken && |items| == |part|
            && forall i | 0 <= i < |part| :: items[i] == Listed(Row(SuffixOf(KeyOf(part[i])), CountOf(part[i])))
  {
    ScanRendered(part, crlf);
    forall i | 0 <= i < |part|
      ensures ItemOf(RenderRow(part[i])) == Listed(Row(SuffixOf(KeyOf(part[i])), CountOf(part[i])))
    {
      RowRendered(part[i]);
    }
  }

  lemma ItemsAnswer(recs: seq<Record>, part: seq<Record>, items: seq<Item>, key: Key)
    requires IsRange(recs, Prefix(key), part) && |items| == |part|
    requires forall i | 0 <= i < |part| :: items[i] == Listed(Row(SuffixOf(KeyOf(part[i])), CountOf(part[i])))
    ensures WellFormed(items)
    ensures forall n | Gives(items, SuffixOf(key), n) :: IsCount(recs, key, n)
  {
    forall i, j | 0 <= i < j < |items| ensures items[i].row.suffix != items[j].row.suffix {
      assert part[i] in part && part[j] in part;
      if SuffixOf(KeyOf(part[i])) == SuffixOf(KeyOf(part[j])) { SuffixDecides(KeyOf(part[i]), KeyOf(part[j])); }
    }
    forall n | Gives(items, SuffixOf(key), n) ensures IsCount(recs, key, n) {
      forall r | r in recs && KeyOf(r) == key ensures CountOf(r) == n {
        var i :| 0 <= i < |part| && part[i] == r;
        assert items[i].row.suffix == SuffixOf(key);
      }
      if forall r | r in recs :: KeyOf(r) != key {
        forall j | 0 <= j < |items| ensures items[j].row.suffix != SuffixOf(key) {
          assert part[j] in part;
          if SuffixOf(KeyOf(part[j])) == SuffixOf(key) { SuffixDecides(KeyOf(part[j]), key); }
        }
      }
    }
  }

  /** The range response for a key's prefix gives the key the count the whole dataset gives it. */
  lemma RangeAgrees(recs: seq<Record>, part: seq<Record>, crlf: bool, key: Key, local: seq<byte>, r: Option<u64>)
    requires IsRange(recs, Prefix(key), part) && AllHex(local) && UpperAll(local) == SuffixOf(key)
    requires Matched(RenderRange(part, crlf), local, r)
    ensures r.Some? <==> part != []
    ensures r.Some? ==> IsCount(recs, key, r.value)
  {
    RenderedItems(part, crlf);
    ItemsAnswer(recs, part, Items(Scan(RenderRange(part, crlf)).lines), key);
    if part != [] { assert Items(Scan(RenderRange(part, crlf)).lines)[0].Listed?; }
  }

  /**
   The two backends agree.  Import a dataset, and let the remote service list the dataset's records of the
   key's prefix in any order: the response and the offline lookup give the same count, and an empty range,
   which the response form cannot express, is the one in which the lookup is 0 and the response an error.
   */
  lemma BackendsAgree(
    h: Hash, decode: Decoder, input: seq<byte>, id: DatasetId, f: Files, key: Key, offline: Result<u64, Problem>,
    part: seq<Record>, crlf: bool, local: seq<byte>, remote: Option<u64>)
    requires Imported(h, decode, input, id, f)
    requires var m, ix := decode(f.manifest).value, LayoutOf(f.index);
             Looked(h, ix.digests[Prefix(key)], RangeOf(ix, m.recordCount, f.data, Prefix(key)), key, offline)
    requires IsRange(RecordsOf(Entries(input).value), Prefix(key), part)
    requires AllHex(local) && UpperAll(local) == SuffixOf(key) && Matched(RenderRange(part, crlf), local, remote)
    ensures offline.Success?
    ensures part != [] ==> remote == Some(offline.value)
    ensures part == [] ==> remote == None && offline.value == 0
  {
    var lines := RecordsOf(Entries(input).value);
    LookupAgrees(h, decode, input, id, f, key, offline);
    RangeAgrees(lines, part, crlf, key, local, remote);
    if part == [] {
      forall r | r in lines ensures KeyOf(r) != key {
        assert r in part <==> r in lines && PrefixOf(r) == Prefix(key);
      }
    }
  }
}
