/** The text forms of records: the import line, and the pieces shared with the range response. */
module CorpusParse {
  import opened Common
  import opened Bytes
  import opened CorpusFormat

  const LINE_LIMIT: nat := 128
  const NEWLINE: byte := 10
  const RETURN: byte := 13
  const COLON: byte := 58
  const BOM: seq<byte> := [0xef, 0xbb, 0xbf]

  // ----- hexadecimal

  /** The value of a hexadecimal digit of either case, or -1. */
  function HexValue(c: byte): (v: int)
    ensures -1 <= v < 16
  {
    if 48 <= c <= 57 then c - 48
    else if 65 <= c <= 70 then c - 55
    else if 97 <= c <= 102 then c - 87
    else -1
  }

  function HexDigit(v: int): (c: byte)
    requires 0 <= v < 16
    ensures HexValue(c) == v
  {
    if v < 10 then 48 + v else 55 + v
  }

  predicate AllHex(s: seq<byte>) { forall i | 0 <= i < |s| :: HexValue(s[i]) >= 0 }

  /** `hex.Decode` of twice as many digits. */
  function HexDecode(s: seq<byte>): (r: seq<byte>)
    requires AllHex(s)
    ensures |r| == |s| / 2
    ensures forall i | 0 <= i < |r| :: r[i] == HexValue(s[2 * i]) * 16 + HexValue(s[2 * i + 1])
  {
    seq(|s| / 2, i requires 0 <= i < |s| / 2 => HexValue(s[2 * i]) * 16 + HexValue(s[2 * i + 1]))
  }

  /** Digit `i` of the hexadecimal form of a key. */
  function Nibble(key: seq<byte>, i: nat): (v: int)
    requires i < 2 * |key|
    ensures 0 <= v < 16
  {
    if i % 2 == 0 then key[i / 2] / 16 else key[i / 2] % 16
  }

  function HexEncode(key: seq<byte>): (s: seq<byte>)
    ensures |s| == 2 * |key| && forall i | 0 <= i < |s| :: s[i] == HexDigit(Nibble(key, i))
  {
    seq(2 * |key|, i requires 0 <= i < 2 * |key| => HexDigit(Nibble(key, i)))
  }

  lemma HexRoundTrip(key: seq<byte>)
    ensures AllHex(HexEncode(key)) && HexDecode(HexEncode(key)) == key
  {
    var s := HexEncode(key);
    forall i | 0 <= i < |key| ensures HexDecode(s)[i] == key[i] {
      assert s[2 * i] == HexDigit(Nibble(key, 2 * i)) && s[2 * i + 1] == HexDigit(Nibble(key, 2 * i + 1));
      assert (2 * i) % 2 == 0 && (2 * i) / 2 == i && (2 * i + 1) % 2 == 1 && (2 * i + 1) / 2 == i;
    }
  }

  // ----- decimal

  predicate IsDigit(c: byte) { 48 <= c <= 57 }

  predicate AllDigits(s: seq<byte>) { forall i | 0 <= i < |s| :: IsDigit(s[i]) }

  function DecimalValue(s: seq<byte>): nat
    requires AllDigits(s)
  {
    if s == [] then 0 else DecimalValue(s[..|s| - 1]) * 10 + (s[|s| - 1] as int - 48)
  }

  lemma {:induction false} DecimalGrows(s: seq<byte>, k: nat)
    requires AllDigits(s) && k <= |s|
    ensures DecimalValue(s[..k]) <= DecimalValue(s)
    decreases |s|
  {
    if k == |s| {
      assert s[..k] == s;
    } else {
      DecimalGrows(s[..|s| - 1], k);
      assert s[..|s| - 1][..k] == s[..k];
    }
  }

  /** The count digits: all decimal, fitting 64 bits, and not zero. */
  predicate CountFits(s: seq<byte>) { AllDigits(s) && 0 < DecimalValue(s) < TWO_64 }

  /** The accumulation loop of `parseLine`; its guard rejects exactly the values that leave 64 bits. */
  method ParseCount(s: seq<byte>) returns (r: Option<u64>)
    ensures r.Some? <==> CountFits(s)
    ensures r.Some? ==> r.value == DecimalValue(s)
  {
    var n: u64 := 0;
    var i := 0;
    while i < |s|
      invariant 0 <= i <= |s|
      invariant AllDigits(s[..i]) && n == DecimalValue(s[..i])
    {
      var c := s[i];
      assert s[..i + 1][..i] == s[..i];
      if !IsDigit(c) {
        assert !AllDigits(s);
        return None;
      }
      assert AllDigits(s[..i + 1]);
      var d: int := c - 48;
      if n > (TWO_64 - 1 - d) / 10 {
        if AllDigits(s) { DecimalGrows(s, i + 1); }
        return None;
      }
      n := n * 10 + d;
      i := i + 1;
    }
    assert s[..|s|] == s;
    r := if n == 0 then None else Some(n);
  }

  function Decimal(n: nat): (s: seq<byte>)
    ensures |s| > 0 && AllDigits(s) && DecimalValue(s) == n
  {
    if n < 10 then
      var s: seq<byte> := [48 + n];
      assert s[..0] == [];
      s
    else
      var front := Decimal(n / 10);
      var s := front + [48 + n % 10];
      assert s[..|front|] == front;
      s
  }

  lemma {:induction false} DecimalLength(n: nat, k: nat)
    requires n < Pow10(k) && k > 0
    ensures |Decimal(n)| <= k
    decreases k
  {
    if n >= 10 {
      assert k > 1;
      DecimalLength(n / 10, k - 1);
    }
  }

  function Pow10(k: nat): nat { if k == 0 then 1 else 10 * Pow10(k - 1) }

  lemma CountLength(n: u64)
    ensures |Decimal(n)| <= 20
  {
    assert Pow10(10) == 10_000_000_000;
    assert Pow10(20) == 10_000_000_000 * Pow10(10) by {
      assert Pow10(15) == 100_000 * Pow10(10);
      assert Pow10(20) == 100_000 * Pow10(15);
    }
    DecimalLength(n, 20);
  }

  // ----- one import line

  datatype Line = Line(bom: bool, body: seq<byte>)

  /** A terminated line without its line ending and byte-order mark. */
  function Strip(line: seq<byte>): Line
    requires |line| > 0
  {
    var cut := line[..|line| - 1];
    var text := if |cut| > 0 && cut[|cut| - 1] == RETURN then cut[..|cut| - 1] else cut;
    if |text| >= 3 && text[..3] == BOM then Line(true, text[3..]) else Line(false, text)
  }

  predicate LineFits(line: seq<byte>) {
    && 0 < |line| <= LINE_LIMIT && line[|line| - 1] == NEWLINE
    && var body := Strip(line).body;
    && 42 <= |body| <= 61 && body[40] == COLON && AllHex(body[..40])
  }

  /** The record a well-formed line holds, whatever came before it. */
  function LineRecord(line: seq<byte>): Option<Record> {
    if !LineFits(line) then None
    else
      var body := Strip(line).body;
      if CountFits(body[41..]) then Some(MakeRecord(HexDecode(body[..40]), DecimalValue(body[41..]))) else None
  }

  predicate OrderFits(line: seq<byte>, p: nat, previous: int)
    requires |line| > 0
  {
    p > previous || (p == previous && !Strip(line).bom)
  }

  /** `parseLine` after a line of prefix `previous`, -1 at the start. */
  method ParseLine(line: seq<byte>, previous: int) returns (r: Result<Record, Problem>)
    ensures r.Success? <==> LineRecord(line).Some? && OrderFits(line, PrefixOf(LineRecord(line).value), previous)
    ensures r.Success? ==> r.value == LineRecord(line).value
  {
    if |line| > LINE_LIMIT || |line| == 0 || line[|line| - 1] != NEWLINE {
      return Failure(InvalidInput);
    }
    var stripped := Strip(line);
    var body := stripped.body;
    if |body| < 42 || |body| > 61 || body[40] != COLON {
      return Failure(InvalidInput);
    }
    if !AllHex(body[..40]) {
      return Failure(InvalidInput);
    }
    var count := ParseCount(body[41..]);
    if count.None? {
      return Failure(InvalidCount);
    }
    var rec := MakeRecord(HexDecode(body[..40]), count.value);
    if PrefixOf(rec) < previous || (stripped.bom && PrefixOf(rec) == previous) {
      return Failure(InvalidPrefixOrder);
    }
    r := Success(rec);
  }

  /** A record as the source writes it. */
  function RenderLine(r: Record): seq<byte> { HexEncode(KeyOf(r)) + [COLON] + Decimal(CountOf(r)) + [NEWLINE] }

  lemma RecordIsMade(r: Record)
    ensures MakeRecord(KeyOf(r), CountOf(r)) == r
  {
    Be64(0, r[KEY_SIZE..]);
    assert r == r[..KEY_SIZE] + r[KEY_SIZE..];
  }

  lemma StripRendered(key: seq<byte>, digits: seq<byte>)
    requires |key| == 40 && AllHex(key) && |digits| > 0 && AllDigits(digits)
    ensures Strip(key + [COLON] + digits + [NEWLINE]) == Line(false, key + [COLON] + digits)
  {
    var body := key + [COLON] + digits;
    var line := body + [NEWLINE];
    assert line[..|line| - 1] == body;
    assert body[|body| - 1] == digits[|digits| - 1] && IsDigit(digits[|digits| - 1]);
    assert body[..3][0] == key[0] && HexValue(key[0]) >= 0 && BOM[0] == 0xef;
  }

  lemma BodyParts(key: seq<byte>, digits: seq<byte>)
    requires |key| == 40
    ensures (key + [COLON] + digits)[..40] == key && (key + [COLON] + digits)[41..] == digits
  {
  }

  lemma LineOfParts(line: seq<byte>, body: seq<byte>, decoded: Key, value: u64)
    requires 0 < |line| <= LINE_LIMIT && line[|line| - 1] == NEWLINE && Strip(line).body == body
    requires 42 <= |body| <= 61 && body[40] == COLON && AllHex(body[..40]) && HexDecode(body[..40]) == decoded
    requires CountFits(body[41..]) && DecimalValue(body[41..]) == value
    ensures LineRecord(line) == Some(MakeRecord(decoded, value))
  {
  }

  /** Parsing a rendered record gives the record back. */
  lemma ParseRendered(r: Record)
    requires CountOf(r) > 0
    ensures LineRecord(RenderLine(r)) == Some(r) && !Strip(RenderLine(r)).bom
  {
    var key, digits := HexEncode(KeyOf(r)), Decimal(CountOf(r));
    CountLength(CountOf(r));
    HexRoundTrip(KeyOf(r));
    StripRendered(key, digits);
    BodyParts(key, digits);
    LineOfParts(RenderLine(r), key + [COLON] + digits, KeyOf(r), CountOf(r));
    RecordIsMade(r);
  }
}
