/** Bitcoin addresses: the witness encodings and Base58Check, and what acceptance means. */
module BitcoinAddress {
  import opened BitcoinChecksum
  import opened Bytes
  import opened Common

  type Char = bv8

  /** "bc", "bc1", "tb1", "bcrt1" */
  const BC: seq<Char> := [0x62, 0x63]
  const BC1: seq<Char> := [0x62, 0x63, 0x31]
  const TB1: seq<Char> := [0x74, 0x62, 0x31]
  const BCRT1: seq<Char> := [0x62, 0x63, 0x72, 0x74, 0x31]
  const ONE: Char := 0x31
  const BECH32: bv32 := 1
  const BECH32M: bv32 := 0x2bc830a3

  datatype Kind = P2pkh | P2sh | P2wpkh | P2wsh | P2tr

  datatype Outcome = Invalid | Unsupported | Address(kind: Kind)

  function LowerChar(c: Char): Char { if 0x41 <= c <= 0x5a then c | 0x20 else c }

  function UpperChar(c: Char): Char { if 0x61 <= c <= 0x7a then c & 0xdf else c }

  function Lower(s: seq<Char>): (r: seq<Char>)
    ensures |r| == |s| && forall i | 0 <= i < |s| :: r[i] == LowerChar(s[i])
  {
    seq(|s|, i requires 0 <= i < |s| => LowerChar(s[i]))
  }

  function Upper(s: seq<Char>): seq<Char> { seq(|s|, i requires 0 <= i < |s| => UpperChar(s[i])) }

  /** The position of a character in the witness alphabet, or 32. */
  function SymbolOf(c: Char): bv32 {
    if c == 0x71 then 0 else if c == 0x70 then 1 else if c == 0x7a then 2 else if c == 0x72 then 3 else
    if c == 0x79 then 4 else if c == 0x39 then 5 else if c == 0x78 then 6 else if c == 0x38 then 7 else
    if c == 0x67 then 8 else if c == 0x66 then 9 else if c == 0x32 then 10 else if c == 0x74 then 11 else
    if c == 0x76 then 12 else if c == 0x64 then 13 else if c == 0x77 then 14 else if c == 0x30 then 15 else
    if c == 0x73 then 16 else if c == 0x33 then 17 else if c == 0x6a then 18 else if c == 0x6e then 19 else
    if c == 0x35 then 20 else if c == 0x34 then 21 else if c == 0x6b then 22 else if c == 0x68 then 23 else
    if c == 0x63 then 24 else if c == 0x65 then 25 else if c == 0x36 then 26 else if c == 0x6d then 27 else
    if c == 0x75 then 28 else if c == 0x61 then 29 else if c == 0x37 then 30 else if c == 0x6c then 31 else
    32
  }

  predicate InAlphabet(c: Char) { SymbolOf(c) != 32 }

  lemma SymbolIsSmall(c: Char)
    requires InAlphabet(c)
    ensures IsSymbol(SymbolOf(c)) && c != ONE
  {
  }

  /** Different characters of the alphabet are different symbols. */
  lemma SymbolInjective(c: Char, d: Char)
    requires InAlphabet(c) && SymbolOf(c) == SymbolOf(d)
    ensures c == d
  {
  }

  // ----- the pieces of the witness branch

  predicate AllInAlphabet(s: seq<Char>) { forall i | 0 <= i < |s| :: InAlphabet(s[i]) }

  function SymbolsOf(s: seq<Char>): (d: seq<bv32>)
    ensures |d| == |s| && forall i | 0 <= i < |s| :: d[i] == SymbolOf(s[i])
  {
    seq(|s|, i requires 0 <= i < |s| => SymbolOf(s[i]))
  }

  method Decode(s: seq<Char>) returns (data: seq<bv32>, ok: bool)
    ensures ok <==> AllInAlphabet(s)
    ensures ok ==> data == SymbolsOf(s)
  {
    data := [];
    var i := 0;
    while i < |s|
      invariant 0 <= i <= |s| && |data| == i
      invariant forall j | 0 <= j < i :: InAlphabet(s[j]) && data[j] == SymbolOf(s[j])
    {
      if !InAlphabet(s[i]) {
        return data, false;
      }
      data := data + [SymbolOf(s[i])];
      i := i + 1;
    }
    ok := true;
  }

  /** `strings.LastIndexByte`. */
  method LastIndex(s: seq<Char>, c: Char) returns (pos: int)
    ensures -1 <= pos < |s|
    ensures pos >= 0 ==> s[pos] == c
    ensures forall i | pos < i < |s| :: s[i] != c
  {
    pos := |s| - 1;
    while pos >= 0 && s[pos] != c
      invariant -1 <= pos < |s| && forall i | pos < i < |s| :: s[i] != c
    {
      pos := pos - 1;
    }
  }

  function High(c: Char): bv32 { (c >> 5) as bv32 }

  function Low(c: Char): bv32 { (c & 31) as bv32 }

  /** The human-readable part as symbols: high bits, a zero, low bits. */
  function ExpandOf(hrp: seq<Char>): seq<bv32> {
    seq(|hrp|, i requires 0 <= i < |hrp| => High(hrp[i])) + [0] + seq(|hrp|, i requires 0 <= i < |hrp| => Low(hrp[i]))
  }

  method Expand(hrp: seq<Char>) returns (expanded: seq<bv32>)
    ensures expanded == ExpandOf(hrp)
  {
    expanded := [];
    var i := 0;
    while i < |hrp|
      invariant 0 <= i <= |hrp| && |expanded| == i
      invariant forall j | 0 <= j < i :: expanded[j] == High(hrp[j])
    {
      expanded, i := expanded + [High(hrp[i])], i + 1;
    }
    expanded := expanded + [0];
    i := 0;
    while i < |hrp|
      invariant 0 <= i <= |hrp| && |expanded| == |hrp| + 1 + i
      invariant forall j | 0 <= j < |hrp| :: expanded[j] == High(hrp[j])
      invariant expanded[|hrp|] == 0
      invariant forall j | 0 <= j < i :: expanded[|hrp| + 1 + j] == Low(hrp[j])
    {
      expanded, i := expanded + [Low(hrp[i])], i + 1;
    }
  }

  /** The lowest `bits` bits of a symbol are zero. */
  predicate PaddingZero(last: bv32, bits: nat) {
    if bits == 0 then true
    else if bits == 1 then last & 1 == 0
    else if bits == 2 then last & 3 == 0
    else if bits == 3 then last & 7 == 0
    else last & 15 == 0
  }

  lemma PaddingTest(acc: bv32, last: bv32, bits: nat)
    requires bits < 5 && acc & 31 == last && acc & 0xffff_f000 == 0
    ensures (acc << (8 - bits)) & 255 == 0 <==> PaddingZero(last, bits)
  {
    if bits == 0 { assert (acc << 8) & 255 == 0; }
    if bits == 1 { assert (acc << 7) & 255 == 0 <==> acc & 1 == 0; }
    if bits == 2 { assert (acc << 6) & 255 == 0 <==> acc & 3 == 0; }
    if bits == 3 { assert (acc << 5) & 255 == 0 <==> acc & 7 == 0; }
    if bits == 4 { assert (acc << 4) & 255 == 0 <==> acc & 15 == 0; }
  }

  lemma Accumulated(acc: bv32, n: bv32)
    requires IsSymbol(n)
    ensures ((acc << 5) | n) & 0xfff & 31 == n && ((acc << 5) | n) & 0xfff & 0xffff_f000 == 0
  {
  }

  /** The regrouping loop: five-bit symbols into whole bytes and a remainder that must be zero. */
  method Regroup(program: seq<bv32>) returns (size: nat, bits: nat, padded: bool)
    requires Symbols(program)
    ensures 8 * size + bits == 5 * |program| && bits < 8
    ensures bits < 5 && program != [] ==> (padded <==> PaddingZero(program[|program| - 1], bits))
  {
    var acc: bv32 := 0;
    bits, size := 0, 0;
    var i := 0;
    while i < |program|
      invariant 0 <= i <= |program| && 8 * size + bits == 5 * i && bits < 8
      invariant acc & 0xffff_f000 == 0 && (i > 0 ==> acc & 31 == program[i - 1])
    {
      Accumulated(acc, program[i]);
      acc := ((acc << 5) | program[i]) & 0xfff;
      bits := bits + 5;
      if bits >= 8 {
        bits, size := bits - 8, size + 1;
      }
      i := i + 1;
    }
    padded := (acc << (8 - bits)) & 255 == 0;
    if bits < 5 && program != [] { PaddingTest(acc, program[|program| - 1], bits); }
  }

  // ----- acceptance

  /** "bc" as symbols. */
  const HRP: seq<bv32> := [3, 3, 0, 2, 3]

  lemma HrpIs()
    ensures ExpandOf(BC) == HRP
  {
    assert High(0x62) == 3 && High(0x63) == 3 && Low(0x62) == 2 && Low(0x63) == 3;
    assert ExpandOf(BC) == [High(0x62), High(0x63)] + [0] + [Low(0x62), Low(0x63)];
  }

  /** The version and program length of each kind, with the checksum constant of its version. */
  predicate Payload(data: seq<bv32>, kind: Kind) {
    match kind
    case P2wpkh => |data| == 39 && data[0] == 0 && Run(1, HRP + data) == BECH32
    case P2wsh => |data| == 59 && data[0] == 0 && Run(1, HRP + data) == BECH32 && PaddingZero(data[52], 4)
    case P2tr => |data| == 59 && data[0] == 1 && Run(1, HRP + data) == BECH32M && PaddingZero(data[52], 4)
    case _ => false
  }

  /** An accepted witness address in lower case. */
  predicate Witness(lower: seq<Char>, kind: Kind) {
    && BC1 <= lower && AllInAlphabet(lower[3..]) && Payload(SymbolsOf(lower[3..]), kind)
  }

  predicate OneCase(s: seq<Char>) { s == Lower(s) || s == Upper(s) }

  predicate WitnessPrefix(lower: seq<Char>) { BC1 <= lower || TB1 <= lower || BCRT1 <= lower }

  /** The separator of an address over the alphabet is the one after "bc". */
  lemma SeparatorIs(lower: seq<Char>, pos: int)
    requires BC1 <= lower && AllInAlphabet(lower[3..])
    requires 0 <= pos < |lower| && lower[pos] == ONE && forall i | pos < i < |lower| :: lower[i] != ONE
    ensures pos == 2
  {
    assert lower[2] == BC1[2] == ONE;
    if pos > 2 {
      assert lower[3..][pos - 3] == lower[pos];
      SymbolIsSmall(lower[pos]);
    }
  }

  /** `version`, program size and padding as the code tests them, and the kind they give. */
  function KindOf(version: bv32, size: nat): Outcome {
    if version == 0 && size == 20 then Address(P2wpkh)
    else if version == 0 && size == 32 then Address(P2wsh)
    else if version == 1 && size == 32 then Address(P2tr)
    else Unsupported
  }

  predicate ChecksumFits(version: bv32, check: bv32) {
    !(version > 16 || (version == 0 && check != BECH32) || (version != 0 && check != BECH32M))
  }

  /** The checks after the checksum. */
  method Classify(data: seq<bv32>) returns (r: Outcome)
    requires |data| >= 7 && Symbols(data)
    ensures forall kind | ChecksumFits(data[0], Run(1, HRP + data)) :: r == Address(kind) <==> Payload(data, kind)
  {
    var program := data[1..|data| - 6];
    assert forall i | 0 <= i < |program| :: program[i] == data[i + 1];
    var size, bits, padded := Regroup(program);
    if bits >= 5 || !padded || size < 2 || size > 40 {
      return Invalid;
    }
    if data[0] == 0 && size != 20 && size != 32 {
      return Invalid;
    }
    r := KindOf(data[0], size);
  }

  predicate LastOne(s: seq<Char>, pos: int) {
    0 <= pos < |s| && s[pos] == ONE && forall i | pos < i < |s| :: s[i] != ONE
  }

  /** The witness branch behind the separator. */
  method Judge(hrp: seq<Char>, data: seq<bv32>) returns (r: Outcome)
    requires |data| >= 7 && Symbols(data)
    ensures hrp == BC ==> forall kind :: r == Address(kind) <==> Payload(data, kind)
    ensures hrp != BC ==> !r.Address?
  {
    var expanded := Expand(hrp);
    var check := Polymod(expanded + data);
    HrpIs();
    if !ChecksumFits(data[0], check) {
      return Invalid;
    }
    r := Classify(data);
    if r != Invalid && hrp != BC {
      r := Unsupported;
    }
  }

  /** The witness branch. */
  method WitnessAddress(s: seq<Char>) returns (r: Outcome)
    requires WitnessPrefix(Lower(s))
    ensures forall kind :: r == Address(kind) <==> OneCase(s) && Witness(Lower(s), kind)
  {
    var lower := Lower(s);
    if s != lower && s != Upper(s) {
      return Invalid;
    }
    var pos := LastIndex(lower, ONE);
    assert lower[if TB1 <= lower || BC1 <= lower then 2 else 4] == ONE;
    var data, ok := Decode(lower[pos + 1..]);
    WitnessSplit(lower, pos);
    if !ok || |data| < 7 {
      return Invalid;
    }
    AlphabetSymbols(lower[pos + 1..]);
    r := Judge(lower[..pos], data);
  }

  /** Acceptance in terms of the separator the code looks for. */
  lemma WitnessSplit(lower: seq<Char>, pos: nat)
    requires WitnessPrefix(lower) && LastOne(lower, pos)
    ensures forall kind :: Witness(lower, kind) <==>
              lower[..pos] == BC && AllInAlphabet(lower[pos + 1..]) && Payload(SymbolsOf(lower[pos + 1..]), kind)
  {
    if BC1 <= lower && AllInAlphabet(lower[3..]) {
      SeparatorIs(lower, pos);
    }
    assert lower[..pos] == BC ==> pos == 2 && BC1 <= lower;
  }

  lemma AlphabetSymbols(s: seq<Char>)
    requires AllInAlphabet(s)
    ensures Symbols(SymbolsOf(s))
  {
    forall i | 0 <= i < |s| ensures IsSymbol(SymbolsOf(s)[i]) {
      SymbolIsSmall(s[i]);
    }
  }

  lemma SameSymbols(s: seq<Char>, t: seq<Char>)
    requires BC1 <= s && BC1 <= t && AllInAlphabet(s[3..]) && SymbolsOf(s[3..]) == SymbolsOf(t[3..])
    ensures s == t
  {
    var u, w := s[3..], t[3..];
    forall i | 0 <= i < |u| ensures |u| == |w| && u[i] == w[i] {
      assert SymbolsOf(u)[i] == SymbolsOf(w)[i];
      SymbolInjective(u[i], w[i]);
    }
    assert |u| == |SymbolsOf(u)| == |w|;
    assert s == BC1 + u && t == BC1 + w;
  }

  /**
   Two accepted addresses of one length whose versions share a checksum constant differ in places more than
   six characters apart: no substitution, transposition or burst of up to six characters in an accepted
   address of a version gives another accepted one.
   */
  lemma AcceptedFarApart(s: seq<Char>, t: seq<Char>, k: Kind, l: Kind, p: nat)
    requires Witness(s, k) && Witness(t, l) && |s| == |t| && s != t && (k == P2tr <==> l == P2tr)
    ensures exists i | 0 <= i < |s| :: s[i] != t[i] && !(p <= i < p + 6)
  {
    if forall i | 0 <= i < |s| && s[i] != t[i] :: p <= i < p + 6 {
      var x, y := SymbolsOf(s[3..]), SymbolsOf(t[3..]);
      AlphabetSymbols(s[3..]);
      AlphabetSymbols(t[3..]);
      forall i | 0 <= i < |x| && x[i] != y[i] ensures p <= i + 3 < p + 6 {
        assert s[3..][i] == s[i + 3] && t[3..][i] == t[i + 3];
      }
      if x == y { SameSymbols(s, t); }
      WordsFarApart(HRP + x, HRP + y, p);
    }
  }

  lemma WordsFarApart(x: seq<bv32>, y: seq<bv32>, p: nat)
    requires |x| == |y| && |x| >= 5 && x[..5] == y[..5] == HRP && Symbols(x[5..]) && Symbols(y[5..]) && x != y
    requires forall i | 5 <= i < |x| && x[i] != y[i] :: p <= i - 2 < p + 6
    ensures Run(1, x) != Run(1, y)
  {
    assert forall i | 0 <= i < 5 :: x[i] == x[..5][i] == y[..5][i] == y[i];
    assert forall i | 5 <= i < |x| :: x[i] == x[5..][i - 5] && y[i] == y[5..][i - 5];
    assert IsSymbol(3) && IsSymbol(0) && IsSymbol(2);
    BurstDetected(x, y, p + 2);
  }

  // ----- Base58Check

  /** The value of a Base58 digit, or 255: digits, upper case without I and O, lower case without l. */
  function DigitOf(c: Char): bv8 {
    if 0x31 <= c <= 0x39 then c - 0x31
    else if 0x41 <= c <= 0x48 then c - 0x41 + 9
    else if 0x4a <= c <= 0x4e then c - 0x4a + 17
    else if 0x50 <= c <= 0x5a then c - 0x50 + 22
    else if 0x61 <= c <= 0x6b then c - 0x61 + 33
    else if 0x6d <= c <= 0x7a then c - 0x6d + 44
    else 0xff
  }

  predicate IsDigit(c: Char) { DigitOf(c) != 0xff }

  predicate AllDigits(s: seq<Char>) { forall i | 0 <= i < |s| :: IsDigit(s[i]) }

  function DigitValue(c: Char): (d: nat)
    requires IsDigit(c)
    ensures d < 58 && (d == 0 <==> c == ONE)
  {
    DigitOf(c) as int
  }

  lemma SameDigit(x: bv8, y: bv8)
    requires x as int == y as int
    ensures x == y
  {
  }

  lemma DigitInjective(c: Char, d: Char)
    requires IsDigit(c) && IsDigit(d) && DigitValue(c) == DigitValue(d)
    ensures c == d
  {
    SameDigit(DigitOf(c), DigitOf(d));
  }

  function Value(s: seq<Char>): nat
    requires AllDigits(s)
  {
    if s == [] then 0 else Value(s[..|s| - 1]) * 58 + DigitValue(s[|s| - 1])
  }

  /** `big.Int.Bytes`: big-endian without leading zeros. */
  function BytesOf(n: nat): (s: seq<byte>)
    ensures s != [] ==> s[0] != 0
    ensures s == [] <==> n == 0
  {
    if n == 0 then [] else BytesOf(n / 256) + [n % 256]
  }

  function LeadingOnes(s: seq<Char>): (k: nat)
    ensures k <= |s| && forall i | 0 <= i < k :: s[i] == ONE
    ensures k < |s| ==> s[k] != ONE
  {
    if s == [] || s[0] != ONE then 0 else 1 + LeadingOnes(s[1..])
  }

  /** The bytes a Base58 string stands for. */
  function Raw(s: seq<Char>): seq<byte>
    requires AllDigits(s)
  {
    Zeros(LeadingOnes(s)) + BytesOf(Value(s))
  }

  lemma {:induction false} ValueDecides(u: seq<Char>, w: seq<Char>)
    requires AllDigits(u) && AllDigits(w) && Value(u) == Value(w)
    requires u == [] || u[0] != ONE
    requires w == [] || w[0] != ONE
    ensures u == w
    decreases |u| + |w|
  {
    if u != [] { PositiveValue(u); }
    if w != [] { PositiveValue(w); }
    if u != [] && w != [] {
      var m, n := |u| - 1, |w| - 1;
      var a, b, x, y := Value(u[..m]), Value(w[..n]), DigitValue(u[m]), DigitValue(w[n]);
      assert a * 58 + x == b * 58 + y && x < 58 && y < 58;
      assert a == b && x == y;
      DigitInjective(u[m], w[n]);
      ValueDecides(u[..m], w[..n]);
      assert u == u[..m] + [u[m]] && w == w[..n] + [w[n]];
    }
  }

  lemma {:induction false} PositiveValue(u: seq<Char>)
    requires AllDigits(u) && u != [] && u[0] != ONE
    ensures Value(u) > 0
    decreases |u|
  {
    if |u| > 1 { PositiveValue(u[..|u| - 1]); }
  }

  lemma {:induction false} OnesAddNothing(s: seq<Char>, k: nat)
    requires AllDigits(s) && k <= |s| && forall i | 0 <= i < k :: s[i] == ONE
    ensures Value(s) == Value(s[k..])
    decreases |s|
  {
    if k < |s| {
      var n := |s| - 1;
      OnesAddNothing(s[..n], k);
      assert s[k..][..n - k] == s[..n][k..];
    } else if s != [] {
      OnesAddNothing(s[..|s| - 1], k - 1);
      assert s[..|s| - 1][k - 1..] == [] && s[k..] == [];
    }
  }

  lemma {:induction false} BytesDecide(m: nat, n: nat)
    requires BytesOf(m) == BytesOf(n)
    ensures m == n
  {
    if m > 0 && n > 0 {
      var x, y := BytesOf(m / 256), BytesOf(n / 256);
      assert (x + [m % 256])[..|x|] == x && (y + [n % 256])[..|y|] == y;
      BytesDecide(m / 256, n / 256);
    }
  }

  lemma ZerosDecide(a: nat, x: seq<byte>, b: nat, y: seq<byte>)
    requires Zeros(a) + x == Zeros(b) + y
    requires x == [] || x[0] != 0
    requires y == [] || y[0] != 0
    ensures a == b && x == y
  {
    var all := Zeros(a) + x;
    assert a < |all| ==> all[a] == x[0];
    assert b < |all| ==> all[b] == y[0];
    assert x == all[a..] && y == all[b..];
  }

  lemma OnesFirst(s: seq<Char>, t: seq<Char>, a: nat, b: nat)
    requires a == b && a <= |s| && b <= |t| && s[a..] == t[b..]
    requires forall i | 0 <= i < a :: s[i] == ONE
    requires forall i | 0 <= i < b :: t[i] == ONE
    ensures s == t
  {
    assert s == s[..a] + s[a..] && t == t[..b] + t[b..];
  }

  /** A Base58 string is determined by its bytes: nothing has two accepted spellings. */
  lemma RawDecides(s: seq<Char>, t: seq<Char>)
    requires AllDigits(s) && AllDigits(t) && Raw(s) == Raw(t)
    ensures s == t
  {
    var a, b := LeadingOnes(s), LeadingOnes(t);
    ZerosDecide(a, BytesOf(Value(s)), b, BytesOf(Value(t)));
    BytesDecide(Value(s), Value(t));
    OnesAddNothing(s, a);
    OnesAddNothing(t, b);
    ValueDecides(s[a..], t[b..]);
    OnesFirst(s, t, a, b);
  }

  /** An accepted Base58Check address. */
  predicate Checked(h: Hash, s: seq<Char>, kind: Kind) {
    && 26 <= |s| <= 35 && AllDigits(s) && |Raw(s)| == 25
    && Raw(s)[21..] == h(h(Raw(s)[..21]))[..4]
    && ((kind == P2pkh && Raw(s)[0] == 0) || (kind == P2sh && Raw(s)[0] == 5))
  }

  /** The digit loop: a big number, or nothing if a character is no digit. */
  method Number(s: seq<Char>) returns (n: nat, ok: bool)
    ensures ok <==> AllDigits(s)
    ensures ok ==> n == Value(s)
  {
    n := 0;
    var i := 0;
    while i < |s|
      invariant 0 <= i <= |s| && AllDigits(s[..i]) && n == Value(s[..i])
    {
      assert s[..i + 1][..i] == s[..i];
      if !IsDigit(s[i]) {
        return n, false;
      }
      assert AllDigits(s[..i + 1]);
      n := n * 58 + DigitValue(s[i]);
      i := i + 1;
    }
    assert s[..|s|] == s;
    ok := true;
  }

  lemma LeadingIs(s: seq<Char>, k: nat)
    requires k <= |s| && (forall i | 0 <= i < k :: s[i] == ONE) && (k < |s| ==> s[k] != ONE)
    ensures LeadingOnes(s) == k
  {
  }

  method CountOnes(s: seq<Char>) returns (zeros: nat)
    ensures zeros == LeadingOnes(s)
  {
    zeros := 0;
    while zeros < |s| && s[zeros] == ONE
      invariant zeros <= |s| && forall i | 0 <= i < zeros :: s[i] == ONE
    {
      zeros := zeros + 1;
    }
    LeadingIs(s, zeros);
  }

  /** The Base58Check branch. */
  method Base58Address(h: Hash, s: seq<Char>) returns (r: Outcome)
    ensures forall kind :: r == Address(kind) <==> Checked(h, s, kind)
  {
    if |s| < 26 || |s| > 35 {
      return Invalid;
    }
    var n, ok := Number(s);
    if !ok {
      return Invalid;
    }
    var zeros := CountOnes(s);
    var raw := Zeros(zeros) + BytesOf(n);
    if |raw| != 25 {
      return Invalid;
    }
    if raw[21..] != h(h(raw[..21]))[..4] {
      return Invalid;
    }
    r := if raw[0] == 0 then Address(P2pkh) else if raw[0] == 5 then Address(P2sh) else Unsupported;
  }

  /** "123mn" */
  predicate KnownStart(c: Char) { c == 0x31 || c == 0x32 || c == 0x33 || c == 0x6d || c == 0x6e }

  /** What `BitcoinAddress` accepts of a trimmed text. */
  predicate Accepts(h: Hash, s: seq<Char>, kind: Kind) {
    && 8 <= |s| <= 90
    && if WitnessPrefix(Lower(s)) then OneCase(s) && Witness(Lower(s), kind)
       else KnownStart(s[0]) && Checked(h, s, kind)
  }

  /** White space that trimming removes, of single-byte characters. */
  predicate IsSpace(c: Char) { c == 32 || 9 <= c <= 13 }

  predicate Outside(value: seq<Char>, a: nat, b: nat)
    requires a <= b <= |value|
  {
    (forall i | 0 <= i < a :: IsSpace(value[i])) && forall i | b <= i < |value| :: IsSpace(value[i])
  }

  /** From `a` to `b` is what trimming leaves. */
  predicate TrimmedAt(value: seq<Char>, a: nat, b: nat) {
    a <= b <= |value| && Outside(value, a, b) && (a < b ==> !IsSpace(value[a]) && !IsSpace(value[b - 1]))
  }

  /** `s` is `value` without the white space around it. */
  ghost predicate Trims(value: seq<Char>, s: seq<Char>) {
    exists a: nat, b: nat :: TrimmedAt(value, a, b) && s == value[a..b]
  }

  method Trim(value: seq<Char>) returns (s: seq<Char>)
    ensures Trims(value, s)
  {
    var a, b := 0, |value|;
    while a < b && IsSpace(value[a])
      invariant 0 <= a <= b && forall i | 0 <= i < a :: IsSpace(value[i])
    {
      a := a + 1;
    }
    while a < b && IsSpace(value[b - 1])
      invariant a <= b <= |value| && forall i | b <= i < |value| :: IsSpace(value[i])
      invariant a < b ==> !IsSpace(value[a])
    {
      b := b - 1;
    }
    assert TrimmedAt(value, a, b);
    s := value[a..b];
  }

  /** Whatever lies between characters that are no white space is kept. */
  lemma Within(value: seq<Char>, a: nat, b: nat, c: nat, d: nat)
    requires TrimmedAt(value, a, b) && TrimmedAt(value, c, d) && a < b
    ensures c <= a && b <= d
  {
    assert !IsSpace(value[a]) && !IsSpace(value[b - 1]);
  }

  /** A text is trimmed in one way. */
  lemma TrimsUnique(value: seq<Char>, s: seq<Char>, t: seq<Char>)
    requires Trims(value, s) && Trims(value, t)
    ensures s == t
  {
    var a: nat, b: nat :| TrimmedAt(value, a, b) && s == value[a..b];
    var c: nat, d: nat :| TrimmedAt(value, c, d) && t == value[c..d];
    if a < b { Within(value, a, b, c, d); }
    if c < d { Within(value, c, d, a, b); }
  }

  /** `BitcoinAddress`, from the text as it was given. */
  method ParseAddress(h: Hash, value: seq<Char>) returns (r: Outcome)
    ensures forall kind, s | Trims(value, s) :: r == Address(kind) <==> |value| <= 100 && Accepts(h, s, kind)
  {
    if |value| > 100 {
      return Invalid;
    }
    var s := Trim(value);
    forall t | Trims(value, t) ensures t == s {
      TrimsUnique(value, s, t);
    }
    r := ParseTrimmed(h, s);
  }

  /** The rest of `BitcoinAddress`. */
  method ParseTrimmed(h: Hash, s: seq<Char>) returns (r: Outcome)
    ensures forall kind :: r == Address(kind) <==> Accepts(h, s, kind)
  {
    if |s| < 8 || |s| > 90 {
      return Invalid;
    }
    if WitnessPrefix(Lower(s)) {
      r := WitnessAddress(s);
      return;
    }
    if !KnownStart(s[0]) {
      return Unsupported;
    }
    r := Base58Address(h, s);
  }
}
