/** Byte strings: big-endian numbers, bytewise order, and a hash taken as a parameter. */
module Bytes {
  import opened Common

  type Digest = s: seq<byte> | |s| == 32 witness seq(32, _ => 0)

  /** SHA-256 is a parameter everywhere: nothing is assumed of it but the length of its result. */
  type Hash = seq<byte> -> Digest

  /** Two different inputs with one digest. */
  predicate Collision(h: Hash, x: seq<byte>, y: seq<byte>) { x != y && h(x) == h(y) }

  function Zeros(n: nat): (s: seq<byte>)
    ensures |s| == n && forall i | 0 <= i < n :: s[i] == 0
  {
    seq(n, _ => 0)
  }

  function Pow256(k: nat): nat { if k == 0 then 1 else 256 * Pow256(k - 1) }

  /** The last `k` base-256 digits of `n`, most significant first. */
  function ToBe(n: nat, k: nat): (s: seq<byte>)
    ensures |s| == k
    decreases k
  {
    if k == 0 then [] else ToBe(n / 256, k - 1) + [n % 256]
  }

  function FromBe(s: seq<byte>): nat {
    if s == [] then 0 else FromBe(s[..|s| - 1]) * 256 + s[|s| - 1]
  }

  lemma {:induction false} FromToBe(n: nat, k: nat)
    requires n < Pow256(k)
    ensures FromBe(ToBe(n, k)) == n
    decreases k
  {
    if k > 0 {
      FromToBe(n / 256, k - 1);
      assert ToBe(n, k)[..k - 1] == ToBe(n / 256, k - 1);
    }
  }

  lemma {:induction false} ToFromBe(s: seq<byte>)
    ensures FromBe(s) < Pow256(|s|) && ToBe(FromBe(s), |s|) == s
    decreases |s|
  {
    if s != [] {
      ToFromBe(s[..|s| - 1]);
    }
  }

  lemma Pow256Of8()
    ensures Pow256(8) == TWO_64
  {
    assert Pow256(4) == 0x1_0000_0000;
  }

  /** Every 8-byte field is a 64-bit number, and every 64-bit number is the value of its 8-byte field. */
  lemma Be64(n: nat, s: seq<byte>)
    requires |s| == 8
    ensures FromBe(s) < TWO_64 && ToBe(FromBe(s), 8) == s
    ensures n < TWO_64 ==> FromBe(ToBe(n, 8)) == n
  {
    Pow256Of8();
    ToFromBe(s);
    if n < TWO_64 { FromToBe(n, 8); }
  }

  /** `bytes.Compare(a, b) < 0`. */
  predicate Less(a: seq<byte>, b: seq<byte>) {
    if b == [] then false
    else if a == [] then true
    else a[0] < b[0] || (a[0] == b[0] && Less(a[1..], b[1..]))
  }

  lemma {:induction false} LessTrichotomy(a: seq<byte>, b: seq<byte>)
    ensures Less(a, b) || a == b || Less(b, a)
    ensures !(Less(a, b) && Less(b, a)) && !Less(a, a)
  {
    if a != [] {
      LessTrichotomy(a[1..], a[1..]);
      if b != [] {
        LessTrichotomy(a[1..], b[1..]);
        assert a[1..] == b[1..] && a[0] == b[0] ==> a == b by {
          assert a == [a[0]] + a[1..] && b == [b[0]] + b[1..];
        }
      }
    }
  }

  lemma {:induction false} LessTransitive(a: seq<byte>, b: seq<byte>, c: seq<byte>)
    requires Less(a, b) && (Less(b, c) || b == c)
    ensures Less(a, c)
  {
    if b != c && a != [] && a[0] == b[0] == c[0] {
      LessTransitive(a[1..], b[1..], c[1..]);
    }
  }

  // ----- buffers

  /** `s` with `field` written over it at `at`. */
  function Splice(s: seq<byte>, at: nat, field: seq<byte>): (r: seq<byte>)
    requires at + |field| <= |s|
    ensures |r| == |s|
  {
    s[..at] + field + s[at + |field|..]
  }

  lemma SpliceSlices(s: seq<byte>, at: nat, field: seq<byte>, a: nat, b: nat)
    requires at + |field| <= |s| && a <= b <= |s|
    ensures b <= at || at + |field| <= a ==> Splice(s, at, field)[a..b] == s[a..b]
    ensures Splice(s, at, field)[at..at + |field|] == field
  {
  }

  /** Go's `copy(b[at:], src)` with room for all of `src`. */
  method CopyInto(b: array<byte>, at: nat, src: seq<byte>)
    requires at + |src| <= b.Length
    modifies b
    ensures b[..] == Splice(old(b[..]), at, src)
  {
    var i := 0;
    while i < |src|
      invariant 0 <= i <= |src|
      invariant b[..] == Splice(old(b[..]), at, src[..i])
    {
      b[at + i] := src[i];
      i := i + 1;
    }
  }
}
