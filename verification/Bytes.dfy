/** Bytes, fixed-width little-endian integers and the lexicographic order of byte strings. */
module Bytes {

  const U64: nat := 0x1_0000_0000_0000_0000

  type byte = x: nat | x < 0x100
  type u16 = x: nat | x < 0x1_0000
  type u64 = x: nat | x < 0x1_0000_0000_0000_0000
  type u128 = x: nat | x < 0x1_0000_0000_0000_0000_0000_0000_0000_0000

  /** A Rust string, as the UTF-8 bytes its order, length and hash are taken over. */
  type Text = s: seq<byte> | |s| < 0x1_0000_0000_0000_0000

  type Bytes20 = s: seq<byte> | |s| == 20 witness seq(20, _ => 0)
  type Digest = s: seq<byte> | |s| == 32 witness seq(32, _ => 0)

  /** Keccak-256, left open: every result holds for every function of this type. */
  type Hash = seq<byte> -> Digest

  /** A hash collision, spelled out. */
  ghost predicate Collides(keccak: Hash, x: seq<byte>, y: seq<byte>) {
    x != y && keccak(x) == keccak(y)
  }

  function Pow256(w: nat): (p: nat)
    ensures p > 0
  {
    if w == 0 then 1 else 0x100 * Pow256(w - 1)
  }

  /** `to_le_bytes` at width `w`. */
  function LE(n: nat, w: nat): (r: seq<byte>)
    ensures |r| == w
  {
    if w == 0 then [] else [n % 0x100] + LE(n / 0x100, w - 1)
  }

  /** `from_le_bytes`. */
  function FromLE(b: seq<byte>): nat {
    if b == [] then 0 else b[0] + 0x100 * FromLE(b[1..])
  }

  lemma {:induction false} LERoundTrip(n: nat, w: nat)
    requires n < Pow256(w)
    ensures FromLE(LE(n, w)) == n
  {
    if w > 0 {
      LERoundTrip(n / 0x100, w - 1);
      assert LE(n, w)[1..] == LE(n / 0x100, w - 1);
    }
  }

  lemma {:induction false} FromLERoundTrip(b: seq<byte>)
    ensures FromLE(b) < Pow256(|b|) && LE(FromLE(b), |b|) == b
  {
    if b != [] {
      FromLERoundTrip(b[1..]);
      assert FromLE(b) / 0x100 == FromLE(b[1..]) && FromLE(b) % 0x100 == b[0];
    }
  }

  lemma Widths()
    ensures Pow256(1) == 0x100 && Pow256(2) == 0x1_0000 && Pow256(8) == U64
    ensures Pow256(16) == 0x1_0000_0000_0000_0000_0000_0000_0000_0000
  {
    assert Pow256(4) == 0x1_0000_0000;
    assert Pow256(6) == 0x1_0000_0000_0000;
    assert Pow256(10) == 0x1_0000_0000_0000_0000_0000;
    assert Pow256(12) == 0x1_0000_0000_0000_0000_0000_0000;
    assert Pow256(14) == 0x1_0000_0000_0000_0000_0000_0000_0000;
  }

  lemma LEInjective(m: nat, n: nat, w: nat)
    requires m < Pow256(w) && n < Pow256(w) && LE(m, w) == LE(n, w)
    ensures m == n
  {
    LERoundTrip(m, w);
    LERoundTrip(n, w);
  }

  /** The derived `Ord` of byte arrays and strings: first difference decides, a prefix is smaller. */
  predicate Less(a: seq<byte>, b: seq<byte>) {
    b != [] && (a == [] || a[0] < b[0] || (a[0] == b[0] && Less(a[1..], b[1..])))
  }

  lemma {:induction false} LessTotal(a: seq<byte>, b: seq<byte>)
    ensures Less(a, b) || a == b || Less(b, a)
    ensures !(Less(a, b) && Less(b, a)) && !Less(a, a)
  {
    if a != [] {
      LessTotal(a[1..], a[1..]);
      if b != [] {
        LessTotal(a[1..], b[1..]);
        assert a == [a[0]] + a[1..] && b == [b[0]] + b[1..];
      }
    }
  }

  lemma {:induction false} LessTransitive(a: seq<byte>, b: seq<byte>, c: seq<byte>)
    requires Less(a, b) && Less(b, c)
    ensures Less(a, c)
  {
    if a != [] && a[0] == b[0] == c[0] {
      LessTransitive(a[1..], b[1..], c[1..]);
    }
  }

  /** The same order without recursion: up to some place they agree, and there `a` ends or has the smaller byte. */
  ghost predicate Precedes(a: seq<byte>, b: seq<byte>) {
    exists i: nat :: i <= |a| && i < |b| && a[..i] == b[..i] && (i == |a| || a[i] < b[i])
  }

  lemma {:induction false} LessIsPrecedes(a: seq<byte>, b: seq<byte>)
    ensures Less(a, b) <==> Precedes(a, b)
  {
    if a == [] || b == [] || a[0] != b[0] {
      if Less(a, b) {
        assert a[..0] == b[..0];
      }
    } else {
      LessIsPrecedes(a[1..], b[1..]);
      if Less(a, b) {
        var x, y := a[1..], b[1..];
        var i: nat :| i <= |x| && i < |y| && x[..i] == y[..i] && (i == |x| || x[i] < y[i]);
        assert a[..i + 1] == [a[0]] + a[1..][..i] && b[..i + 1] == [b[0]] + b[1..][..i];
      }
      if Precedes(a, b) {
        var i: nat :| i <= |a| && i < |b| && a[..i] == b[..i] && (i == |a| || a[i] < b[i]);
        assert a[1..][..i - 1] == a[..i][1..] && b[1..][..i - 1] == b[..i][1..];
      }
    }
  }

  /** Byte `k` of a little-endian integer is the digit of weight 256 to the `k`: the least significant comes first. */
  lemma {:induction false} LEDigit(n: nat, w: nat, k: nat)
    requires k < w
    ensures LE(n, w)[k] == n / Pow256(k) % 0x100
  {
    if k > 0 {
      LEDigit(n / 0x100, w - 1, k - 1);
      assert LE(n, w)[k] == LE(n / 0x100, w - 1)[k - 1];
      DivDiv(n, Pow256(k - 1));
    }
  }

  lemma DivDiv(n: nat, d: nat)
    requires d > 0
    ensures 0x100 * d > 0 && n / 0x100 / d == n / (0x100 * d)
  {
    var q := n / 0x100;
    var x, r := q / d, q % d;
    assert n == 0x100 * d * x + (0x100 * r + n % 0x100);
    assert 0x100 * r + n % 0x100 < 0x100 * d;
    QuotientIs(n, 0x100 * d, x, 0x100 * r + n % 0x100);
  }

  lemma QuotientIs(n: nat, d: nat, x: nat, r: nat)
    requires d > 0 && n == d * x + r && r < d
    ensures n / d == x
  {
    var y, s := n / d, n % d;
    assert n == d * y + s && s < d;
    Distribute(d, x, y);
    AtLeast(d, x - y);
    AtLeast(d, y - x);
    Distribute(d, y, x);
  }

  lemma Distribute(d: nat, x: int, y: int)
    ensures d * (x - y) == d * x - d * y
  {
  }

  lemma AtLeast(d: nat, k: int)
    ensures k > 0 ==> d * k >= d
  {
  }
}
