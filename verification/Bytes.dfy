/** Little-endian integers as byte sequences: `to_le_bytes` and `from_le_bytes`. */
module Bytes {
  import opened Basics

  type byte = b: int | 0 <= b < 256
  type u32 = n: int | 0 <= n < 0x1_0000_0000
  type u64 = n: int | 0 <= n < 0x1_0000_0000_0000_0000

  function Pow256(w: nat): (p: nat)
    ensures p >= 1
  {
    if w == 0 then 1 else 256 * Pow256(w - 1)
  }

  /** The low `w` bytes of `n`, least significant first. */
  function ToLe(n: nat, w: nat): (s: seq<byte>)
    ensures |s| == w
  {
    if w == 0 then [] else [n % 256] + ToLe(n / 256, w - 1)
  }

  function FromLe(s: seq<byte>): nat {
    if s == [] then 0 else s[0] + 256 * FromLe(s[1..])
  }

  function Zeros(n: nat): (z: seq<byte>)
    ensures |z| == n
  {
    Repeated(0, n)
  }

  lemma PowValues()
    ensures Pow256(4) == 0x1_0000_0000
    ensures Pow256(8) == 0x1_0000_0000_0000_0000
  {
    assert Pow256(2) == 0x1_0000;
    assert Pow256(4) == 256 * (256 * Pow256(2));
    assert Pow256(6) == 256 * (256 * Pow256(4));
    assert Pow256(8) == 256 * (256 * Pow256(6));
  }

  lemma ModSplit(n: nat, p: nat)
    requires p >= 1
    ensures n % (256 * p) == n % 256 + 256 * ((n / 256) % p)
  {
    var q := (n / 256) / p;
    var r := n % 256 + 256 * ((n / 256) % p);
    assert n / 256 == p * q + (n / 256) % p;
    assert n == 256 * (n / 256) + n % 256;
    assert n == q * (256 * p) + r by {
      assert 256 * (p * q) == q * (256 * p);
    }
    assert 0 <= r < 256 * p;
    ModUnique(n, 256 * p, q, r);
  }

  lemma ModUnique(n: nat, m: nat, q: nat, r: nat)
    requires n == q * m + r && r < m
    ensures n % m == r
  {
    var q', r' := n / m, n % m;
    assert n == m * q' + r';
    assert (q - q') * m == q * m - m * q';
    MultipleAway(m, q - q');
  }

  /** A non-zero multiple of `m` is at least `m` away from zero. */
  lemma MultipleAway(m: int, k: int)
    requires m > 0
    ensures k >= 1 ==> k * m >= m
    ensures k <= -1 ==> k * m <= -m
    ensures k == 0 ==> k * m == 0
  {
  }

  /** Writing `n` in `w` bytes and reading it back truncates it to `w` bytes, as an `as u32` cast does. */
  lemma {:induction false} LeRoundTrip(n: nat, w: nat)
    ensures FromLe(ToLe(n, w)) == n % Pow256(w)
  {
    if w > 0 {
      LeRoundTrip(n / 256, w - 1);
      assert ToLe(n, w)[1..] == ToLe(n / 256, w - 1);
      ModSplit(n, Pow256(w - 1));
    }
  }

  lemma ByteOff(b: byte, rest: nat)
    ensures (b + 256 * rest) % 256 == b && (b + 256 * rest) / 256 == rest
  {
  }

  /** A byte sequence names a number below `256^|s|`, and that number's bytes are the sequence. */
  lemma {:induction false} LeBytesRoundTrip(s: seq<byte>)
    ensures FromLe(s) < Pow256(|s|)
    ensures ToLe(FromLe(s), |s|) == s
  {
    if s != [] {
      LeBytesRoundTrip(s[1..]);
      ByteOff(s[0], FromLe(s[1..]));
      assert s == [s[0]] + s[1..];
    }
  }

  lemma U32RoundTrip(n: u32)
    ensures FromLe(ToLe(n, 4)) == n
  {
    LeRoundTrip(n, 4);
    PowValues();
  }

  lemma U64RoundTrip(n: u64)
    ensures FromLe(ToLe(n, 8)) == n
  {
    LeRoundTrip(n, 8);
    PowValues();
  }

  lemma LeBounds(s: seq<byte>)
    ensures |s| == 4 ==> FromLe(s) < 0x1_0000_0000
    ensures |s| == 8 ==> FromLe(s) < 0x1_0000_0000_0000_0000
  {
    LeBytesRoundTrip(s);
    PowValues();
  }
}
