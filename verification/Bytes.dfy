/**
 Octets, 32-bit words and little-endian integers.

 The program copies integers to and from byte vectors with `memcpy` or through a
 `uint32_t*`, on little-endian machines; `Le` and `FromLe` are those two copies.
 */
module Bytes {

  type byte = x: int | 0 <= x < 256
  type u32 = x: int | 0 <= x < 0x1_0000_0000

  /** The value a cast to `uint32_t` leaves. */
  function Wrap32(x: int): u32 {
    x % 0x1_0000_0000
  }

  function Pow256(w: nat): (p: nat)
    ensures p > 0
  {
    if w == 0 then 1 else 256 * Pow256(w - 1)
  }

  function Zeros(n: nat): (z: seq<byte>)
    ensures |z| == n
    ensures forall i :: 0 <= i < n ==> z[i] == 0
  {
    seq(n, i => 0)
  }

  /** The low `w` bytes of `n`, least significant first. */
  function Le(n: nat, w: nat): (b: seq<byte>)
    ensures |b| == w
  {
    if w == 0 then [] else [n % 256] + Le(n / 256, w - 1)
  }

  function FromLe(b: seq<byte>): nat {
    if b == [] then 0 else b[0] + 256 * FromLe(b[1..])
  }

  lemma PowersOf256()
    ensures Pow256(1) == 0x100 && Pow256(2) == 0x1_0000
    ensures Pow256(4) == 0x1_0000_0000 && Pow256(8) == 0x1_0000_0000_0000_0000
  {
    assert Pow256(3) == 0x100_0000;
    assert Pow256(5) == 0x100_0000_0000;
    assert Pow256(7) == 0x100_0000_0000_0000;
  }

  lemma {:induction false} FromLeBound(b: seq<byte>)
    ensures FromLe(b) < Pow256(|b|)
  {
    if b == [] {
    } else {
      FromLeBound(b[1..]);
    }
  }

  /** Reading back what was read: no byte of the vector is lost. */
  lemma {:induction false} LeFromLe(b: seq<byte>)
    ensures Le(FromLe(b), |b|) == b
  {
    if b == [] {
    } else {
      LeFromLe(b[1..]);
      assert FromLe(b) % 256 == b[0] && FromLe(b) / 256 == FromLe(b[1..]);
    }
  }

  lemma ProductAtLeast(d: int, k: int)
    requires d > 0 && k >= 1
    ensures d * k >= d
  {
    assert d * k == d * (k - 1) + d;
  }

  lemma QuotientUnique(d: int, q: int, r: int, q': int, r': int)
    requires 0 <= r < d && 0 <= r' < d && d * q + r == d * q' + r'
    ensures q == q' && r == r'
  {
    assert d * (q - q') == d * q - d * q' && d * (q' - q) == d * q' - d * q;
    if q > q' {
      ProductAtLeast(d, q - q');
    } else if q < q' {
      ProductAtLeast(d, q' - q);
    }
  }

  lemma RemainderUnique(n: int, d: int, q: int, r: int)
    requires d > 0 && 0 <= r < d && n == d * q + r
    ensures n % d == r
  {
    QuotientUnique(d, q, r, n / d, n % d);
  }

  lemma ScaleRemainder(m: nat, p: nat, r: nat)
    requires p > 0 && r < 256
    ensures (256 * m + r) % (256 * p) == 256 * (m % p) + r
  {
    var q, s := m / p, m % p;
    assert 256 * (p * q) == (256 * p) * q;
    RemainderUnique(256 * m + r, 256 * p, q, 256 * s + r);
  }

  /** Copying `w` bytes of an integer keeps it modulo 256^w, and exactly when it fits. */
  lemma {:induction false} FromLeLe(n: nat, w: nat)
    ensures FromLe(Le(n, w)) == n % Pow256(w)
    ensures n < Pow256(w) ==> FromLe(Le(n, w)) == n
  {
    if w == 0 {
    } else {
      FromLeLe(n / 256, w - 1);
      assert Le(n, w)[1..] == Le(n / 256, w - 1);
      ScaleRemainder(n / 256, Pow256(w - 1), n % 256);
      if n < Pow256(w) {
        SmallRemainder(n, Pow256(w));
      }
    }
  }

  lemma SmallRemainder(n: nat, d: nat)
    requires n < d
    ensures n % d == n
  {
    RemainderUnique(n, d, 0, n);
  }
}
