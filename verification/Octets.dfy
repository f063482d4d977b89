/** Little-endian numbers octet by octet, of either sign. */
module Octets {
  import opened Bytes

  function Two(v: int): seq<byte> {
    [v % 0x100, v / 0x100 % 0x100]
  }

  function Four(v: int): seq<byte> {
    [v % 0x100, v / 0x100 % 0x100, v / 0x1_0000 % 0x100, v / 0x100_0000 % 0x100]
  }

  function Eight(v: int): seq<byte> {
    Four(v) + Four(v / 0x1_0000_0000)
  }

  lemma LeInOctets(n: nat)
    ensures Le(n, 0) == [] && Le(n, 1) == [n % 0x100] && Le(n, 2) == Two(n) && Le(n, 4) == Four(n)
  {
    var a, b, c := n / 0x100, n / 0x1_0000, n / 0x100_0000;
    assert a / 0x100 == b && b / 0x100 == c;
    assert Le(n, 1) == [n % 0x100] + Le(a, 0);
    assert Le(a, 1) == [a % 0x100] + Le(b, 0);
    assert Le(n, 2) == [n % 0x100] + Le(a, 1);
    assert Le(c, 1) == [c % 0x100] + Le(c / 0x100, 0);
    assert Le(b, 2) == [b % 0x100] + Le(c, 1);
    assert Le(a, 3) == [a % 0x100] + Le(b, 2);
    assert Le(n, 4) == [n % 0x100] + Le(a, 3);
  }

  lemma LeInEightOctets(n: nat)
    ensures Le(n, 8) == Eight(n)
  {
    var a, b, c, d := n / 0x100, n / 0x1_0000, n / 0x100_0000, n / 0x1_0000_0000;
    assert a / 0x100 == b && b / 0x100 == c && c / 0x100 == d;
    LeInOctets(d);
    assert Le(c, 5) == [c % 0x100] + Le(d, 4);
    assert Le(b, 6) == [b % 0x100] + Le(c, 5);
    assert Le(a, 7) == [a % 0x100] + Le(b, 6);
    assert Le(n, 8) == [n % 0x100] + Le(a, 7);
  }

  /** Adding `256 * k` times a place value does not change the octet at that place. */
  lemma SameOctet(v: int, place: int, k: int)
    requires place > 0
    ensures (v + place * (0x100 * k)) / place % 0x100 == v / place % 0x100
  {
    var q, r, m := v / place, v % place, 0x100 * k;
    Distribute(place, q, m);
    QuotientUnique(place, (v + place * m) / place, (v + place * m) % place, q + m, r);
    WholeTurns(q, k);
  }

  lemma WholeTurns(q: int, k: int)
    ensures (q + 0x100 * k) % 0x100 == q % 0x100
  {
  }

  lemma Distribute(a: int, b: int, c: int)
    ensures a * (b + c) == a * b + a * c
  {
  }

  /** Two's complement does not change the octets. */
  lemma OctetsOfNegative(v: int)
    ensures (v + 0x100) % 0x100 == v % 0x100 && Two(v + 0x1_0000) == Two(v) && Four(v + 0x1_0000_0000) == Four(v)
  {
    SameOctet(v, 1, 1);
    SameOctet(v, 1, 0x100);
    SameOctet(v, 0x100, 1);
    SameOctet(v, 1, 0x100_0000);
    SameOctet(v, 0x100, 0x1_0000);
    SameOctet(v, 0x1_0000, 0x100);
    SameOctet(v, 0x100_0000, 1);
  }

  lemma EightOctetsOfNegative(v: int)
    ensures Eight(v + 0x1_0000_0000_0000_0000) == Eight(v)
  {
    LowHalf(v);
    OctetsOfNegative(v / 0x1_0000_0000);
    hide Four;
    assert (v + 0x1_0000_0000_0000_0000) / 0x1_0000_0000 == v / 0x1_0000_0000 + 0x1_0000_0000;
  }

  /** The low four octets of a sum with a multiple of 2^32. */
  lemma LowHalf(v: int)
    ensures Four(v + 0x1_0000_0000_0000_0000) == Four(v)
  {
    SameOctet(v, 1, 0x100_0000_0000_0000);
    SameOctet(v, 0x100, 0x1_0000_0000_0000);
    SameOctet(v, 0x1_0000, 0x100_0000_0000);
    SameOctet(v, 0x100_0000, 0x1_0000_0000);
  }
}
