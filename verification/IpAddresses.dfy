/** internal/context/ue_ip_pool.go: IPv4 addresses and the address range of a subnet. */
module IpAddresses {

  // --- Words of w bits ---

  function Pow2(w: nat): (r: nat)
    ensures r >= 1
  {
    if w == 0 then 1 else 2 * Pow2(w - 1)
  }

  /** Bitwise and, or and complement, bit by bit from the lowest one. */
  function And(x: nat, y: nat): nat {
    if x == 0 || y == 0 then 0
    else And(x / 2, y / 2) * 2 + if x % 2 == 1 && y % 2 == 1 then 1 else 0
  }

  function Or(x: nat, y: nat): nat
    decreases x + y
  {
    if x == 0 && y == 0 then 0
    else Or(x / 2, y / 2) * 2 + if x % 2 == 1 || y % 2 == 1 then 1 else 0
  }

  function Not(x: nat, w: nat): nat {
    if w == 0 then 0 else Not(x / 2, w - 1) * 2 + 1 - x % 2
  }

  /** Ones followed by zeros: the masks that ParseCIDR produces. */
  predicate PrefixMask(m: nat, w: nat) {
    m == Pow2(w) - 1 || (w > 0 && m % 2 == 0 && PrefixMask(m / 2, w - 1))
  }

  lemma {:induction false} PrefixMaskShape(m: nat, w: nat)
    ensures PrefixMask(m, w) <==> exists h: nat :: h <= w && m + Pow2(h) == Pow2(w)
  {
    if m == Pow2(w) - 1 {
      assert m + Pow2(0) == Pow2(w);
    } else if w > 0 {
      PrefixMaskShape(m / 2, w - 1);
      if PrefixMask(m, w) {
        var h: nat :| h <= w - 1 && m / 2 + Pow2(h) == Pow2(w - 1);
        assert m + Pow2(h + 1) == Pow2(w);
      } else {
        forall h: nat | h <= w
          ensures m + Pow2(h) != Pow2(w)
        {
          if h > 0 { assert m % 2 == 0 ==> m / 2 + Pow2(h - 1) != Pow2(w - 1); }
        }
      }
    }
  }

  lemma {:induction false} NotIs(x: nat, w: nat)
    requires x < Pow2(w)
    ensures Not(x, w) == Pow2(w) - 1 - x
  {
    if w > 0 { NotIs(x / 2, w - 1); }
  }

  lemma {:induction false} AndBelowOr(x: nat, m: nat, n: nat)
    ensures And(x, m) <= x <= Or(x, n)
  {
    if x > 0 { AndBelowOr(x / 2, m / 2, n / 2); }
  }

  lemma {:induction false} OrBelow(x: nat, y: nat, w: nat)
    requires x < Pow2(w) && y < Pow2(w)
    ensures Or(x, y) < Pow2(w)
  {
    if w > 0 { OrBelow(x / 2, y / 2, w - 1); }
  }

  lemma {:induction false} Neutral(x: nat, w: nat)
    requires x < Pow2(w)
    ensures And(x, Pow2(w) - 1) == x && Or(x, 0) == x && And(0, x) == 0 && Or(0, x) == x
  {
    if w > 0 { Neutral(x / 2, w - 1); }
  }

  // --- Subnets ---

  const WIDTH: nat := 32

  /** Addresses and masks as binary.BigEndian.Uint32 reads them. */
  predicate Word(x: nat) {
    x < Pow2(WIDTH)
  }

  lemma WordIs()
    ensures Pow2(WIDTH) == 0x1_0000_0000
  {
    assert Pow2(8) == 256;
    assert Pow2(16) == 0x1_0000;
    assert Pow2(24) == 0x100_0000;
  }

  /** A subnet as ParseCIDR gives it. */
  datatype Subnet = Subnet(ip: nat, mask: nat) {
    predicate Valid() {
      Word(ip) && Word(mask)
    }

    /** calcAddrRange. */
    function Min(): nat {
      And(ip, mask)
    }

    function Max(): nat {
      Or(ip, Not(mask, WIDTH))
    }

    /** IPNet.Contains. */
    predicate Contains(addr: nat) {
      And(ip, mask) == And(addr, mask)
    }
  }

  /** The range is never empty, whatever the mask: the error for an invalid mask cannot occur. */
  lemma RangeNotEmpty(n: Subnet)
    requires n.Valid()
    ensures n.Min() <= n.ip <= n.Max() && Word(n.Max())
  {
    AndBelowOr(n.ip, n.mask, Not(n.mask, WIDTH));
    NotIs(n.mask, WIDTH);
    OrBelow(n.ip, Not(n.mask, WIDTH), WIDTH);
  }

  /** Under a prefix mask a subnet contains exactly the addresses from its first to its last one. */
  lemma ContainsIsRange(n: Subnet, addr: nat)
    requires n.Valid() && PrefixMask(n.mask, WIDTH) && Word(addr)
    ensures n.Contains(addr) <==> n.Min() <= addr <= n.Max()
  {
    MaskedIsRange(n.ip, addr, n.mask, WIDTH);
  }

  lemma {:induction false} MaskedIsRange(x: nat, y: nat, m: nat, w: nat)
    requires x < Pow2(w) && y < Pow2(w) && PrefixMask(m, w)
    ensures And(x, m) == And(y, m) <==> And(x, m) <= y <= Or(x, Not(m, w))
  {
    if m == Pow2(w) - 1 {
      NotIs(m, w);
      Neutral(x, w);
      Neutral(y, w);
    } else {
      MaskedIsRange(x / 2, y / 2, m / 2, w - 1);
    }
  }

  /** And only prefix masks have that property. */
  lemma {:induction false} OnlyPrefixMasks(m: nat, w: nat) returns (x: nat, y: nat)
    requires m < Pow2(w) && !PrefixMask(m, w)
    ensures x < Pow2(w) && y < Pow2(w) && And(x, m) <= y <= Or(x, Not(m, w)) && And(x, m) != And(y, m)
  {
    if m % 2 == 0 {
      x, y := OnlyPrefixMasks(m / 2, w - 1);
      x, y := 2 * x, 2 * y;
    } else {
      x, y := 0, 1;
      NotIs(m, w);
      Neutral(Not(m, w), w);
    }
  }

  // --- The bytes of an address ---

  datatype IPv4 = IPv4(a: nat, b: nat, c: nat, d: nat) {
    predicate Valid() {
      a < 256 && b < 256 && c < 256 && d < 256
    }

    /** binary.BigEndian.Uint32. */
    function Uint32(): nat {
      ((a * 256 + b) * 256 + c) * 256 + d
    }
  }

  /** uint32ToIP(uint32(v)): the conversion to 32 bits drops what is above them. */
  function ToIP(v: nat): (ip: IPv4)
    ensures ip.Valid()
  {
    IPv4(v / 0x100_0000 % 256, v / 0x1_0000 % 256, v / 0x100 % 256, v % 256)
  }

  /** An address comes back from its number, and a number below 2^32 from its address. */
  lemma ToIPUint32(ip: IPv4)
    requires ip.Valid()
    ensures ip.Uint32() < 0x1_0000_0000 && ToIP(ip.Uint32()) == ip
  {
    var v := ip.Uint32();
    Digit((ip.a * 256 + ip.b) * 256 + ip.c, ip.d);
    Digit(ip.a * 256 + ip.b, ip.c);
    Digit(ip.a, ip.b);
    Split(v);
  }

  lemma Digit(q: nat, d: nat)
    requires d < 256
    ensures (q * 256 + d) / 256 == q && (q * 256 + d) % 256 == d
  {
  }

  lemma Split(v: nat)
    ensures v / 0x1_0000 == v / 256 / 256 && v / 0x100_0000 == v / 256 / 256 / 256
  {
    SplitTwice(v, v / 256, v / 256 / 256);
  }

  lemma SplitTwice(v: nat, w: nat, u: nat)
    requires w == v / 256 && u == w / 256
    ensures v / 0x1_0000 == u && v / 0x100_0000 == u / 256
  {
    assert w * 256 <= v < w * 256 + 256;
    assert u * 0x1_0000 <= v < u * 0x1_0000 + 0x1_0000;
  }

  lemma Uint32ToIP(v: nat)
    ensures ToIP(v).Uint32() == v % 0x1_0000_0000
    ensures v < 0x1_0000_0000 ==> ToIP(v).Uint32() == v
  {
    var w := v / 256;
    var u := w / 256;
    Split(v);
    var t := u / 256;
    assert ToIP(v).Uint32() == v - t / 256 * 0x1_0000_0000;
    LastDigits(v, t);
  }

  lemma LastDigits(v: nat, t: nat)
    requires t * 0x100_0000 <= v < t * 0x100_0000 + 0x100_0000
    ensures v % 0x1_0000_0000 == v - t / 256 * 0x1_0000_0000
  {
    var q := t / 256;
    assert q * 0x1_0000_0000 <= v < q * 0x1_0000_0000 + 0x1_0000_0000;
  }
}
