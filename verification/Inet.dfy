/** Bytes, bit operations on them, and the address and network values of Go's net package
    as the inbound filter uses them: IP.To4, CIDRMask and IPNet.Contains. */
module Inet {
  import opened Text
  import opened RouteTable

  type byte = b: int | 0 <= b < 256

  // ---------- Bits ----------

  // The & operator on non-negative numbers.
  function BitAnd(x: nat, y: nat): nat {
    if x == 0 || y == 0 then 0
    else (if x % 2 == 1 && y % 2 == 1 then 1 else 0) + 2 * BitAnd(x / 2, y / 2)
  }

  // A w-bit number whose k leading bits are set.
  function Ones(k: nat, w: nat): nat
    requires k <= w
  {
    if k == w then (if w == 0 then 0 else 1 + 2 * Ones(w - 1, w - 1)) else 2 * Ones(k, w - 1)
  }

  lemma {:induction false} AndAllOnes(x: nat, w: nat)
    requires x < Pow2(w)
    ensures BitAnd(x, Ones(w, w)) == x
  {
    if x > 0 {
      assert Ones(w, w) / 2 == Ones(w - 1, w - 1) && Ones(w, w) % 2 == 1;
      AndAllOnes(x / 2, w - 1);
    }
  }

  // The number with n more trailing zero bits.
  function Scale(x: nat, n: nat): nat {
    if n == 0 then x else 2 * Scale(x, n - 1)
  }

  // Masking with leading ones clears the trailing bits and keeps the others.
  lemma {:induction false} AndLeadingOnes(x: nat, k: nat, w: nat)
    requires x < Pow2(w) && k <= w
    ensures BitAnd(x, Ones(k, w)) == Scale(Shift(x, w - k), w - k)
  {
    if k == w {
      AndAllOnes(x, w);
    } else {
      AndLeadingOnes(x / 2, k, w - 1);
      AndEven(x, Ones(k, w - 1));
    }
  }

  lemma AndEven(x: nat, y: nat)
    ensures BitAnd(x, 2 * y) == 2 * BitAnd(x / 2, y)
  {
  }

  lemma SameAfterMasking(x: nat, y: nat, k: nat, w: nat)
    requires x < Pow2(w) && y < Pow2(w) && k <= w
    ensures BitAnd(x, Ones(k, w)) == BitAnd(y, Ones(k, w)) <==> Shift(x, w - k) == Shift(y, w - k)
  {
    AndLeadingOnes(x, k, w);
    AndLeadingOnes(y, k, w);
    assert Shift(x, w - k) != Shift(y, w - k) ==> Scale(Shift(x, w - k), w - k) != Scale(Shift(y, w - k), w - k) by {
      ScaleInjective(Shift(x, w - k), Shift(y, w - k), w - k);
    }
  }

  lemma {:induction false} ScaleInjective(x: nat, y: nat, n: nat)
    ensures Scale(x, n) == Scale(y, n) <==> x == y
  {
    if n > 0 {
      ScaleInjective(x, y, n - 1);
    }
  }

  lemma {:induction false} MultipleIsFar(k: int, d: int)
    requires k != 0 && d >= 0
    ensures k * d >= d || k * d <= -d
    decreases if k > 0 then k else -k
  {
    if k > 1 {
      MultipleIsFar(k - 1, d);
    } else if k < -1 {
      MultipleIsFar(k + 1, d);
    }
  }

  lemma QuotientIs(a: nat, d: nat, q: nat, r: nat)
    requires a == q * d + r && r < d
    ensures a / d == q
  {
    var k := a / d - q;
    assert a == a / d * d + a % d;
    assert k * d == r - a % d;
    if k != 0 {
      MultipleIsFar(k, d);
    }
  }

  lemma HalfThenQuotient(a: nat, d: nat)
    requires d > 0
    ensures a / 2 / d == a / (2 * d)
  {
    var h, b := a / 2, a % 2;
    var q, r := h / d, h % d;
    assert h == q * d + r;
    assert a == q * (2 * d) + (2 * r + b);
    QuotientIs(a, 2 * d, q, 2 * r + b);
  }

  // Shift(a, n) is the quotient of a by 2^n.
  lemma {:induction false} ShiftIsDivision(a: nat, n: nat)
    ensures Shift(a, n) == a / Pow2(n)
  {
    if n > 0 {
      ShiftIsDivision(a / 2, n - 1);
      HalfThenQuotient(a, Pow2(n - 1));
    }
  }

  // ---------- Addresses ----------

  function Zeros(n: nat): seq<byte> { seq(n, _ => 0) }

  const V4_IN_V6: seq<byte> := Zeros(10) + [255, 255]

  // IP.To4: the four bytes of an IPv4 address, also in its 16-byte form.
  function To4(ip: seq<byte>): Option<seq<byte>> {
    if |ip| == 4 then Some(ip)
    else if |ip| == 16 && ip[..12] == V4_IN_V6 then Some(ip[12..])
    else None
  }

  // The address as a number, first byte first.
  function Num(ip: seq<byte>): nat {
    if ip == [] then 0 else Num(ip[..|ip| - 1]) * 256 + ip[|ip| - 1]
  }

  // ---------- Masks ----------

  function LeadingOnes(k: nat): byte
    requires k <= 8
  {
    255 - Shift255(k)
  }

  // 0xff >> k
  function Shift255(k: nat): (r: nat)
    requires k <= 8
    ensures r < 256 && 255 - r == Ones(k, 8)
  {
    assert Ones(0, 0) == 0 && Ones(1, 1) == 1 && Ones(2, 2) == 3 && Ones(3, 3) == 7 && Ones(4, 4) == 15;
    assert Ones(5, 5) == 31 && Ones(6, 6) == 63 && Ones(7, 7) == 127 && Ones(8, 8) == 255;
    match k
    case 0 => 255
    case 1 => assert Ones(1, 4) == 8; 127
    case 2 => assert Ones(2, 5) == 24; 63
    case 3 => assert Ones(3, 6) == 56; 31
    case 4 => assert Ones(4, 6) == 60; 15
    case 5 => assert Ones(5, 7) == 124; 7
    case 6 => 3
    case 7 => 1
    case 8 => 0
  }

  function Clip(n: int): nat { if n < 0 then 0 else if n > 8 then 8 else n }

  // CIDRMask(ones, 8 * len)
  function Mask(ones: nat, len: nat): (m: seq<byte>)
    ensures |m| == len && forall i :: 0 <= i < len ==> m[i] == LeadingOnes(Clip(ones - 8 * i))
  {
    seq(len, i requires 0 <= i < len => LeadingOnes(Clip(ones - 8 * i)))
  }

  // ---------- Networks ----------

  datatype Network = Network(ip: seq<byte>, ones: nat)

  predicate Valid(n: Network) { (|n.ip| == 4 || |n.ip| == 16) && n.ones <= 8 * |n.ip| }

  predicate SameMasked(a: seq<byte>, b: seq<byte>, m: seq<byte>)
    requires |a| == |b| == |m|
  {
    forall i :: 0 <= i < |m| ==> BitAnd(a[i], m[i]) == BitAnd(b[i], m[i])
  }

  // IPNet.Contains: a network written as an IPv4 address in 16-byte form, and such a
  // source address, are compared as IPv4.
  predicate Contains(n: Network, src: seq<byte>) {
    var x := To4(src).GetOr(src);
    var base := To4(n.ip).GetOr(n.ip);
    var mask := Mask(n.ones, |n.ip|);
    var m := if |mask| == 16 && |base| == 4 then mask[12..] else mask;
    |x| == |base| == |m| && SameMasked(base, x, m)
  }

  // ---------- What containment means ----------

  // The leading ones of the network in the address family in which it is compared.
  function Bits(n: Network): nat {
    if |n.ip| == 16 && To4(n.ip).Some? then (if n.ones < 96 then 0 else n.ones - 96) else n.ones
  }

  lemma Pow2By8(n: nat)
    ensures Pow2(n + 8) == 256 * Pow2(n)
  {
    assert Pow2(n + 2) == 4 * Pow2(n);
    assert Pow2(n + 4) == 16 * Pow2(n);
    assert Pow2(n + 6) == 64 * Pow2(n);
  }

  lemma ByteBelow()
    ensures Pow2(8) == 256
  {
    Pow2By8(0);
  }

  lemma {:induction false} NumInjective(a: seq<byte>, b: seq<byte>)
    requires |a| == |b|
    ensures Num(a) == Num(b) <==> a == b
  {
    if a != [] {
      var n := |a| - 1;
      NumInjective(a[..n], b[..n]);
      assert a == a[..n] + [a[n]] && b == b[..n] + [b[n]];
    }
  }

  lemma {:induction false} ShiftSplit(x: nat, b: nat, i: nat, j: nat)
    requires j <= i
    ensures Shift(Scale(x, i) + b, j) == Scale(x, i - j) + Shift(b, j)
    decreases j
  {
    if j > 0 {
      ShiftSplit(x, b / 2, i - 1, j - 1);
    }
  }

  // A scaled number and a small one added to it can be told apart again.
  lemma {:induction false} ScaleUnique(x: nat, y: nat, s: nat, t: nat, k: nat)
    requires s < Pow2(k) && t < Pow2(k)
    ensures Scale(x, k) + s == Scale(y, k) + t <==> x == y && s == t
  {
    if k > 0 {
      ScaleUnique(x, y, s / 2, t / 2, k - 1);
    }
  }

  lemma ScaleByte(x: nat)
    ensures Scale(x, 8) == x * 256
  {
    assert Scale(x, 1) == 2 * x;
    assert Scale(x, 2) == 4 * x;
    assert Scale(x, 3) == 8 * x;
    assert Scale(x, 4) == 16 * x;
    assert Scale(x, 5) == 32 * x;
    assert Scale(x, 6) == 64 * x;
    assert Scale(x, 7) == 128 * x;
  }

  lemma {:induction false} ShiftTwice(a: nat, m: nat, n: nat)
    ensures Shift(a, m + n) == Shift(Shift(a, m), n)
  {
    if m > 0 {
      ShiftTwice(a / 2, m - 1, n);
    }
  }

  lemma ShiftOffByte(x: nat, b: byte, n: nat)
    ensures Shift(x * 256 + b, 8 + n) == Shift(x, n)
  {
    ByteBelow();
    ScaleByte(x);
    ShiftTwice(x * 256 + b, 8, n);
    ShiftSplit(x, b, 8, 8);
    ShiftBelow(b, 0, 8);
    assert Pow2(0) == 1;
  }

  predicate MaskedAgree(a: seq<byte>, b: seq<byte>, ones: nat)
    requires |a| == |b|
  {
    SameMasked(a, b, Mask(ones, |a|))
  }

  // The leading bits of an address: the address div 2^(width - ones).
  function Leading(a: seq<byte>, ones: nat): nat
    requires ones <= 8 * |a|
  {
    Shift(Num(a), 8 * |a| - ones)
  }

  // Comparing byte by byte under a mask compares the leading bits of the addresses.
  lemma {:induction false} MaskedIsLeading(a: seq<byte>, b: seq<byte>, ones: nat)
    requires |a| == |b| && ones <= 8 * |a|
    ensures MaskedAgree(a, b, ones) <==> Leading(a, ones) == Leading(b, ones)
    decreases |a|
  {
    if a != [] {
      hide *;
      var n := |a| - 1;
      if ones <= 8 * n {
        MaskedIsLeading(a[..n], b[..n], ones);
        LastByte(a, b, ones, ones);
        LastByteMasked(a, b, ones);
      } else {
        MaskedIsLeading(a[..n], b[..n], 8 * n);
        LastByte(a, b, ones, 8 * n);
        LastByteKept(a, b, ones);
      }
    } else {
      assert a == b;
    }
  }

  lemma LastByteKept(a: seq<byte>, b: seq<byte>, ones: nat)
    requires |a| == |b| > 0 && 8 * (|a| - 1) < ones <= 8 * |a|
    ensures var n := |a| - 1;
      Leading(a, ones) == Leading(b, ones) <==>
        Leading(a[..n], 8 * n) == Leading(b[..n], 8 * n) &&
        BitAnd(a[n], Mask(ones, |a|)[n]) == BitAnd(b[n], Mask(ones, |a|)[n])
  {
    var n := |a| - 1;
    assert Mask(ones, |a|)[n] == LeadingOnes(ones - 8 * n);
    LastByteLeading(Num(a[..n]), Num(b[..n]), a[n], b[n], ones - 8 * n);
  }

  lemma LastByteMasked(a: seq<byte>, b: seq<byte>, ones: nat)
    requires |a| == |b| > 0 && ones <= 8 * (|a| - 1)
    ensures var n := |a| - 1;
      && BitAnd(a[n], Mask(ones, |a|)[n]) == BitAnd(b[n], Mask(ones, |a|)[n])
      && Leading(a, ones) == Leading(a[..n], ones)
      && Leading(b, ones) == Leading(b[..n], ones)
  {
    var n := |a| - 1;
    assert Mask(ones, |a|)[n] == LeadingOnes(0) == 0;
    ShiftOffByte(Num(a[..n]), a[n], 8 * n - ones);
    ShiftOffByte(Num(b[..n]), b[n], 8 * n - ones);
  }

  lemma LastByte(a: seq<byte>, b: seq<byte>, ones: nat, keep: nat)
    requires |a| == |b| > 0 && ones <= 8 * |a|
    requires keep == if ones <= 8 * (|a| - 1) then ones else 8 * (|a| - 1)
    ensures var n := |a| - 1;
      MaskedAgree(a, b, ones) <==>
        MaskedAgree(a[..n], b[..n], keep) &&
        BitAnd(a[n], Mask(ones, |a|)[n]) == BitAnd(b[n], Mask(ones, |a|)[n])
  {
    hide BitAnd;
    var n := |a| - 1;
    var m, k := Mask(ones, |a|), Mask(keep, n);
    assert forall i :: 0 <= i < n ==> m[i] == k[i];
    if SameMasked(a, b, m) {
      forall i | 0 <= i < n ensures BitAnd(a[..n][i], k[i]) == BitAnd(b[..n][i], k[i]) {
        assert BitAnd(a[i], m[i]) == BitAnd(b[i], m[i]);
      }
    }
    if SameMasked(a[..n], b[..n], k) && BitAnd(a[n], m[n]) == BitAnd(b[n], m[n]) {
      forall i | 0 <= i < |m| ensures BitAnd(a[i], m[i]) == BitAnd(b[i], m[i]) {
        assert i < n ==> BitAnd(a[..n][i], k[i]) == BitAnd(b[..n][i], k[i]);
      }
    }
  }

  lemma LastByteLeading(x: nat, y: nat, a: byte, b: byte, k: nat)
    requires k <= 8
    ensures Shift(x * 256 + a, 8 - k) == Shift(y * 256 + b, 8 - k)
       <==> x == y && BitAnd(a, LeadingOnes(k)) == BitAnd(b, LeadingOnes(k))
  {
    hide Shift, Scale, BitAnd, Ones, Pow2;
    ByteBelow();
    ScaleByte(x);
    ScaleByte(y);
    ShiftSplit(x, a, 8, 8 - k);
    ShiftSplit(y, b, 8, 8 - k);
    ShiftBelow(a, k, 8 - k);
    ShiftBelow(b, k, 8 - k);
    SameAfterMasking(a, b, k, 8);
    ScaleUnique(x, y, Shift(a, 8 - k), Shift(b, 8 - k), k);
  }

  lemma MaskTail(ones: nat)
    requires ones <= 128
    ensures Mask(ones, 16)[12..] == Mask(if ones < 96 then 0 else ones - 96, 4)
  {
    var m, t := Mask(ones, 16), Mask(if ones < 96 then 0 else ones - 96, 4);
    forall i | 0 <= i < 4 ensures m[12..][i] == t[i] {
      assert m[12..][i] == m[12 + i];
    }
  }

  // Containment is equality of the quotients by 2^(width - bits), in the address family in
  // which network and address compare.
  lemma ContainsIsPrefix(n: Network, src: seq<byte>)
    requires Valid(n) && (|src| == 4 || |src| == 16)
    ensures var x, base := To4(src).GetOr(src), To4(n.ip).GetOr(n.ip);
      && Bits(n) <= 8 * |base|
      && var size := Pow2(8 * |base| - Bits(n));
         (Contains(n, src) <==> |x| == |base| && Num(x) / size == Num(base) / size)
  {
    hide Shift, Num, Mask, SameMasked;
    var x, base := To4(src).GetOr(src), To4(n.ip).GetOr(n.ip);
    if |n.ip| == 16 && |base| == 4 {
      MaskTail(n.ones);
    }
    if |x| == |base| {
      MaskedIsLeading(base, x, Bits(n));
      ShiftIsDivision(Num(x), 8 * |x| - Bits(n));
      ShiftIsDivision(Num(base), 8 * |x| - Bits(n));
    }
  }

  // A bare address parses to the network that holds it alone (parseCIDRHost).
  function HostNetwork(ip: seq<byte>): Network {
    match To4(ip)
    case Some(v4) => Network(v4, 32)
    case None => Network(ip, 128)
  }

  lemma HostNetworkHoldsOne(ip: seq<byte>, src: seq<byte>)
    requires (|ip| == 4 || |ip| == 16) && (|src| == 4 || |src| == 16)
    ensures Valid(HostNetwork(ip))
    ensures Contains(HostNetwork(ip), src) <==> To4(src).GetOr(src) == To4(ip).GetOr(ip)
  {
    var n := HostNetwork(ip);
    ContainsIsPrefix(n, src);
    var x, base := To4(src).GetOr(src), To4(n.ip).GetOr(n.ip);
    if |x| == |base| {
      NumInjective(x, base);
    }
  }

  // An address has an IPv4 form when it is four bytes long, or these follow ten zero bytes
  // and two of all ones; no other address has one.
  lemma To4Iff(ip: seq<byte>, v4: seq<byte>)
    requires |v4| == 4
    ensures To4(ip) == Some(v4) <==> ip == v4 || ip == [0, 0, 0, 0, 0, 0, 0, 0, 0, 0, 255, 255] + v4
    ensures To4(ip).Some? ==> |To4(ip).value| == 4
  {
    assert V4_IN_V6 == [0, 0, 0, 0, 0, 0, 0, 0, 0, 0, 255, 255];
    if |ip| == 16 {
      assert ip == ip[..12] + ip[12..];
    }
    assert (V4_IN_V6 + v4)[..12] == V4_IN_V6 && (V4_IN_V6 + v4)[12..] == v4;
  }
}
