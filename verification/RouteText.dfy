/** Destinations as route(8) reads them: dotted quads, netmasks and CIDR notation. */
module RouteText {
  import opened Text
  import opened RouteTable

  function Digit(c: char): Option<nat> {
    if '0' <= c <= '9' then Some(c as int - '0' as int) else None
  }

  // Without leading zeros, which other readers take for octal.
  function Decimal(s: string): Option<nat> {
    if s == "" || (|s| > 1 && s[0] == '0') then None
    else
      var n := |s| - 1;
      match Digit(s[n])
      case None => None
      case Some(d) =>
        if n == 0 then Some(d)
        else match Decimal(s[..n])
          case None => None
          case Some(tens) => Some(10 * tens + d)
  }

  function Octet(s: string): Option<nat> {
    match Decimal(s)
    case Some(n) => if n < 256 then Some(n) else None
    case None => None
  }

  function ReadQuad(s: string): (a: Option<nat>)
    ensures a.Some? ==> a.value < 0x1_0000_0000
  {
    var parts := Split(s, '.');
    if |parts| != 4 then None
    else
      match (Octet(parts[0]), Octet(parts[1]), Octet(parts[2]), Octet(parts[3]))
      case (Some(a), Some(b), Some(c), Some(d)) => Some(((a * 256 + b) * 256 + c) * 256 + d)
      case _ => None
  }

  // A netmask with n leading ones is 2^32 - 2^(32-n).
  predicate IsMask(mask: nat, n: nat) { n <= 32 && mask + Pow2(32 - n) == Pow2(32) }

  // The length of a netmask, looked for from n upwards.
  function MaskLength(mask: nat, n: nat): Option<nat>
    requires n <= 32
    decreases 32 - n
  {
    if IsMask(mask, n) then Some(n) else if n == 32 then None else MaskLength(mask, n + 1)
  }

  // The prefix of a network given as address and netmask, and in CIDR notation.
  function ReadMasked(addr: string, mask: string): Option<Prefix> {
    match (ReadQuad(addr), ReadQuad(mask))
    case (Some(a), Some(m)) =>
      (match MaskLength(m, 0)
       case Some(n) => if n <= 32 then Some(Covering(a, n)) else None
       case None => None)
    case _ => None
  }

  function ReadCidr(s: string): Option<Prefix> {
    var parts := Split(s, '/');
    if |parts| != 2 then None
    else
      match (ReadQuad(parts[0]), Decimal(parts[1]))
      case (Some(a), Some(n)) => if n <= 32 then Some(Covering(a, n)) else None
      case _ => None
  }

  lemma FirstPiece(a: string, rest: string, sep: char)
    requires sep !in a
    ensures Split(a + [sep] + rest, sep) == [a] + Split(rest, sep)
  {
    SplitConcat(a, rest, sep);
    SplitAtom(a, sep);
  }

  lemma QuadIs(a: string, b: string, c: string, d: string)
    requires '.' !in a && '.' !in b && '.' !in c && '.' !in d
    ensures Split(a + "." + (b + "." + (c + "." + d)), '.') == [a, b, c, d]
  {
    hide Split;
    FirstPiece(a, b + "." + (c + "." + d), '.');
    FirstPiece(b, c + "." + d, '.');
    FirstPiece(c, d, '.');
    SplitAtom(d, '.');
  }

  lemma HalfOctets()
    ensures Octet("0") == Some(0) && Octet("128") == Some(128)
  {
    assert "128"[..2] == "12" && "12"[..1] == "1";
    assert Decimal("1") == Some(1);
    assert Decimal("12") == Some(12);
  }

  lemma HalfQuads()
    ensures ReadQuad("0.0.0.0") == Some(0)
    ensures ReadQuad("128.0.0.0") == Some(0x8000_0000)
  {
    hide Split, Octet;
    HalfOctets();
    QuadIs("0", "0", "0", "0");
    QuadIs("128", "0", "0", "0");
    assert "0" + "." + ("0" + "." + ("0" + "." + "0")) == "0.0.0.0";
    assert "128" + "." + ("0" + "." + ("0" + "." + "0")) == "128.0.0.0";
  }

  lemma OneBitMask()
    ensures MaskLength(0x8000_0000, 0) == Some(1)
  {
    AddressSpace();
    assert Pow2(32) == 2 * Pow2(31);
  }

  // The netmask 128.0.0.0 and the suffix /1 name the same network, whatever the address.
  lemma FormsAgree(dest: string)
    requires ReadQuad(dest).Some? && '/' !in dest
    ensures ReadMasked(dest, "128.0.0.0") == ReadCidr(dest + "/1") == Some(Covering(ReadQuad(dest).value, 1))
  {
    hide Split, ReadQuad, MaskLength;
    HalfQuads();
    OneBitMask();
    assert dest + "/1" == dest + "/" + "1";
    FirstPiece(dest, "1", '/');
    SplitAtom("1", '/');
    assert Decimal("1") == Some(1);
  }

  // The two halves of the address space.
  lemma HalvesRead()
    ensures Covering(0, 1) == LOWER_HALF && Covering(0x8000_0000, 1) == UPPER_HALF
  {
    AddressSpace();
    assert Pow2(32) == 2 * Pow2(31);
    ShiftZero(31);
    ShiftPow2(31);
    assert Pow2(31) == 0x8000_0000;
  }

  lemma {:induction false} ShiftZero(n: nat)
    ensures Shift(0, n) == 0
  {
    if n > 0 {
      ShiftZero(n - 1);
    }
  }

  lemma {:induction false} ShiftPow2(n: nat)
    ensures Shift(Pow2(n), n) == 1
  {
    if n > 0 {
      assert Pow2(n) / 2 == Pow2(n - 1);
      ShiftPow2(n - 1);
    }
  }
}
