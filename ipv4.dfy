/** IPv4 addresses as 32-bit numbers, the hosts of a /24 network
    (CIDR prefix notation, section 3.1 of RFC 4632), and the dotted-quad
    text that `str()` of an address gives. */
module Ipv4 {

  const AddressSpace: int := 0x1_0000_0000

  type Address = a: int | 0 <= a < AddressSpace

  /** A /24 network: the host part, the low 8 bits, is zero. */
  predicate IsNetwork24(base: Address) {
    base % 256 == 0
  }

  /** The broadcast address of a /24 is itself an address. */
  lemma BroadcastInRange(base: Address)
    requires IsNetwork24(base)
    ensures base + 255 < AddressSpace
    ensures (base + 255) % 256 == 255
  {
    assert base == 256 * (base / 256);
  }

  /** The broadcast address of the /24 network at base. */
  function Broadcast(base: Address): (b: Address)
    requires IsNetwork24(base)
    ensures b == base + 255 && b % 256 == 255
  {
    BroadcastInRange(base);
    (base + 255) as Address
  }

  /** `IPv4Network(base/24).hosts()`: base+1 ... base+254, without the
      network address base+0 and the broadcast address base+255. */
  function Hosts(base: Address): (hs: seq<Address>)
    requires IsNetwork24(base)
    ensures |hs| == 254
  {
    seq(254, k requires 0 <= k < 254 => (base + 1 + k) as Address)
  }

  /** The hosts come in strictly ascending order, so none repeats. */
  predicate StrictlyAscending(s: seq<Address>) {
    forall i, j :: 0 <= i < j < |s| ==> s[i] < s[j]
  }

  /** Hosts are exactly the addresses of the /24 other than its network
      and broadcast addresses, in ascending order. */
  lemma HostsOfNetwork(base: Address, a: Address)
    requires IsNetwork24(base)
    ensures StrictlyAscending(Hosts(base))
    ensures a in Hosts(base) <==> a / 256 == base / 256 && a % 256 != 0 && a % 256 != 255
    ensures Hosts(base)[0] == base + 1 && Hosts(base)[253] == base + 254
    ensures forall h :: h in Hosts(base) ==> base < h < base + 255
  {
    var hs := Hosts(base);
    if a / 256 == base / 256 && a % 256 != 0 && a % 256 != 255 {
      assert a == base + a % 256;
      assert hs[a % 256 - 1] == a;
    }
    if a in hs {
      var k :| 0 <= k < 254 && hs[k] == a;
      assert a == base + (k + 1);
    }
  }

  /** The four octets, most significant first. */
  function Octets(a: Address): (o: seq<nat>)
    ensures |o| == 4 && forall i :: 0 <= i < 4 ==> o[i] < 256
    ensures o[0] * 0x100_0000 + o[1] * 0x1_0000 + o[2] * 0x100 + o[3] == a
  {
    assert a == (a / 0x1_0000) * 0x1_0000 + (a / 0x100 % 256) * 0x100 + a % 256;
    assert a / 0x1_0000 == (a / 0x100_0000) * 256 + a / 0x1_0000 % 256;
    [a / 0x100_0000, a / 0x1_0000 % 256, a / 0x100 % 256, a % 256]
  }

  /** An address is determined by its octets. */
  lemma OctetsInjective(a: Address, b: Address)
    requires Octets(a) == Octets(b)
    ensures a == b
  {
    assert a == (a / 0x1_0000) * 0x1_0000 + (a / 0x100 % 256) * 0x100 + a % 256;
    assert b == (b / 0x1_0000) * 0x1_0000 + (b / 0x100 % 256) * 0x100 + b % 256;
    assert a / 0x1_0000 == (a / 0x100_0000) * 256 + a / 0x1_0000 % 256;
    assert b / 0x1_0000 == (b / 0x100_0000) * 256 + b / 0x1_0000 % 256;
  }

  function DigitChar(d: nat): (c: char)
    requires d < 10
    ensures '0' <= c <= '9'
  {
    ('0' as int + d) as char
  }

  predicate IsDigits(s: string) {
    forall i :: 0 <= i < |s| ==> '0' <= s[i] <= '9'
  }

  /** `str(n)` of a natural number: decimal digits without leading zeros. */
  function Decimal(n: nat): (s: string)
    ensures |s| >= 1 && IsDigits(s)
    ensures s[0] == '0' <==> n == 0
    ensures n < 10 ==> |s| == 1
    ensures n < 100 ==> |s| <= 2
    ensures n < 1000 ==> |s| <= 3
  {
    if n < 10 then [DigitChar(n)] else Decimal(n / 10) + [DigitChar(n % 10)]
  }

  /** The number a string of decimal digits denotes. */
  function DecimalValue(s: string): nat
    requires IsDigits(s)
  {
    if s == [] then 0
    else 10 * DecimalValue(s[..|s| - 1]) + (s[|s| - 1] as int - '0' as int)
  }

  /** Reading back the decimal text of n gives n. */
  lemma {:induction false} DecimalRoundTrip(n: nat)
    ensures DecimalValue(Decimal(n)) == n
  {
    var s := Decimal(n);
    if n >= 10 {
      DecimalRoundTrip(n / 10);
      assert s[..|s| - 1] == Decimal(n / 10);
    }
  }

  /** `str(IPv4Address(a))`: the octets in decimal, separated by dots. */
  function DottedQuad(a: Address): (r: string)
    ensures 7 <= |r| <= 15
  {
    var o := Octets(a);
    Decimal(o[0]) + ("." + (Decimal(o[1]) + ("." + (Decimal(o[2]) + ("." + Decimal(o[3]))))))
  }

  /** A dot that neither prefix contains fixes where the prefixes end. */
  lemma SplitAtDot(x: string, y: string, x': string, y': string)
    requires IsDigits(x) && IsDigits(x')
    requires x + ("." + y) == x' + ("." + y')
    ensures x == x' && y == y'
  {
    var s := x + ("." + y);
    assert s[|x|] == '.' && s[|x'|] == '.';
    assert |x| == |x'|;
    assert x == s[..|x|] == x';
    assert y == s[|x| + 1..] == y';
  }

  /** Different numbers have different decimal text. */
  lemma DecimalInjective(n: nat, m: nat)
    requires Decimal(n) == Decimal(m)
    ensures n == m
  {
    DecimalRoundTrip(n);
    DecimalRoundTrip(m);
  }

  /** Different addresses render differently. */
  lemma DottedQuadInjective(a: Address, b: Address)
    requires DottedQuad(a) == DottedQuad(b)
    ensures a == b
  {
    var oa, ob := Octets(a), Octets(b);
    var a0, a1, a2, a3 := Decimal(oa[0]), Decimal(oa[1]), Decimal(oa[2]), Decimal(oa[3]);
    var b0, b1, b2, b3 := Decimal(ob[0]), Decimal(ob[1]), Decimal(ob[2]), Decimal(ob[3]);
    SplitAtDot(a0, a1 + ("." + (a2 + ("." + a3))), b0, b1 + ("." + (b2 + ("." + b3))));
    SplitAtDot(a1, a2 + ("." + a3), b1, b2 + ("." + b3));
    SplitAtDot(a2, a3, b2, b3);
    DecimalInjective(oa[0], ob[0]);
    DecimalInjective(oa[1], ob[1]);
    DecimalInjective(oa[2], ob[2]);
    DecimalInjective(oa[3], ob[3]);
    assert oa == ob;
    OctetsInjective(a, b);
  }

  /** The example network 192.168.1.0/24 has hosts 192.168.1.1 to
      192.168.1.254. */
  lemma ExampleNetwork()
    ensures IsNetwork24(0xC0A8_0100)
    ensures DottedQuad(Hosts(0xC0A8_0100)[0]) == "192.168.1.1"
    ensures DottedQuad(Hosts(0xC0A8_0100)[253]) == "192.168.1.254"
  {
    ExampleDecimals();
    ExampleOctets();
    assert Hosts(0xC0A8_0100)[0] == 0xC0A8_0101;
    assert Hosts(0xC0A8_0100)[253] == 0xC0A8_01FE;
    assert DottedQuad(0xC0A8_0101) == "192" + ("." + ("168" + ("." + ("1" + ("." + "1")))));
    assert DottedQuad(0xC0A8_01FE) == "192" + ("." + ("168" + ("." + ("1" + ("." + "254")))));
  }

  /** The octets of the first and last example hosts. */
  lemma ExampleOctets()
    ensures Octets(0xC0A8_0101) == [192, 168, 1, 1]
    ensures Octets(0xC0A8_01FE) == [192, 168, 1, 254]
  {
  }

  /** The decimal texts the example network needs. */
  lemma ExampleDecimals()
    ensures Decimal(1) == "1" && Decimal(192) == "192" && Decimal(168) == "168" && Decimal(254) == "254"
  {
    assert Decimal(192) == "192" by {
      assert Decimal(19) == "19" by { assert Decimal(1) == "1"; }
    }
    assert Decimal(168) == "168" by {
      assert Decimal(16) == "16" by { assert Decimal(1) == "1"; }
    }
    assert Decimal(254) == "254" by {
      assert Decimal(25) == "25" by { assert Decimal(2) == "2"; }
    }
  }
}
