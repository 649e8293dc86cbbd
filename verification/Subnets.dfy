/** CIDR subnets, and which of them a CA may be asked to cover (packages/tls/src/ca/constraints.ts). */
module Subnets {
  import opened Results
  import opened Text
  import opened Addresses

  datatype Cidr = Cidr(address: Address, prefix: nat)
  {
    /** A network: an address without host bits and a prefix that fits. */
    predicate Valid() {
      && address.Valid() && prefix <= Bits(address.family)
      && MaskedBytes(address.bytes, prefix) == address.bytes
    }

    function Text(): string
      requires address.Valid()
    {
      Printed(address) + "/" + Numeral(prefix, 10)
    }
  }

  datatype Why = Unspecified | Loopback | LinkLocal | Multicast | Reserved | Mapped | Nat64 | Compatible

  datatype SubnetError = NotASubnet | BadAddress(error: AddressError) | TooLong | HostBits(network: Cidr)
                       | TooBroad | NotALan(why: Why)

  function Bits(f: Family): nat { if f.V4? then 32 else 128 }

  // ---- masks -----------------------------------------------------------------------------------

  /** How many of byte `i`'s bits a prefix keeps. */
  function KeepBits(prefix: int, i: nat): (k: nat)
    ensures k <= 8
  {
    if prefix - 8 * i < 0 then 0 else if prefix - 8 * i > 8 then 8 else prefix - 8 * i
  }

  /** The byte whose first `keep` bits are set. */
  function MaskByte(keep: nat): Byte
    requires keep <= 8
  {
    match keep
    case 0 => 0x00 case 1 => 0x80 case 2 => 0xc0 case 3 => 0xe0
    case 4 => 0xf0 case 5 => 0xf8 case 6 => 0xfc case 7 => 0xfe case _ => 0xff
  }

  lemma MaskIsShift(keep: nat)
    requires keep <= 8
    ensures MaskByte(keep) == (0xff as Byte) << (8 - keep)
  {
  }

  function MaskedBytes(bytes: seq<Byte>, prefix: int): (r: seq<Byte>)
    ensures |r| == |bytes|
  {
    seq(|bytes|, i requires 0 <= i < |bytes| => bytes[i] & MaskByte(KeepBits(prefix, i)))
  }

  method Masked(a: Address, prefix: int) returns (r: Address)
    ensures r == a.(bytes := MaskedBytes(a.bytes, prefix))
  {
    var bytes := a.bytes;
    for i := 0 to |bytes|
      invariant |bytes| == |a.bytes|
      invariant forall k :: 0 <= k < |bytes| ==>
                bytes[k]
                == if k < i then MaskedBytes(a.bytes, prefix)[k] else a.bytes[k]
    {
      var keep := KeepBits(prefix, i);
      MaskIsShift(keep);
      bytes := bytes[i := bytes[i] & ((0xff as Byte) << (8 - keep))];
    }
    r := a.(bytes := bytes);
  }

  predicate Contains(c: Cidr, a: Address) {
    a.family == c.address.family && MaskedBytes(a.bytes, c.prefix) == c.address.bytes
  }

  predicate Overlaps(a: Cidr, b: Cidr) { Contains(a, b.address) || Contains(b, a.address) }

  /** The bit `j` places after the most significant one. */
  function Flag(j: nat): Byte
    requires j < 8
  {
    match j
    case 0 => 0x80 case 1 => 0x40 case 2 => 0x20 case 3 => 0x10
    case 4 => 0x08 case 5 => 0x04 case 6 => 0x02 case _ => 0x01
  }

  predicate BitOf(b: Byte, j: nat)
    requires j < 8
  {
    b & Flag(j) != 0
  }

  /** Bit `i` of an address, in network order. */
  function Bit(a: Address, i: nat): bool
    requires a.Valid() && i < Bits(a.family)
  {
    BitOf(a.bytes[i / 8], i % 8)
  }

  lemma MaskTwice(x: Byte, k: nat, n: nat)
    requires k <= n <= 8
    ensures (x & MaskByte(n)) & MaskByte(k) == x & MaskByte(k)
  {
  }

  /** The first `k` bits agree. */
  predicate AgreeTo(x: Byte, y: Byte, k: nat)
    requires k <= 8
  {
    k == 0 || (AgreeTo(x, y, k - 1) && BitOf(x, k - 1) == BitOf(y, k - 1))
  }

  lemma {:induction false} AgreeEach(x: Byte, y: Byte, k: nat)
    requires k <= 8
    ensures AgreeTo(x, y, k) <==> forall j :: 0 <= j < k ==> BitOf(x, j) == BitOf(y, j)
  {
    if k > 0 { AgreeEach(x, y, k - 1); }
  }

  /** Each mask compares one bit more than the one before. */
  lemma MasksCompare(x: Byte, y: Byte)
    ensures x & 0x80 == y & 0x80 <==> (x & 0x80 != 0 <==> y & 0x80 != 0)
    ensures x & 0xc0 == y & 0xc0 <==> x & 0x80 == y & 0x80 && (x & 0x40 != 0 <==> y & 0x40 != 0)
    ensures x & 0xe0 == y & 0xe0 <==> x & 0xc0 == y & 0xc0 && (x & 0x20 != 0 <==> y & 0x20 != 0)
    ensures x & 0xf0 == y & 0xf0 <==> x & 0xe0 == y & 0xe0 && (x & 0x10 != 0 <==> y & 0x10 != 0)
    ensures x & 0xf8 == y & 0xf8 <==> x & 0xf0 == y & 0xf0 && (x & 0x08 != 0 <==> y & 0x08 != 0)
    ensures x & 0xfc == y & 0xfc <==> x & 0xf8 == y & 0xf8 && (x & 0x04 != 0 <==> y & 0x04 != 0)
    ensures x & 0xfe == y & 0xfe <==> x & 0xfc == y & 0xfc && (x & 0x02 != 0 <==> y & 0x02 != 0)
    ensures x & 0xff == y & 0xff <==> x & 0xfe == y & 0xfe && (x & 0x01 != 0 <==> y & 0x01 != 0)
  {
  }

  lemma OneMoreBit(x: Byte, y: Byte, k: nat)
    requires 1 <= k <= 8
    ensures x & MaskByte(k) == y & MaskByte(k) <==>
              x & MaskByte(k - 1) == y & MaskByte(k - 1) && BitOf(x, k - 1) == BitOf(y, k - 1)
  {
    MasksCompare(x, y);
  }

  /** A mask compares exactly the first `k` bits. */
  lemma {:induction false} MaskCompares(x: Byte, y: Byte, k: nat)
    requires k <= 8
    ensures x & MaskByte(k) == y & MaskByte(k) <==> AgreeTo(x, y, k)
  {
    if k > 0 {
      MaskCompares(x, y, k - 1);
      OneMoreBit(x, y, k);
    }
  }

  lemma MaskedTwice(bytes: seq<Byte>, p: nat, q: nat)
    requires p <= q
    ensures MaskedBytes(MaskedBytes(bytes, q), p) == MaskedBytes(bytes, p)
  {
    forall i | 0 <= i < |bytes|
      ensures MaskedBytes(MaskedBytes(bytes, q), p)[i] == MaskedBytes(bytes, p)[i]
    {
      MaskTwice(bytes[i], KeepBits(p, i), KeepBits(q, i));
    }
  }

  /** Two CIDRs share an address exactly when they overlap. */
  lemma OverlapIsSharing(a: Cidr, b: Cidr)
    requires a.Valid() && b.Valid()
    ensures Overlaps(a, b) <==> exists x: Address :: x.Valid() && Contains(a, x) && Contains(b, x)
  {
    if Contains(a, b.address) { assert Contains(b, b.address); }
    if Contains(b, a.address) { assert Contains(a, a.address); }
    if x: Address :| x.Valid() && Contains(a, x) && Contains(b, x) {
      if a.prefix <= b.prefix {
        MaskedTwice(x.bytes, a.prefix, b.prefix);
      } else {
        MaskedTwice(x.bytes, b.prefix, a.prefix);
      }
    }
  }

  /** The first `prefix` bits agree. */
  predicate SamePrefix(x: Address, y: Address, prefix: nat)
    requires x.Valid() && y.Valid() && x.family == y.family && prefix <= Bits(x.family)
  {
    forall i: nat :: i < prefix ==> Bit(x, i) == Bit(y, i)
  }

  predicate SameBytes(x: Address, y: Address, prefix: nat)
    requires x.Valid() && y.Valid() && x.family == y.family
  {
    forall k :: 0 <= k < |x.bytes| ==> AgreeTo(x.bytes[k], y.bytes[k], KeepBits(prefix, k))
  }

  lemma PrefixByBytes(x: Address, y: Address, prefix: nat)
    requires x.Valid() && y.Valid() && x.family == y.family && prefix <= Bits(x.family)
    ensures SamePrefix(x, y, prefix) <==> SameBytes(x, y, prefix)
  {
    if SamePrefix(x, y, prefix) {
      forall k | 0 <= k < |x.bytes|
        ensures AgreeTo(x.bytes[k], y.bytes[k], KeepBits(prefix, k))
      {
        forall j | 0 <= j < KeepBits(prefix, k)
          ensures BitOf(x.bytes[k], j) == BitOf(y.bytes[k], j)
        {
          assert (8 * k + j) / 8 == k && (8 * k + j) % 8 == j;
          assert Bit(x, 8 * k + j) == Bit(y, 8 * k + j);
        }
        AgreeEach(x.bytes[k], y.bytes[k], KeepBits(prefix, k));
      }
    }
    if SameBytes(x, y, prefix) {
      forall i: nat | i < prefix
        ensures Bit(x, i) == Bit(y, i)
      {
        AgreeEach(x.bytes[i / 8], y.bytes[i / 8], KeepBits(prefix, i / 8));
        assert i % 8 < KeepBits(prefix, i / 8);
      }
    }
  }

  lemma MaskedByBytes(x: Address, y: Address, prefix: nat)
    requires x.Valid() && y.Valid() && x.family == y.family
    ensures MaskedBytes(x.bytes, prefix) == MaskedBytes(y.bytes, prefix) <==> SameBytes(x, y, prefix)
  {
    forall k | 0 <= k < |x.bytes|
      ensures AgreeTo(x.bytes[k], y.bytes[k], KeepBits(prefix, k))
              <==> MaskedBytes(x.bytes, prefix)[k] == MaskedBytes(y.bytes, prefix)[k]
    {
      MaskedByte(x.bytes, y.bytes, prefix, k);
    }
  }

  lemma MaskedByte(x: seq<Byte>, y: seq<Byte>, prefix: nat, k: nat)
    requires k < |x| == |y|
    ensures AgreeTo(x[k], y[k], KeepBits(prefix, k)) <==> MaskedBytes(x, prefix)[k] == MaskedBytes(y, prefix)[k]
  {
    MaskCompares(x[k], y[k], KeepBits(prefix, k));
  }

  /** A CIDR holds exactly the addresses of its family that agree with it in the first `prefix` bits. */
  lemma ContainsIsBits(c: Cidr, x: Address)
    requires c.Valid() && x.Valid()
    ensures Contains(c, x) <==> x.family == c.address.family && SamePrefix(x, c.address, c.prefix)
  {
    if x.family == c.address.family {
      PrefixByBytes(x, c.address, c.prefix);
      MaskedByBytes(x, c.address, c.prefix);
    }
  }

  // ---- reading ---------------------------------------------------------------------------------

  function ParseCidr(text: string): (r: Result<Cidr, SubnetError>)
    ensures r.Ok? ==> r.value.Valid()
  {
    var parts := Split(Trim(text), '/');
    if |parts| != 2 || !(1 <= |parts[1]| <= 3) || !AllDigits(parts[1], 10) then Err(NotASubnet)
    else
      match ParseAddress(parts[0])
      case Err(e) => Err(BadAddress(e))
      case Ok(a) =>
        var prefix := Value(parts[1], 10);
        var network := a.(bytes := MaskedBytes(a.bytes, prefix));
        if prefix > Bits(a.family) then Err(TooLong)
        else if network.bytes != a.bytes then Err(HostBits(Cidr(network, prefix)))
        else Ok(Cidr(network, prefix))
  }

  lemma TwoParts(a: string, p: string)
    requires forall i :: 0 <= i < |a| ==> IsPrintedChar(a[i])
    requires AllDigits(p, 10)
    ensures var s := a + "/" + p; Trim(s) == s && Split(s, '/') == [a, p]
  {
    var s := a + ['/'] + p;
    SplitOff(a, p, '/');
    SplitOff(p, "", '/');
    assert s == a + "/" + p;
    PlainStays(s);
  }

  lemma CidrTextIs(c: Cidr)
    requires c.Valid()
    ensures Trim(c.Text()) == c.Text() && Split(c.Text(), '/') == [Printed(c.address), Numeral(c.prefix, 10)]
  {
    PrintedChars(c.address);
    NumeralReads(c.prefix, 10);
    TwoParts(Printed(c.address), Numeral(c.prefix, 10));
  }

  /** A network's text reads back as that network. */
  lemma CidrRoundTrip(c: Cidr)
    requires c.Valid()
    ensures ParseCidr(c.Text()) == Ok(c)
  {
    CidrTextIs(c);
    AddressRoundTrip(c.address);
    NumeralReads(c.prefix, 10);
    assert Power(10, 3) == 10 * Power(10, 2) && Power(10, 2) == 10 * Power(10, 1) && Power(10, 1) == 10;
  }

  /** The text is an address and the prefix that makes it this network, in one to three digits. */
  ghost predicate Names(text: string, a: string, p: string, c: Cidr) {
    && text == a + "/" + p && '/' !in a && 1 <= |p| <= 3 && AllDigits(p, 10)
    && ParseAddress(a) == Ok(c.address) && Value(p, 10) == c.prefix && c.Valid()
  }

  /** Exactly such texts, with white space around, are read as a network. */
  lemma NetworksExactly(text: string, c: Cidr)
    ensures ParseCidr(text) == Ok(c) <==> exists a, p :: Names(Trim(text), a, p, c)
  {
    if ParseCidr(text) == Ok(c) { ReadIsNamed(text, Split(Trim(text), '/'), c); }
    if a, p :| Names(Trim(text), a, p, c) {
      TwoPieces(a, p);
      NamedIsRead(text, a, p, c);
    }
  }

  lemma ReadIsNamed(text: string, parts: seq<string>, c: Cidr)
    requires ParseCidr(text) == Ok(c) && parts == Split(Trim(text), '/')
    ensures Names(Trim(text), parts[0], parts[1], c)
  {
    var t := Trim(text);
    JoinSplit(t, '/');
    NoSlash(t);
    assert parts[1..] == [parts[1]];
  }

  lemma NamedIsRead(text: string, a: string, p: string, c: Cidr)
    requires Names(Trim(text), a, p, c) && Split(Trim(text), '/') == [a, p]
    ensures ParseCidr(text) == Ok(c)
  {
  }

  lemma TwoPieces(a: string, p: string)
    requires '/' !in a && AllDigits(p, 10)
    ensures Split(a + "/" + p, '/') == [a, p]
  {
    SplitOff(a, p, '/');
    SplitOff(p, "", '/');
    assert a + "/" + p == a + ['/'] + p;
  }

  lemma {:induction false} NoSlash(t: string)
    ensures '/' !in Split(t, '/')[0]
  {
    if t != "" {
      NoSlash(t[1..]);
      var rest := Split(t[1..], '/');
      assert t[0] != '/' ==> Split(t, '/')[0] == [t[0]] + rest[0];
    }
  }

  // ---- subnets a CA may cover ------------------------------------------------------------------

  function Net4(a: Byte, b: Byte, prefix: nat): Cidr { Cidr(Address(V4, [a, b, 0, 0]), prefix) }

  function Net6(head: seq<Byte>, tail: seq<Byte>, prefix: nat): Cidr
    requires |head| + |tail| <= 16
  {
    Cidr(Address(V6, head + seq(16 - |head| - |tail|, _ => 0) + tail), prefix)
  }

  const REJECTED: seq<(Cidr, Why)> := [
    (Net4(0, 0, 8), Unspecified), (Net4(127, 0, 8), Loopback), (Net4(169, 254, 16), LinkLocal),
    (Net4(224, 0, 4), Multicast), (Net4(240, 0, 4), Reserved),
    (Net6([], [], 128), Unspecified), (Net6([], [1], 128), Loopback), (Net6([0xfe, 0x80], [], 10), LinkLocal),
    (Net6([0xff], [], 8), Multicast), (Net6([], [0xff, 0xff, 0, 0, 0, 0], 96), Mapped),
    (Net6([0, 0x64, 0xff, 0x9b], [], 96), Nat64), (Net6([], [], 96), Compatible)]

  /** Why the first range of the list that the subnet overlaps is refused. */
  function Refusal(c: Cidr, list: seq<(Cidr, Why)>): (r: Result<Why, ()>)
    ensures r.Ok? <==> exists i :: 0 <= i < |list| && Overlaps(c, list[i].0)
  {
    if list == [] then Err(())
    else if Overlaps(c, list[0].0) then Ok(list[0].1)
    else
      var r := Refusal(c, list[1..]);
      assert forall i :: 1 <= i < |list| ==> list[i] == list[1..][i - 1];
      r
  }

  function Broadest(f: Family): nat { if f.V4? then 16 else 48 }

  function CheckSubnet(text: string): (r: Result<Cidr, SubnetError>)
    ensures r.Ok? ==> ParseCidr(text) == r
  {
    match ParseCidr(text)
    case Err(e) => Err(e)
    case Ok(c) =>
      if c.prefix < Broadest(c.address.family) then Err(TooBroad)
      else
        match Refusal(c, REJECTED)
        case Ok(why) => Err(NotALan(why))
        case Err(_) => Ok(c)
  }

  lemma FullyKept(b: Byte)
    ensures b & MaskByte(8) == b
  {
  }

  /** Every byte is kept whole or loses nothing. */
  lemma IsNetwork(c: Cidr)
    requires c.address.Valid() && c.prefix <= Bits(c.address.family)
    requires forall k :: 0 <= k < |c.address.bytes| ==>
               8 * k + 8 <= c.prefix || c.address.bytes[k] & MaskByte(KeepBits(c.prefix, k)) == c.address.bytes[k]
    ensures c.Valid()
  {
    forall k | 0 <= k < |c.address.bytes|
      ensures MaskedBytes(c.address.bytes, c.prefix)[k] == c.address.bytes[k]
    {
      FullyKept(c.address.bytes[k]);
    }
  }

  lemma Rejected4(i: nat)
    requires i < 5
    ensures REJECTED[i].0.Valid()
  {
    IsNetwork(REJECTED[i].0);
  }

  lemma Rejected6(i: nat)
    requires 5 <= i < 9
    ensures REJECTED[i].0.Valid()
  {
    IsNetwork(REJECTED[i].0);
  }

  lemma Rejected96(i: nat)
    requires 9 <= i < |REJECTED|
    ensures REJECTED[i].0.Valid()
  {
    IsNetwork(REJECTED[i].0);
  }

  lemma RejectedAreNetworks(i: nat)
    requires i < |REJECTED|
    ensures REJECTED[i].0.Valid()
  {
    if i < 5 { Rejected4(i); } else if i < 9 { Rejected6(i); } else { Rejected96(i); }
  }

  /**
   A subnet is accepted exactly when it is a network, no broader than /16 or /48, that has no address
   in common with any refused range.
   */
  lemma AcceptedSubnets(text: string)
    ensures CheckSubnet(text).Ok? <==>
            (match ParseCidr(text)
             case Err(_) => false
             case Ok(c) => c.prefix >= (if c.address.family.V4? then 16 else 48)
                           && forall i, x: Address :: 0 <= i < |REJECTED| && x.Valid() && Contains(c, x) ==>
                                !Contains(REJECTED[i].0, x))
  {
    match ParseCidr(text)
    case Err(_) =>
    case Ok(c) =>
      forall i | 0 <= i < |REJECTED|
        ensures Overlaps(c, REJECTED[i].0)
                <==> exists x: Address :: x.Valid() && Contains(c, x) && Contains(REJECTED[i].0, x)
      {
        RejectedAreNetworks(i);
        OverlapIsSharing(c, REJECTED[i].0);
      }
  }
}
