/** Every name and address a leaf may carry, and nothing else, is what its CA certificate permits. */
module Issuing {
  import opened Results
  import opened Text
  import opened Addresses
  import opened Subnets
  import opened Constraints

  // ---- the CA's certificate ----------------------------------------------------------------------

  const LOOPBACK4: Address := Address(V4, [127, 0, 0, 1])
  const LOOPBACK6: Address := Address(V6, seq(15, _ => 0) + [1])

  lemma Loopback4Text()
    ensures Printed(LOOPBACK4) == "127.0.0.1" && Cidr(LOOPBACK4, 32).Text() == "127.0.0.1/32"
  {
    assert Numeral(127, 10) == Numeral(12, 10) + "7" && Numeral(12, 10) == "12";
    var parts := Octets(LOOPBACK4.bytes);
    assert LOOPBACK4.bytes[0] as int == 127 && LOOPBACK4.bytes[1] as int == 0 && LOOPBACK4.bytes[3] as int == 1;
    assert parts[0] == "127" && parts[1] == "0" && parts[2] == "0" && parts[3] == "1";
    assert parts == ["127", "0", "0", "1"];
    assert parts[1..] == ["0", "0", "1"] && parts[1..][1..] == ["0", "1"] && parts[1..][1..][1..] == ["1"];
    assert Numeral(32, 10) == "32";
  }

  lemma Loopback6Text()
    ensures Printed(LOOPBACK6) == "::1" && Cidr(LOOPBACK6, 128).Text() == "::1/128"
  {
    var words := Words(LOOPBACK6.bytes);
    Loopback6Words(words);
    OneBest(words, 0, 7, Best(words).0, Best(words).1);
    var hex := HexGroups(words);
    assert hex[..0] == [] && hex[7..] == ["1"];
    assert Numeral(128, 10) == Numeral(12, 10) + "8" && Numeral(12, 10) == "12";
  }

  lemma Loopback6Words(words: seq<bv16>)
    requires words == Words(LOOPBACK6.bytes)
    ensures |words| == 8 && words[7] == 1 && FirstLongest(words, 0, 7)
  {
    assert forall i :: 0 <= i < 7 ==> words[i] == 0;
    assert words[7] == 1;
    RunOfZeros(words, 0);
    forall k | 0 <= k <= 8
      ensures Run(words, k) <= 7
    {
      if k <= 7 { RunOfZeros(words, k); }
    }
  }

  lemma {:induction false} RunOfZeros(words: seq<bv16>, i: nat)
    requires |words| == 8 && i <= 7 && words[7] != 0 && forall k :: i <= k < 7 ==> words[k] == 0
    ensures Run(words, i) == 7 - i
    decreases 7 - i
  {
    if i < 7 { RunOfZeros(words, i + 1); }
  }

  lemma Loopback4Range()
    ensures ParseCidr(FIXED_IP_RANGES[0]) == Ok(Cidr(LOOPBACK4, 32))
  {
    Loopback4Text();
    IsNetwork(Cidr(LOOPBACK4, 32));
    CidrRoundTrip(Cidr(LOOPBACK4, 32));
  }

  lemma Loopback6Range()
    ensures ParseCidr(FIXED_IP_RANGES[1]) == Ok(Cidr(LOOPBACK6, 128))
  {
    Loopback6Text();
    IsNetwork(Cidr(LOOPBACK6, 128));
    CidrRoundTrip(Cidr(LOOPBACK6, 128));
  }

  /** The text names a network, and the network makes its constraint. */
  predicate Certifies(text: string) {
    match ParseCidr(text)
    case Err(_) => false
    case Ok(cidr) => CertifiedRange(RangeOf(cidr)) == Ok(SubtreeOf(cidr))
  }

  lemma SubnetCertifies(s: string)
    requires ParseCidr(s).Ok? && ParseCidr(s).value.prefix >= 1
    ensures Certifies(s)
  {
    RangeCertified(ParseCidr(s).value);
  }

  predicate AllCertify(texts: seq<string>) { forall i :: 0 <= i < |texts| ==> Certifies(texts[i]) }

  predicate NamesNetwork(s: string) { ParseCidr(s).Ok? && ParseCidr(s).value.prefix >= 1 }

  lemma NetworksCertify(texts: seq<string>)
    requires forall i :: 0 <= i < |texts| ==> NamesNetwork(texts[i])
    ensures AllCertify(texts)
  {
    forall i | 0 <= i < |texts|
      ensures Certifies(texts[i])
    {
      assert NamesNetwork(texts[i]);
      SubnetCertifies(texts[i]);
    }
  }

  lemma FixedAreNetworks()
    ensures NamesNetwork(FIXED_IP_RANGES[0]) && NamesNetwork(FIXED_IP_RANGES[1])
  {
    Loopback4Range();
    Loopback6Range();
  }

  lemma Two(texts: seq<string>, p: string -> bool)
    requires |texts| == 2 && p(texts[0]) && p(texts[1])
    ensures forall i :: 0 <= i < |texts| ==> p(texts[i])
  {
  }

  lemma LoopbackCertifies()
    ensures AllCertify(FIXED_IP_RANGES)
  {
    FixedAreNetworks();
    var p: string -> bool := s => NamesNetwork(s);
    Two(FIXED_IP_RANGES, p);
    NetworksCertify(FIXED_IP_RANGES);
  }

  lemma SubnetIsNetwork(s: string)
    requires CanonicalSubnet(s)
    ensures NamesNetwork(s)
  {
  }

  lemma SubnetsCertify(node: Node, c: Constraints)
    requires Canonical(node, c)
    ensures AllCertify(c.subnets)
  {
    forall i | 0 <= i < |c.subnets|
      ensures NamesNetwork(c.subnets[i])
    {
      SubnetIsNetwork(c.subnets[i]);
    }
    NetworksCertify(c.subnets);
  }

  lemma BothCertify(a: seq<string>, b: seq<string>)
    requires AllCertify(a) && AllCertify(b)
    ensures AllCertify(a + b)
  {
  }

  lemma RangesCertify(node: Node, c: Constraints)
    requires Canonical(node, c)
    ensures AllCertify(Ranges(c))
  {
    LoopbackCertifies();
    SubnetsCertify(node, c);
    BothCertify(FIXED_IP_RANGES, c.subnets);
  }

  ghost predicate IsCaOf(c: Constraints, ca: NameConstraints) {
    && ca.permitted.dns == c.dns && ca.excluded == Subtrees(c.excludedDns, []) && |ca.permitted.ip| == |Ranges(c)|
    && forall i :: 0 <= i < |Ranges(c)| ==>
         ParseCidr(Ranges(c)[i]).Ok? && ca.permitted.ip[i] == SubtreeOf(ParseCidr(Ranges(c)[i]).value)
  }

  lemma AllCertified(texts: seq<string>)
    requires AllCertify(texts)
    ensures IpRanges(texts).Ok? && CertifiedRanges(IpRanges(texts).value).Ok?
    ensures var ip := CertifiedRanges(IpRanges(texts).value).value;
            |ip| == |texts| && forall i :: 0 <= i < |texts| ==>
              ParseCidr(texts[i]).Ok? && ip[i] == SubtreeOf(ParseCidr(texts[i]).value)
  {
  }

  lemma NamesAreHosts(node: Node, c: Constraints)
    requires Canonical(node, c)
    ensures forall i :: 0 <= i < |c.dns| ==> HostName(node, c.dns[i])
    ensures forall i :: 0 <= i < |c.excludedDns| ==>
              c.excludedDns[i] != "" && c.excludedDns[i][0] == '.' && HostName(node, c.excludedDns[i][1..])
  {
  }

  /** Canonical constraints always make a certificate, which says of each range its bytes and mask. */
  lemma ConstraintsCertified(node: Node, c: Constraints)
    requires Canonical(node, c)
    ensures ScopeOf(c).Ok? && CertifiedScope(node, ScopeOf(c).value).Ok?
    ensures IsCaOf(c, CertifiedScope(node, ScopeOf(c).value).value)
  {
    RangesCertify(node, c);
    AllCertified(Ranges(c));
    NamesAreHosts(node, c);
    ScopeCertified(node, ScopeOf(c).value);
  }

  lemma ScopeCertified(node: Node, scope: Scope)
    requires |scope.dns| > 0 && |scope.ip| > 0 && CertifiedRanges(scope.ip).Ok?
    requires forall i :: 0 <= i < |scope.dns| ==> HostName(node, scope.dns[i])
    requires forall i :: 0 <= i < |scope.excludedDns| ==>
               scope.excludedDns[i] != "" && scope.excludedDns[i][0] == '.' && HostName(node, scope.excludedDns[i][1..])
    ensures CertifiedScope(node, scope) ==
            Ok(NameConstraints(Subtrees(scope.dns, CertifiedRanges(scope.ip).value), Subtrees(scope.excludedDns, [])))
  {
  }

  function CaOf(node: Node, c: Constraints): (ca: NameConstraints)
    requires Canonical(node, c)
    ensures IsCaOf(c, ca)
  {
    ConstraintsCertified(node, c);
    CertifiedScope(node, ScopeOf(c).value).value
  }

  // ---- agreement -----------------------------------------------------------------------------------

  lemma SubtreeOfName(node: Node, n: string, d: string)
    requires HostName(node, n) && HostName(node, d)
    ensures DnsInSubtree(n, d) <==> n == d || EndsWith(n, "." + d)
  {
    NameShape(n);
    NameShape(d);
  }

  lemma NamesAmong(n: string, c: Constraints, ca: NameConstraints)
    requires Lower(n) == n && Matched(n) == n && WithoutDot(n) == n && |c.dns| > 0
    requires ca.permitted.dns == c.dns && ca.excluded.dns == c.excludedDns
    requires forall i :: 0 <= i < |c.dns| ==>
              (DnsInSubtree(n, c.dns[i]) <==> n == c.dns[i] || EndsWith(n, "." + c.dns[i]))
    requires forall i :: 0 <= i < |c.excludedDns| ==>
              (DnsInSubtree(n, c.excludedDns[i]) <==> EndsWith(n, c.excludedDns[i]))
    ensures CoversName(c, n) <==> !NameViolates(n, ca)
  {
  }

  /** A host name is covered exactly when the CA's certificate permits it. */
  lemma NamesAgree(node: Node, c: Constraints, n: string)
    requires Canonical(node, c) && HostName(node, n)
    ensures CoversName(c, n) <==> !NameViolates(n, CaOf(node, c))
  {
    NameStays(n);
    SubtreesOfNames(node, c, n);
    NamesAmong(n, c, CaOf(node, c));
  }

  lemma NameStays(n: string)
    requires DnsName(n)
    ensures Lower(n) == n && Matched(n) == n && WithoutDot(n) == n
  {
    NameShape(n);
    PlainStays(n);
  }

  lemma SubtreesOfNames(node: Node, c: Constraints, n: string)
    requires Canonical(node, c) && HostName(node, n)
    ensures forall i :: 0 <= i < |c.dns| ==>
              (DnsInSubtree(n, c.dns[i]) <==> n == c.dns[i] || EndsWith(n, "." + c.dns[i]))
    ensures forall i :: 0 <= i < |c.excludedDns| ==>
              (DnsInSubtree(n, c.excludedDns[i]) <==> EndsWith(n, c.excludedDns[i]))
  {
    NameShape(n);
    forall i | 0 <= i < |c.dns|
      ensures DnsInSubtree(n, c.dns[i]) <==> n == c.dns[i] || EndsWith(n, "." + c.dns[i])
    {
      SubtreeOfName(node, n, c.dns[i]);
    }
  }

  /** An address, however it is written, is covered exactly when the CA's certificate permits its bytes. */
  lemma AddressesAgree(node: Node, c: Constraints, text: string)
    requires Canonical(node, c)
    ensures match ParseAddress(text)
            case Err(_) => !CoversAddress(c, text)
            case Ok(x) => CoversAddress(c, text) <==> !AddressViolates(x.bytes, CaOf(node, c))
  {
    match ParseAddress(text)
    case Err(_) =>
    case Ok(x) =>
      var ca := CaOf(node, c);
      forall i | 0 <= i < |Ranges(c)|
        ensures RangeHas(Ranges(c)[i], x) <==> IpInSubtree(x.bytes, ca.permitted.ip[i])
      {
        SubtreeIsContains(ParseCidr(Ranges(c)[i]).value, x);
      }
  }

  // ---- the names of a leaf -------------------------------------------------------------------------

  /** The dotted names of the CA, but for `<host>.local` pairs. */
  function CaNames(c: Constraints): seq<string> {
    Picked(c, c.dns)
  }

  predicate IsCaName(c: Constraints, name: string) {
    '.' in name && !(EndsWith(name, ".local") && name[..|name| - 6] in c.dns)
  }

  function Picked(c: Constraints, names: seq<string>): (r: seq<string>)
    ensures forall n :: n in r <==> n in names && IsCaName(c, n)
  {
    if names == [] then []
    else
      var rest := Picked(c, names[1..]);
      assert forall n :: n in names <==> n == names[0] || n in names[1..];
      if IsCaName(c, names[0]) then [names[0]] + rest else rest
  }

  /** Which texts a candidate adds to a list of the leaf. */
  type Adds = (string, string) -> bool

  /** The name that a candidate puts in the certificate. */
  function Names(node: Node, c: Constraints): Adds {
    (raw: string, n: string) => IsIP(node, Trim(raw)) == 0 && CanonicalName(node, raw) == Ok(n) && CoversName(c, n)
  }

  /** The address that a text puts in the certificate. */
  predicate Located(c: Constraints, text: string, t: string) {
    ParseAddress(text).Ok? && t == Printed(ParseAddress(text).value) && CoversAddress(c, t)
  }

  function Locates(c: Constraints): Adds {
    (text: string, t: string) => Located(c, text, t)
  }

  /** So does a candidate that is an address. */
  function NumericLocates(node: Node, c: Constraints): Adds {
    (raw: string, t: string) => IsIP(node, Trim(raw)) != 0 && Located(c, Trim(raw), t)
  }

  /** What is listed as left out for an address text. */
  predicate AddressLeft(c: Constraints, text: string, report: bool, o: string) {
    match ParseAddress(text)
    case Err(_) => o == text
    case Ok(a) => report && o == Printed(a) && !CoversAddress(c, o)
  }

  function LeavesAddress(c: Constraints, report: bool): Adds {
    (text: string, o: string) => AddressLeft(c, text, report, o)
  }

  /** What is listed as left out for a candidate. */
  function LeavesName(node: Node, c: Constraints): Adds {
    (raw: string, o: string) =>
      if IsIP(node, Trim(raw)) != 0 then AddressLeft(c, Trim(raw), true, o)
      else
        match CanonicalName(node, raw)
        case Err(_) => o == Trim(raw)
        case Ok(n) => o == n && !CoversName(c, n)
  }

  predicate Distinct(s: seq<string>) { forall i, j :: 0 <= i < j < |s| ==> s[i] != s[j] }

  ghost predicate Extends(list: seq<string>, was: seq<string>, x: string, adds: Adds) {
    forall o :: o in list <==> o in was || adds(x, o)
  }

  ghost predicate Among(xs: seq<string>, adds: Adds, o: string) {
    exists i :: 0 <= i < |xs| && adds(xs[i], o)
  }

  /** The list is what it was and what these texts add to it. */
  ghost predicate Lists(list: seq<string>, was: seq<string>, xs: seq<string>, adds: Adds) {
    forall o :: o in list <==> o in was || Among(xs, adds, o)
  }

  lemma OneMore(list: seq<string>, was: seq<string>, next: seq<string>, xs: seq<string>, i: nat, adds: Adds)
    requires i < |xs| && Lists(list, was, xs[..i], adds) && Extends(next, list, xs[i], adds)
    ensures Lists(next, was, xs[..i + 1], adds)
  {
    forall o
      ensures Among(xs[..i + 1], adds, o) <==> Among(xs[..i], adds, o) || adds(xs[i], o)
    {
      assert xs[..i + 1][i] == xs[i] && forall k :: 0 <= k < i ==> xs[..i + 1][k] == xs[..i][k];
    }
  }

  datatype Leaf = Leaf(dns: seq<string>, ip: seq<string>, outside: seq<string>)

  method AddAddress(c: Constraints, leaf: Leaf, text: string, report: bool) returns (r: Leaf)
    requires Distinct(leaf.ip)
    ensures r.dns == leaf.dns && Distinct(r.ip)
    ensures Extends(r.ip, leaf.ip, text, Locates(c))
    ensures Extends(r.outside, leaf.outside, text, LeavesAddress(c, report))
  {
    r := leaf;
    var a := ParseAddress(text);
    if a.Err? { return leaf.(outside := leaf.outside + [text]); }
    var canonical := FormatAddress(a.value);
    if CoversAddress(c, canonical) {
      if canonical !in leaf.ip { r := leaf.(ip := leaf.ip + [canonical]); }
    } else if report && canonical !in leaf.outside {
      r := leaf.(outside := leaf.outside + [canonical]);
    }
  }

  method AddName(node: Node, c: Constraints, leaf: Leaf, raw: string) returns (r: Leaf)
    requires Distinct(leaf.ip) && Distinct(leaf.dns)
    ensures Distinct(r.ip) && Distinct(r.dns)
    ensures Extends(r.dns, leaf.dns, raw, Names(node, c))
    ensures Extends(r.ip, leaf.ip, raw, NumericLocates(node, c))
    ensures Extends(r.outside, leaf.outside, raw, LeavesName(node, c))
  {
    if IsIP(node, Trim(raw)) != 0 {
      r := AddAddress(c, leaf, Trim(raw), true);
      assert forall t :: Locates(c)(Trim(raw), t) == NumericLocates(node, c)(raw, t);
      assert forall o :: LeavesAddress(c, true)(Trim(raw), o) == LeavesName(node, c)(raw, o);
      return;
    }
    r := leaf;
    var name := CanonicalName(node, raw);
    if name.Err? { return leaf.(outside := leaf.outside + [Trim(raw)]); }
    if CoversName(c, name.value) {
      if name.value !in leaf.dns { r := leaf.(dns := leaf.dns + [name.value]); }
    } else if name.value !in leaf.outside {
      r := leaf.(outside := leaf.outside + [name.value]);
    }
  }

  const LOOPBACK: seq<string> := ["127.0.0.1", "::1"]

  lemma LoopbackDiffers()
    ensures Distinct(LOOPBACK)
  {
    assert |LOOPBACK[0]| != |LOOPBACK[1]|;
  }

  function Candidates(c: Constraints, hostname: string, names: seq<string>): seq<string> {
    [hostname, hostname + ".local", "localhost"] + names + CaNames(c)
  }

  method FromCandidates(node: Node, c: Constraints, raws: seq<string>) returns (leaf: Leaf)
    ensures Distinct(leaf.dns) && Distinct(leaf.ip)
    ensures Lists(leaf.dns, [], raws, Names(node, c))
    ensures Lists(leaf.ip, LOOPBACK, raws, NumericLocates(node, c))
    ensures Lists(leaf.outside, [], raws, LeavesName(node, c))
  {
    leaf := Leaf([], LOOPBACK, []);
    LoopbackDiffers();
    for i := 0 to |raws|
      invariant Distinct(leaf.dns) && Distinct(leaf.ip)
      invariant Lists(leaf.dns, [], raws[..i], Names(node, c))
      invariant Lists(leaf.ip, LOOPBACK, raws[..i], NumericLocates(node, c))
      invariant Lists(leaf.outside, [], raws[..i], LeavesName(node, c))
    {
      var next := AddName(node, c, leaf, raws[i]);
      OneMore(leaf.dns, [], next.dns, raws, i, Names(node, c));
      OneMore(leaf.ip, LOOPBACK, next.ip, raws, i, NumericLocates(node, c));
      OneMore(leaf.outside, [], next.outside, raws, i, LeavesName(node, c));
      leaf := next;
    }
    assert raws[..|raws|] == raws;
  }

  /** The leaf names what its candidates name and the CA covers, each once, and reports the rest. */
  method LeafNamesFor(node: Node, c: Constraints, hostname: string, names: seq<string>, addresses: seq<string>)
      returns (leaf: Leaf)
    ensures Distinct(leaf.dns) && Distinct(leaf.ip)
    ensures IsLeaf(node, c, Candidates(c, hostname, names), addresses, leaf)
  {
    var raws := Candidates(c, hostname, names);
    var first := FromCandidates(node, c, raws);
    leaf := first;
    for i := 0 to |addresses|
      invariant leaf.dns == first.dns && Distinct(leaf.ip)
      invariant Lists(leaf.ip, first.ip, addresses[..i], Locates(c))
      invariant Lists(leaf.outside, first.outside, addresses[..i], LeavesAddress(c, |c.subnets| > 0))
    {
      var next := AddAddress(c, leaf, addresses[i], |c.subnets| > 0);
      OneMore(leaf.ip, first.ip, next.ip, addresses, i, Locates(c));
      OneMore(leaf.outside, first.outside, next.outside, addresses, i, LeavesAddress(c, |c.subnets| > 0));
      leaf := next;
    }
    assert addresses[..|addresses|] == addresses;
  }

  /** The names of a leaf for these candidates and interface addresses. */
  ghost predicate IsLeaf(node: Node, c: Constraints, raws: seq<string>, addresses: seq<string>, leaf: Leaf) {
    && (forall n :: n in leaf.dns <==> Among(raws, Names(node, c), n))
    && (forall t :: t in leaf.ip <==>
         t in LOOPBACK || Among(raws, NumericLocates(node, c), t)
         || Among(addresses, Locates(c), t))
    && (forall o :: o in leaf.outside <==>
          Among(raws, LeavesName(node, c), o) || Among(addresses, LeavesAddress(c, |c.subnets| > 0), o))
  }

  // ---- every leaf obeys its CA ---------------------------------------------------------------------

  predicate GoodName(node: Node, c: Constraints, n: string) { HostName(node, n) && CoversName(c, n) }

  predicate GoodAddress(c: Constraints, t: string) { ParseAddress(t).Ok? && CoversAddress(c, t) }

  lemma NetworkIsGood(c: Constraints, i: nat, text: string, net: Cidr)
    requires i < |Ranges(c)| && ParseCidr(Ranges(c)[i]) == Ok(net) && text == Printed(net.address)
    ensures GoodAddress(c, text)
  {
    AddressRoundTrip(net.address);
    assert RangeHas(Ranges(c)[i], net.address);
  }

  lemma FixedIsFirst(c: Constraints)
    ensures |Ranges(c)| >= 2 && Ranges(c)[0] == FIXED_IP_RANGES[0] && Ranges(c)[1] == FIXED_IP_RANGES[1]
  {
  }

  lemma Loopback4IsGood(c: Constraints)
    ensures GoodAddress(c, LOOPBACK[0])
  {
    Loopback4Range();
    Loopback4Text();
    FixedIsFirst(c);
    NetworkIsGood(c, 0, LOOPBACK[0], Cidr(LOOPBACK4, 32));
  }

  lemma Loopback6IsGood(c: Constraints)
    ensures GoodAddress(c, LOOPBACK[1])
  {
    Loopback6Range();
    Loopback6Text();
    FixedIsFirst(c);
    NetworkIsGood(c, 1, LOOPBACK[1], Cidr(LOOPBACK6, 128));
  }

  lemma LoopbackIsGood(c: Constraints, t: string)
    requires t in LOOPBACK
    ensures GoodAddress(c, t)
  {
    if t == LOOPBACK[0] { Loopback4IsGood(c); } else { Loopback6IsGood(c); }
  }

  lemma LocatedIsGood(c: Constraints, text: string, t: string)
    requires Located(c, text, t)
    ensures GoodAddress(c, t)
  {
  }

  lemma LeafIsGood(node: Node, c: Constraints, raws: seq<string>, addresses: seq<string>, leaf: Leaf)
    requires IsLeaf(node, c, raws, addresses, leaf)
    ensures forall i :: 0 <= i < |leaf.dns| ==> GoodName(node, c, leaf.dns[i])
    ensures forall i :: 0 <= i < |leaf.ip| ==> GoodAddress(c, leaf.ip[i])
  {
    forall i | 0 <= i < |leaf.ip|
      ensures GoodAddress(c, leaf.ip[i])
    {
      var t := leaf.ip[i];
      if t in LOOPBACK {
        LoopbackIsGood(c, t);
      } else if Among(raws, NumericLocates(node, c), t) {
        var k :| 0 <= k < |raws| && NumericLocates(node, c)(raws[k], t);
        LocatedIsGood(c, Trim(raws[k]), t);
      } else {
        assert Among(addresses, Locates(c), t);
        var k :| 0 <= k < |addresses| && Locates(c)(addresses[k], t);
        LocatedIsGood(c, addresses[k], t);
      }
    }
    forall i | 0 <= i < |leaf.dns|
      ensures GoodName(node, c, leaf.dns[i])
    {
      assert Among(raws, Names(node, c), leaf.dns[i]);
    }
  }

  /** What the issued certificate holds: the names, and the bytes of the address texts. */
  function Certified(leaf: Leaf): (r: LeafNames)
    requires forall i :: 0 <= i < |leaf.ip| ==> ParseAddress(leaf.ip[i]).Ok?
  {
    LeafNames(leaf.dns, seq(|leaf.ip|, i requires 0 <= i < |leaf.ip| => ParseAddress(leaf.ip[i]).value.bytes))
  }

  /** Issued names obey the CA: whatever the host, its names and its interfaces, the leaf's certificate
      does not violate the name constraints of the CA's certificate. */
  lemma EveryLeafObeys(node: Node, c: Constraints, raws: seq<string>, addresses: seq<string>, leaf: Leaf)
    requires Canonical(node, c) && IsLeaf(node, c, raws, addresses, leaf)
    ensures forall i :: 0 <= i < |leaf.ip| ==> ParseAddress(leaf.ip[i]).Ok?
    ensures !Violates(Certified(leaf), CaOf(node, c))
  {
    LeafIsGood(node, c, raws, addresses, leaf);
    forall i | 0 <= i < |leaf.dns|
      ensures !NameViolates(leaf.dns[i], CaOf(node, c))
    {
      assert GoodName(node, c, leaf.dns[i]);
      NamesAgree(node, c, leaf.dns[i]);
    }
    forall i | 0 <= i < |leaf.ip|
      ensures ParseAddress(leaf.ip[i]).Ok? && !AddressViolates(ParseAddress(leaf.ip[i]).value.bytes, CaOf(node, c))
    {
      assert GoodAddress(c, leaf.ip[i]);
      AddressesAgree(node, c, leaf.ip[i]);
    }
  }

  // ---- and says all that its CA permits ------------------------------------------------------------

  /** A leaf is asked to name the host, its `.local` pair, localhost, these names, and the CA's own dotted ones. */
  predicate Asked(c: Constraints, hostname: string, names: seq<string>, n: string) {
    || n == hostname || n == hostname + ".local" || n == "localhost" || n in names
    || (n in c.dns && '.' in n && !(EndsWith(n, ".local") && n[..|n| - 6] in c.dns))
  }

  lemma AskedIsCandidate(c: Constraints, hostname: string, names: seq<string>, n: string)
    requires Asked(c, hostname, names, n)
    ensures n in Candidates(c, hostname, names)
  {
    var own := [hostname, hostname + ".local", "localhost"];
    assert own[0] == hostname && own[1] == hostname + ".local" && own[2] == "localhost";
    assert Candidates(c, hostname, names) == own + names + CaNames(c);
  }

  lemma NamedIfCovered(node: Node, c: Constraints, raws: seq<string>, n: string)
    requires n in raws && HostName(node, n)
    ensures Among(raws, Names(node, c), n) <==> CoversName(c, n)
  {
    CanonicalAgain(node, n);
    NameIsTrimmed(n);
    var i :| 0 <= i < |raws| && raws[i] == n;
    assert Names(node, c)(raws[i], n) <==> CoversName(c, n);
  }

  lemma NameIsTrimmed(n: string)
    requires DnsName(n)
    ensures Trim(n) == n
  {
    NameShape(n);
    PlainStays(n);
  }

  /** A host name that a leaf is asked to carry is in it exactly when the CA's certificate permits it. */
  lemma LeafNamesAll(node: Node, c: Constraints, hostname: string, names: seq<string>, addresses: seq<string>,
                     leaf: Leaf, n: string)
    requires Canonical(node, c) && IsLeaf(node, c, Candidates(c, hostname, names), addresses, leaf)
    requires HostName(node, n) && Asked(c, hostname, names, n)
    ensures n in leaf.dns <==> !NameViolates(n, CaOf(node, c))
  {
    AskedIsCandidate(c, hostname, names, n);
    NamedIfCovered(node, c, Candidates(c, hostname, names), n);
    NamesAgree(node, c, n);
  }

  /** And it names nothing else: each of its names is that of a text it was asked to carry. */
  lemma LeafNamesOnly(node: Node, c: Constraints, hostname: string, names: seq<string>, addresses: seq<string>,
                      leaf: Leaf, n: string)
    requires IsLeaf(node, c, Candidates(c, hostname, names), addresses, leaf) && n in leaf.dns
    ensures exists raw :: Asked(c, hostname, names, raw) && CanonicalName(node, raw) == Ok(n)
  {
    var raws := Candidates(c, hostname, names);
    var i :| 0 <= i < |raws| && Names(node, c)(raws[i], n);
    CandidateIsAsked(c, hostname, names, i);
    assert Asked(c, hostname, names, raws[i]);
  }

  lemma CandidateIsAsked(c: Constraints, hostname: string, names: seq<string>, i: nat)
    requires i < |Candidates(c, hostname, names)|
    ensures Asked(c, hostname, names, Candidates(c, hostname, names)[i])
  {
    var own := [hostname, hostname + ".local", "localhost"];
    assert Candidates(c, hostname, names) == own + names + CaNames(c);
    if i >= |own| + |names| { assert Candidates(c, hostname, names)[i] in CaNames(c); }
  }

  /** An interface address is in its leaf, in its canonical text, exactly when the CA's certificate permits it. */
  lemma LeafLocatesAll(node: Node, c: Constraints, raws: seq<string>, addresses: seq<string>, leaf: Leaf, k: nat)
    requires Canonical(node, c) && IsLeaf(node, c, raws, addresses, leaf)
    requires k < |addresses| && ParseAddress(addresses[k]).Ok?
    ensures var x := ParseAddress(addresses[k]).value;
            Printed(x) in leaf.ip <==> !AddressViolates(x.bytes, CaOf(node, c))
  {
    var x := ParseAddress(addresses[k]).value;
    var t := Printed(x);
    AddressRoundTrip(x);
    AddressesAgree(node, c, t);
    if CoversAddress(c, t) {
      assert Locates(c)(addresses[k], t);
      assert Among(addresses, Locates(c), t);
    }
    if t in leaf.ip {
      LeafIsGood(node, c, raws, addresses, leaf);
      var i :| 0 <= i < |leaf.ip| && leaf.ip[i] == t;
      assert GoodAddress(c, leaf.ip[i]);
    }
  }
}
