/**
 What a generated CA may issue for (packages/tls/src/ca/constraints.ts), the name constraints its
 certificate carries (packages/tls/src/ca/issue.ts), and how a leaf is judged against them
 (packages/tls/src/inspect/x509-constraints.ts).
 */
module Constraints {
  import opened Results
  import opened Text
  import opened Addresses
  import opened Subnets

  /** From the runtime: IPv6 texts with a zone, and domainToASCII. */
  datatype Node = Node(otherIPv6: string -> bool, toAscii: string -> string)

  datatype Constraints = Constraints(dns: seq<string>, excludedDns: seq<string>, subnets: seq<string>)

  // ---- names -----------------------------------------------------------------------------------

  predicate StrictDotted(t: string) {
    LooksDotted(t) && forall i :: 0 <= i < 4 ==> IsOctet(Split(t, '.')[i])
  }

  function OctetByte(part: string): Byte
    requires AllDigits(part, 10) && IsOctet(part)
  {
    Value(part, 10) as Byte
  }

  /** Two words from four octets. */
  function Dotted(parts: seq<string>): (words: seq<bv16>)
    requires |parts| == 4 && forall i :: 0 <= i < 4 ==> AllDigits(parts[i], 10) && IsOctet(parts[i])
    ensures |words| == 2
  {
    [Word(OctetByte(parts[0]), OctetByte(parts[1])), Word(OctetByte(parts[2]), OctetByte(parts[3]))]
  }

  /** After the last colon. */
  function TailStart(t: string): (i: nat)
    ensures i <= |t| && (i > 0 <==> ':' in t) && (i > 0 ==> t[i - 1] == ':') && ':' !in t[i..]
  {
    if t == "" then 0 else if t[|t| - 1] == ':' then |t| else TailStart(t[..|t| - 1])
  }

  /** An IPv6 text whose last two groups are written as a dotted IPv4 address. */
  function MixedWords(t: string): (r: Result<seq<bv16>, AddressError>)
    ensures r.Ok? ==> |r.value| == 8 && ':' in t
  {
    var i := TailStart(t);
    if i == 0 || !StrictDotted(t[i..]) then Err(NotAnAddress)
    else
      match ParseWords(t[..i] + "0:0")
      case Err(e) => Err(e)
      case Ok(words) => Ok(words[..6] + Dotted(Split(t[i..], '.')))
  }

  /** net.isIP */
  function IsIP(node: Node, t: string): nat {
    if StrictDotted(t) then 4
    else if ParseWords(Lower(t)).Ok? || MixedWords(Lower(t)).Ok? || (':' in t && node.otherIPv6(t)) then 6
    else 0
  }

  lemma NoColonNoAddress(node: Node, t: string)
    requires ':' !in t && !StrictDotted(t) && ParseWords(Lower(t)).Err?
    ensures IsIP(node, t) == 0
  {
    LowerHasNoColon(t);
  }

  lemma LowerHasNoColon(t: string)
    requires ':' !in t
    ensures ':' !in Lower(t)
  {
    forall i | 0 <= i < |t|
      ensures Lower(t)[i] != ':'
    {
      assert t[i] in t;
    }
  }

  predicate IsLabelChar(c: char) { 'a' <= c <= 'z' || '0' <= c <= '9' || c == '-' }

  predicate IsLabel(l: string) {
    && 1 <= |l| <= 63 && (forall i :: 0 <= i < |l| ==> IsLabelChar(l[i]))
    && l[0] != '-' && l[|l| - 1] != '-'
  }

  predicate DnsName(t: string) {
    1 <= |t| <= 253 && forall i :: 0 <= i < |Split(t, '.')| ==> IsLabel(Split(t, '.')[i])
  }

  predicate HostName(node: Node, t: string) { DnsName(t) && IsIP(node, t) == 0 }

  predicate IsControl(c: char) { IsSpace(c) || c <= '\U{1F}' || c == '\U{7F}' }

  predicate IsVisible(c: char) { '!' <= c <= '~' }

  function WithoutDot(t: string): string {
    if t != "" && t[|t| - 1] == '.' then t[..|t| - 1] else t
  }

  function CanonicalName(node: Node, raw: string): (r: Result<string, ()>)
    ensures r.Ok? ==> HostName(node, r.value)
  {
    var text := WithoutDot(Lower(Trim(raw)));
    if exists i :: 0 <= i < |text| && IsControl(text[i]) then Err(())
    else
      var ascii := if forall i :: 0 <= i < |text| ==> IsVisible(text[i]) then text else node.toAscii(text);
      if HostName(node, ascii) then Ok(ascii) else Err(())
  }

  predicate IsNameChar(c: char) { IsLabelChar(c) || c == '.' }

  lemma {:induction false} LabelsMakeNames(parts: seq<string>)
    requires |parts| >= 1 && forall i :: 0 <= i < |parts| ==> IsLabel(parts[i])
    ensures var s := Join(parts, '.');
            s != "" && s[0] != '.' && s[|s| - 1] != '.' && forall i :: 0 <= i < |s| ==> IsNameChar(s[i])
  {
    if |parts| > 1 { LabelsMakeNames(parts[1..]); }
  }

  /** A DNS name neither begins nor ends with a dot, and is in lower case. */
  lemma NameShape(t: string)
    requires DnsName(t)
    ensures t[0] != '.' && t[|t| - 1] != '.' && forall i :: 0 <= i < |t| ==> IsNameChar(t[i])
  {
    JoinSplit(t, '.');
    LabelsMakeNames(Split(t, '.'));
  }

  lemma CharIsPlain(c: char)
    requires IsNameChar(c)
    ensures Plain(c) && IsVisible(c) && !IsControl(c)
  {
  }

  lemma NameIsPlain(t: string)
    requires DnsName(t)
    ensures WithoutDot(Lower(Trim(t))) == t && forall i :: 0 <= i < |t| ==> IsVisible(t[i]) && !IsControl(t[i])
  {
    NameShape(t);
    forall i | 0 <= i < |t|
      ensures Plain(t[i]) && IsVisible(t[i]) && !IsControl(t[i])
    {
      CharIsPlain(t[i]);
    }
    PlainStays(t);
  }

  /** Canonical names are fixed points. */
  lemma CanonicalAgain(node: Node, t: string)
    ensures HostName(node, t) <==> CanonicalName(node, t) == Ok(t)
  {
    if HostName(node, t) { NameIsPlain(t); }
  }

  lemma VisibleChar(c: char)
    requires IsVisible(c)
    ensures IsVisible(LowerChar(c)) && !IsControl(LowerChar(c))
  {
  }

  lemma VisibleStays(t: string)
    requires forall i :: 0 <= i < |t| ==> IsVisible(t[i])
    ensures forall i :: 0 <= i < |Lower(t)| ==> IsVisible(Lower(t)[i]) && !IsControl(Lower(t)[i])
  {
    forall i | 0 <= i < |t|
      ensures IsVisible(Lower(t)[i]) && !IsControl(Lower(t)[i])
    {
      VisibleChar(t[i]);
    }
  }

  lemma NamesVisible(node: Node, raw: string, t: string, n: string)
    requires t == Lower(Trim(raw)) && forall i :: 0 <= i < |t| ==> IsVisible(t[i]) && !IsControl(t[i])
    ensures CanonicalName(node, raw) == Ok(n) <==> HostName(node, n) && WithoutDot(t) == n
  {
  }

  lemma WithoutDotIs(t: string, n: string)
    requires n != "" && n[|n| - 1] != '.'
    ensures WithoutDot(t) == n <==> t == n || t == n + "."
  {
    if t == n + "." { assert t[..|t| - 1] == n; }
    if t != "" && t[|t| - 1] == '.' { assert t == t[..|t| - 1] + "."; }
  }

  /**
   A text of visible ASCII characters names a host exactly when, without the space around it, without one final dot and
   in lower case, it is that host's name.
   */
  lemma NamesExactly(node: Node, pre: string, core: string, post: string, n: string)
    requires Spaces(pre) && Spaces(post) && Bare(core) && forall i :: 0 <= i < |core| ==> IsVisible(core[i])
    ensures CanonicalName(node, pre + core + post) == Ok(n) <==>
            HostName(node, n) && (Lower(core) == n || Lower(core) == n + ".")
  {
    Trimmed(pre, core, post);
    VisibleStays(core);
    NamesVisible(node, pre + core + post, Lower(core), n);
    if HostName(node, n) {
      NameShape(n);
      WithoutDotIs(Lower(core), n);
    }
  }

  /** A text with white space or a control character inside names no host, whatever the runtime would make of it. */
  lemma ControlsRefused(node: Node, pre: string, core: string, post: string, i: nat)
    requires Spaces(pre) && Spaces(post) && Bare(core) && i < |core| && IsControl(core[i])
    ensures CanonicalName(node, pre + core + post).Err?
  {
    Trimmed(pre, core, post);
    var t := WithoutDot(Lower(core));
    assert IsControl(Lower(core)[i]) && core[i] != '.';
    assert t[i] == Lower(core)[i];
  }

  /** Section 2.1 of RFC 1123: letters, digits and hyphens, at most 63 of them, and no hyphen at either end. */
  predicate IsHostLabel(l: string) {
    && 1 <= |l| <= 63 && (forall i :: 0 <= i < |l| ==> 'a' <= l[i] <= 'z' || '0' <= l[i] <= '9' || l[i] == '-')
    && l[0] != '-' && l[|l| - 1] != '-'
  }

  /** A DNS name is such labels joined by dots, and no longer than 253. */
  ghost predicate AreLabels(t: string, labels: seq<string>) {
    |labels| >= 1 && t == Join(labels, '.') && forall i :: 0 <= i < |labels| ==> IsHostLabel(labels[i])
  }

  lemma NamesAreLabels(t: string)
    ensures DnsName(t) <==> |t| <= 253 && exists labels :: AreLabels(t, labels)
  {
    if DnsName(t) {
      JoinSplit(t, '.');
      assert AreLabels(t, Split(t, '.'));
    }
    if labels :| AreLabels(t, labels) {
      SplitJoin(labels, '.');
      assert labels[0] != "";
    }
  }

  // ---- what the CA covers ----------------------------------------------------------------------

  const FIXED_IP_RANGES: seq<string> := ["127.0.0.1/32", "::1/128"]

  function Ranges(c: Constraints): seq<string> { FIXED_IP_RANGES + c.subnets }

  predicate CanonicalExclusion(node: Node, e: string) {
    e != "" && e[0] == '.' && CanonicalName(node, e[1..]) == Ok(e[1..])
  }

  predicate CanonicalSubnet(s: string) { CheckSubnet(s).Ok? && CheckSubnet(s).value.Text() == s }

  /** What parseConstraints accepts. */
  predicate Canonical(node: Node, c: Constraints) {
    && |c.dns| > 0 && (forall i :: 0 <= i < |c.dns| ==> CanonicalName(node, c.dns[i]) == Ok(c.dns[i]))
    && (forall i :: 0 <= i < |c.excludedDns| ==> CanonicalExclusion(node, c.excludedDns[i]))
    && (forall i :: 0 <= i < |c.subnets| ==> CanonicalSubnet(c.subnets[i]))
  }

  predicate CoversName(c: Constraints, name: string) {
    var n := Lower(name);
    && (exists i :: 0 <= i < |c.dns| && (n == c.dns[i] || EndsWith(n, "." + c.dns[i])))
    && !(exists i :: 0 <= i < |c.excludedDns| && EndsWith(n, c.excludedDns[i]))
  }

  predicate RangeHas(text: string, a: Address) {
    ParseCidr(text).Ok? && Contains(ParseCidr(text).value, a)
  }

  predicate CoversAddress(c: Constraints, text: string) {
    match ParseAddress(text)
    case Err(_) => false
    case Ok(a) => exists i :: 0 <= i < |Ranges(c)| && RangeHas(Ranges(c)[i], a)
  }

  // ---- what the CA certificate says ------------------------------------------------------------

  datatype IpRange = IpRange(address: string, prefix: int)

  function RangeOf(c: Cidr): IpRange
    requires c.Valid()
  {
    IpRange(Printed(c.address), c.prefix)
  }

  datatype Scope = Scope(dns: seq<string>, excludedDns: seq<string>, ip: seq<IpRange>)

  /** The ranges these texts name, unless one of them names none. */
  function IpRanges(texts: seq<string>): Result<seq<IpRange>, ()> {
    if forall i :: 0 <= i < |texts| ==> ParseCidr(texts[i]).Ok?
    then Ok(seq(|texts|, i requires 0 <= i < |texts| => RangeOf(ParseCidr(texts[i]).value)))
    else Err(())
  }

  function ScopeOf(c: Constraints): Result<Scope, ()> {
    match IpRanges(Ranges(c))
    case Err(e) => Err(e)
    case Ok(ip) => Ok(Scope(c.dns, c.excludedDns, ip))
  }

  datatype IssueError = NothingPermitted | NotADnsName | NotAnIp | BadPrefix | BitsBeyondPrefix | NoLeadingDot

  /** How many of group `g`'s bits a prefix keeps. */
  function KeepWord(prefix: int, g: nat): (k: nat)
    ensures k <= 16
  {
    if prefix - 16 * g < 0 then 0 else if prefix - 16 * g > 16 then 16 else prefix - 16 * g
  }

  function MaskWord(on: nat): bv16
    requires on <= 16
  {
    if on == 0 then 0 else (0xffff as bv16) << (16 - on)
  }

  function MaskWords(prefix: int, count: nat): (mask: seq<bv16>)
    ensures |mask| == count
  {
    seq(count, (g: nat) => MaskWord(KeepWord(prefix, g)))
  }

  /** A canonical address text as sixteen-bit words, any "::" or dotted tail expanded. */
  function AddressWords(address: string): (r: Result<seq<bv16>, AddressError>)
    ensures r.Ok? ==> |r.value| == 2 || |r.value| == 8
  {
    if StrictDotted(address) then Ok(Dotted(Split(address, '.')))
    else if '.' in address then MixedWords(address)
    else ParseWords(address)
  }

  predicate HasBeyond(word: bv16, mask: bv16) { word & !mask != 0 }

  predicate BitsBeyond(words: seq<bv16>, mask: seq<bv16>)
    requires |words| == |mask|
  {
    exists g :: 0 <= g < |words| && HasBeyond(words[g], mask[g])
  }

  function MaskText(mask: seq<bv16>): string {
    if |mask| == 2 then Join(Octets(BytesOf(mask)), '.') else Join(HexGroups(mask), ':')
  }

  /** The netmask text of a range, or why it cannot be a constraint. */
  function NetmaskOf(range: IpRange): (r: Result<string, IssueError>)
  {
    match AddressWords(range.address)
    case Err(_) => Err(NotAnIp)
    case Ok(words) =>
      if range.prefix < 1 || range.prefix > 16 * |words| then Err(BadPrefix)
      else if BitsBeyond(words, MaskWords(range.prefix, |words|)) then Err(BitsBeyondPrefix)
      else Ok(MaskText(MaskWords(range.prefix, |words|)))
  }

  method MaskGroups(prefix: int, count: nat) returns (mask: seq<bv16>)
    ensures mask == MaskWords(prefix, count)
  {
    mask := [];
    for g := 0 to count
      invariant mask == MaskWords(prefix, count)[..g]
    {
      var on := KeepWord(prefix, g);
      mask := mask + [if on == 0 then 0 else (0xffff as bv16) << (16 - on)];
    }
  }

  method Netmask(range: IpRange) returns (r: Result<string, IssueError>)
    ensures r == NetmaskOf(range)
  {
    var w := AddressWords(range.address);
    if w.Err? { return Err(NotAnIp); }
    if range.prefix < 1 || range.prefix > 16 * |w.value| { return Err(BadPrefix); }
    var mask := MaskGroups(range.prefix, |w.value|);
    if BitsBeyond(w.value, mask) { return Err(BitsBeyondPrefix); }
    r := Ok(MaskText(mask));
  }

  /** An iPAddress constraint: address and mask bytes, as many of each. */
  datatype IpSubtree = IpSubtree(address: seq<Byte>, mask: seq<Byte>)

  datatype Subtrees = Subtrees(dns: seq<string>, ip: seq<IpSubtree>)

  datatype NameConstraints = NameConstraints(permitted: Subtrees, excluded: Subtrees)

  /** What a certificate holds for "permitted;IP:<address>/<netmask>": the bytes of both texts. */
  function CertifiedRange(range: IpRange): Result<IpSubtree, IssueError> {
    match NetmaskOf(range)
    case Err(e) => Err(e)
    case Ok(mask) =>
      if ParseAddress(mask).Err? then Err(NotAnIp)
      else Ok(IpSubtree(BytesOf(AddressWords(range.address).value), ParseAddress(mask).value.bytes))
  }

  function CertifiedRanges(ranges: seq<IpRange>): (r: Result<seq<IpSubtree>, IssueError>)
    ensures r.Ok? ==>
              |r.value| == |ranges|
              && forall i :: 0 <= i < |ranges| ==> CertifiedRange(ranges[i]) == Ok(r.value[i])
    ensures r.Err? ==> exists i :: 0 <= i < |ranges| && CertifiedRange(ranges[i]).Err?
  {
    if ranges == [] then Ok([])
    else
      match CertifiedRange(ranges[0])
      case Err(e) => Err(e)
      case Ok(first) =>
        match CertifiedRanges(ranges[1..])
        case Err(e) =>
          assert forall i :: 1 <= i < |ranges| ==> ranges[i] == ranges[1..][i - 1];
          Err(e)
        case Ok(rest) => Ok([first] + rest)
  }

  /** The name constraints of a CA certificate made for this scope. */
  function CertifiedScope(node: Node, scope: Scope): Result<NameConstraints, IssueError> {
    if |scope.dns| == 0 || |scope.ip| == 0 then Err(NothingPermitted)
    else if exists i :: 0 <= i < |scope.dns| && !HostName(node, scope.dns[i]) then Err(NotADnsName)
    else
      match CertifiedRanges(scope.ip)
      case Err(e) => Err(e)
      case Ok(ip) =>
        if exists i :: 0 <= i < |scope.excludedDns| && (scope.excludedDns[i] == "" || scope.excludedDns[i][0] != '.')
        then Err(NoLeadingDot)
        else if exists i :: 0 <= i < |scope.excludedDns| && !HostName(node, scope.excludedDns[i][1..])
            then Err(NotADnsName)
        else Ok(NameConstraints(Subtrees(scope.dns, ip), Subtrees(scope.excludedDns, [])))
  }

  // ---- judging a leaf ----------------------------------------------------------------------------

  datatype LeafNames = LeafNames(dns: seq<string>, ip: seq<seq<Byte>>)

  predicate DnsInSubtree(name: string, constraint: string) {
    var host := WithoutDot(name);
    if constraint == "" then true
    else if constraint[0] == '.' then EndsWith(host, constraint)
    else host == constraint || EndsWith(host, "." + constraint)
  }

  predicate IpInSubtree(address: seq<Byte>, s: IpSubtree) {
    && |address| == |s.address| == |s.mask|
    && forall i :: 0 <= i < |address| ==> address[i] & s.mask[i] == s.address[i] & s.mask[i]
  }

  /** The name a client would match against. */
  function Matched(raw: string): string {
    if |raw| >= 2 && raw[0] == '*' && raw[1] == '.' then "x." + raw[2..] else raw
  }

  predicate NameViolates(raw: string, c: NameConstraints) {
    var name := Matched(raw);
    || (exists i :: 0 <= i < |c.excluded.dns| && DnsInSubtree(name, c.excluded.dns[i]))
    || (|c.permitted.dns| > 0 && !exists i :: 0 <= i < |c.permitted.dns| && DnsInSubtree(name, c.permitted.dns[i]))
  }

  predicate AddressViolates(address: seq<Byte>, c: NameConstraints) {
    || (exists i :: 0 <= i < |c.excluded.ip| && IpInSubtree(address, c.excluded.ip[i]))
    || (|c.permitted.ip| > 0 && !exists i :: 0 <= i < |c.permitted.ip| && IpInSubtree(address, c.permitted.ip[i]))
  }

  /** Section 4.2.1.10 of RFC 5280. */
  predicate Violates(names: LeafNames, c: NameConstraints) {
    || (exists i :: 0 <= i < |names.dns| && NameViolates(names.dns[i], c))
    || (exists i :: 0 <= i < |names.ip| && AddressViolates(names.ip[i], c))
  }

  // ---- masks as bytes ----------------------------------------------------------------------------

  function MaskBytes(prefix: int, count: nat): (mask: seq<Byte>)
    ensures |mask| == count
  {
    seq(count, (i: nat) => MaskByte(KeepBits(prefix, i)))
  }

  lemma MaskWordTable(on: nat)
    requires on <= 16
    ensures MaskWord(on) == Word(MaskByte(if on > 8 then 8 else on), MaskByte(if on > 8 then on - 8 else 0))
  {
  }

  lemma MaskWordIs(prefix: nat, g: nat)
    ensures MaskWord(KeepWord(prefix, g))
            == Word(MaskByte(KeepBits(prefix, 2 * g)), MaskByte(KeepBits(prefix, 2 * g + 1)))
  {
    var on := KeepWord(prefix, g);
    MaskWordTable(on);
    assert KeepBits(prefix, 2 * g) == if on > 8 then 8 else on;
    assert KeepBits(prefix, 2 * g + 1) == if on > 8 then on - 8 else 0;
  }

  lemma MaskWordsAreBytes(prefix: nat, count: nat)
    ensures BytesOf(MaskWords(prefix, count)) == MaskBytes(prefix, 2 * count)
    ensures Words(MaskBytes(prefix, 2 * count)) == MaskWords(prefix, count)
  {
    forall g | 0 <= g < count
      ensures Words(MaskBytes(prefix, 2 * count))[g] == MaskWords(prefix, count)[g]
    {
      MaskWordIs(prefix, g);
    }
    assert Words(MaskBytes(prefix, 2 * count)) == MaskWords(prefix, count);
    WordsBack(MaskBytes(prefix, 2 * count));
  }

  // ---- one range -----------------------------------------------------------------------------------

  lemma OctetsReread(bytes: seq<Byte>)
    requires |bytes| == 4
    ensures StrictDotted(Join(Octets(bytes), '.')) && Dotted(Split(Join(Octets(bytes), '.'), '.')) == Words(bytes)
  {
    var parts := Octets(bytes);
    forall i | 0 <= i < 4
      ensures 1 <= |parts[i]| <= 3 && AllDigits(parts[i], 10) && IsOctet(parts[i]) && OctetByte(parts[i]) == bytes[i]
    {
      Octet(bytes[i]);
      ByteNumber(bytes[i]);
    }
    DotsSplit(parts);
    DottedIs(parts, bytes);
  }

  lemma DottedIs(parts: seq<string>, bytes: seq<Byte>)
    requires |parts| == |bytes| == 4
    requires forall i :: 0 <= i < 4 ==> AllDigits(parts[i], 10) && IsOctet(parts[i]) && OctetByte(parts[i]) == bytes[i]
    ensures Dotted(parts) == Words(bytes)
  {
  }

  lemma HexHasNoDot(t: string)
    requires HexText(t)
    ensures '.' !in t
  {
    assert !IsHexOrColon('.');
  }

  /** The issuer reads a printed address as the words it was printed from. */
  lemma WordsReread(a: Address)
    requires a.Valid()
    ensures AddressWords(Printed(a)) == Ok(Words(a.bytes))
  {
    if a.family.V4? {
      OctetsReread(a.bytes);
    } else {
      PrintedReads(a);
      HexTextIsPlain(Printed(a));
      HexHasNoDot(Printed(a));
    }
  }

  // ---- dotted tails ----------------------------------------------------------------------------------

  lemma TailAfter(q: string, d: string)
    requires q != "" && q[|q| - 1] == ':' && ':' !in d
    ensures TailStart(q + d) == |q|
  {
    var t := q + d;
    var i := TailStart(t);
    assert t[|q| - 1] == ':';
  }

  lemma OctetsHaveNoColon(bytes: seq<Byte>)
    requires |bytes| == 4
    ensures ':' !in Join(Octets(bytes), '.') && '.' in Join(Octets(bytes), '.')
  {
    var parts := Octets(bytes);
    var d := Join(parts, '.');
    forall i | 0 <= i < 4
      ensures ':' !in parts[i]
    {
      Octet(bytes[i]);
      assert !IsDigit(':', 10);
    }
    forall i | 0 <= i < |d|
      ensures d[i] != ':'
    {
      JoinHas(parts, '.', i);
    }
    assert d == parts[0] + ['.'] + Join(parts[1..], '.');
    assert d[|parts[0]|] == '.';
  }

  /** A text with a colon is no dotted IPv4 address. */
  lemma ColonIsNotDotted(t: string)
    requires ':' in t
    ensures !StrictDotted(t)
  {
    if LooksDotted(t) {
      var i :| 0 <= i < |t| && t[i] == ':';
      JoinSplit(t, '.');
      JoinHas(Split(t, '.'), '.', i);
    }
  }

  /** What a dotted tail stands for: the last two of the eight words. */
  lemma MixedTail(q: string, bytes: seq<Byte>, words: seq<bv16>)
    requires q != "" && q[|q| - 1] == ':' && |bytes| == 4 && ParseWords(q + "0:0") == Ok(words)
    ensures AddressWords(q + Join(Octets(bytes), '.')) == Ok(words[..6] + Words(bytes))
  {
    var d := Join(Octets(bytes), '.');
    var t := q + d;
    OctetsHaveNoColon(bytes);
    TailAfter(q, d);
    assert t[|q| - 1] == ':';
    ColonIsNotDotted(t);
    OctetsReread(bytes);
    assert t[..|q|] == q && t[|q|..] == d;
    var k :| 0 <= k < |d| && d[k] == '.';
    assert t[|q| + k] == '.';
  }

  /** The groups, each with its colon. */
  function Ahead(gs: seq<string>): string { if gs == [] then "" else Join(gs, ':') + ":" }

  lemma {:induction false} JoinMore(gs: seq<string>, more: seq<string>)
    requires more != []
    ensures Join(gs + more, ':') == Ahead(gs) + Join(more, ':')
  {
    if gs != [] {
      JoinMore(gs[1..], more);
      assert (gs + more)[1..] == gs[1..] + more;
    } else {
      assert gs + more == more;
    }
  }

  lemma ZeroTail()
    ensures AreGroups(["0", "0"]) && Join(["0", "0"], ':') == "0:0" && GroupWords(["0", "0"]) == [0, 0]
  {
    ZeroGroup();
    assert ["0", "0"][1..] == ["0"];
  }

  /** An IPv6 text with a dotted tail reads as the eight words of its groups and its bytes, with or without "::". */
  lemma MixedReads(head: seq<string>, tail: seq<string>, bytes: seq<Byte>)
    requires AreGroups(head) && AreGroups(tail) && |bytes| == 4
    ensures |head| == 6 ==>
              AddressWords(Ahead(head) + Join(Octets(bytes), '.')) == Ok(GroupWords(head) + Words(bytes))
    ensures |head| + |tail| < 6 ==>
              AddressWords(Join(head, ':') + "::" + Ahead(tail) + Join(Octets(bytes), '.'))
              == Ok(GroupWords(head) + Zeros(6 - |head| - |tail|) + GroupWords(tail) + Words(bytes))
  {
    if |head| == 6 { MixedWhole(head, bytes); }
    if |head| + |tail| < 6 { MixedHalves(head, tail, bytes); }
  }

  lemma MixedWhole(head: seq<string>, bytes: seq<Byte>)
    requires AreGroups(head) && |head| == 6 && |bytes| == 4
    ensures AddressWords(Ahead(head) + Join(Octets(bytes), '.')) == Ok(GroupWords(head) + Words(bytes))
  {
    var gs := head + ["0", "0"];
    ZeroTail();
    JoinMore(head, ["0", "0"]);
    ReadsWhole(gs);
    assert GroupWords(gs)[..6] == GroupWords(head);
    MixedTail(Ahead(head), bytes, GroupWords(gs));
  }

  lemma MixedHalves(head: seq<string>, tail: seq<string>, bytes: seq<Byte>)
    requires AreGroups(head) && AreGroups(tail) && |head| + |tail| < 6 && |bytes| == 4
    ensures AddressWords(Join(head, ':') + "::" + Ahead(tail) + Join(Octets(bytes), '.'))
            == Ok(GroupWords(head) + Zeros(6 - |head| - |tail|) + GroupWords(tail) + Words(bytes))
  {
    var q, words := Join(head, ':') + "::" + Ahead(tail),
        GroupWords(head) + Zeros(6 - |head| - |tail|) + GroupWords(tail);
    ZeroTail();
    HalvesThen(head, tail, ["0", "0"], "0:0", q, words);
    FirstSix(words);
    MixedTail(q, bytes, words + [0, 0]);
  }

  lemma FirstSix(words: seq<bv16>)
    requires |words| == 6
    ensures (words + [0, 0])[..6] == words
  {
  }

  lemma HalvesThen(head: seq<string>, tail: seq<string>, last: seq<string>, z: string, q: string, words: seq<bv16>)
    requires AreGroups(head) && AreGroups(tail) && |head| + |tail| < 6
    requires AreGroups(last) && |last| == 2 && Join(last, ':') == z && q == Join(head, ':') + "::" + Ahead(tail)
    requires words == GroupWords(head) + Zeros(6 - |head| - |tail|) + GroupWords(tail)
    ensures ParseWords(q + z) == Ok(words + GroupWords(last))
  {
    var n := 6 - |head| - |tail|;
    JoinMore(tail, last);
    GroupsJoined(tail, last);
    Regroup(Join(head, ':'), "::", Ahead(tail), z);
    Regroup(GroupWords(head), Zeros(n), GroupWords(tail), GroupWords(last));
    TextReads(head, tail + last, n, q + z, words + GroupWords(last));
  }

  lemma Regroup<T>(a: seq<T>, b: seq<T>, c: seq<T>, d: seq<T>)
    ensures a + b + c + d == a + b + (c + d)
  {
  }

  lemma GroupsJoined(gs: seq<string>, more: seq<string>)
    requires AreGroups(gs) && AreGroups(more)
    ensures AreGroups(gs + more) && GroupWords(gs + more) == GroupWords(gs) + GroupWords(more)
  {
  }

  lemma TextReads(head: seq<string>, gs: seq<string>, n: nat, t: string, words: seq<bv16>)
    requires AreGroups(head) && AreGroups(gs) && n > 0 && |head| + n + |gs| == 8
    requires t == Join(head, ':') + "::" + Join(gs, ':') && words == GroupWords(head) + Zeros(n) + GroupWords(gs)
    ensures ParseWords(t) == Ok(words)
  {
    ReadsHalves(head, gs, n);
  }

  lemma WordBeyond(high: Byte, low: Byte, m: Byte, n: Byte)
    requires high & m == high && low & n == low
    ensures !HasBeyond(Word(high, low), Word(m, n))
  {
  }

  lemma MaskedAt(bytes: seq<Byte>, prefix: nat, i: nat)
    requires MaskedBytes(bytes, prefix) == bytes && i < |bytes|
    ensures bytes[i] & MaskByte(KeepBits(prefix, i)) == bytes[i]
  {
    assert MaskedBytes(bytes, prefix)[i] == bytes[i];
  }

  predicate IsUnder(b: Byte, mask: Byte) { b & mask == b }

  /** The bytes are under the masks, which make these words. */
  ghost predicate Under(bytes: seq<Byte>, masks: seq<Byte>, words: seq<bv16>) {
    && |masks| == |bytes| && |bytes| == 2 * |words|
    && (forall i :: 0 <= i < |bytes| ==> IsUnder(bytes[i], masks[i]))
    && (forall g :: 0 <= g < |words| ==> words[g] == Word(masks[2 * g], masks[2 * g + 1]))
  }

  lemma NetworkIsUnder(bytes: seq<Byte>, prefix: nat) returns (masks: seq<Byte>)
    requires MaskedBytes(bytes, prefix) == bytes && |bytes| % 2 == 0
    ensures Under(bytes, masks, MaskWords(prefix, |bytes| / 2))
  {
    masks := MaskBytes(prefix, |bytes|);
    forall i | 0 <= i < |bytes|
      ensures bytes[i] & masks[i] == bytes[i]
    {
      MaskedAt(bytes, prefix, i);
    }
    forall g | 0 <= g < |bytes| / 2
      ensures MaskWords(prefix, |bytes| / 2)[g] == Word(masks[2 * g], masks[2 * g + 1])
    {
      MaskWordIs(prefix, g);
    }
  }

  lemma UnderIsWithin(bytes: seq<Byte>, masks: seq<Byte>, words: seq<bv16>)
    requires Under(bytes, masks, words)
    ensures !BitsBeyond(Words(bytes), words)
  {
    forall g | 0 <= g < |words|
      ensures !HasBeyond(Words(bytes)[g], words[g])
    {
      assert IsUnder(bytes[2 * g], masks[2 * g]) && IsUnder(bytes[2 * g + 1], masks[2 * g + 1]);
      WordBeyond(bytes[2 * g], bytes[2 * g + 1], masks[2 * g], masks[2 * g + 1]);
    }
  }

  lemma NoBitsBeyond(bytes: seq<Byte>, prefix: nat)
    requires MaskedBytes(bytes, prefix) == bytes && |bytes| % 2 == 0
    ensures !BitsBeyond(Words(bytes), MaskWords(prefix, |bytes| / 2))
  {
    var masks := NetworkIsUnder(bytes, prefix);
    UnderIsWithin(bytes, masks, MaskWords(prefix, |bytes| / 2));
  }

  lemma WholeTextReads(words: seq<bv16>)
    requires |words| == 8
    ensures ParseAddress(Join(HexGroups(words), ':')) == Ok(Address(V6, BytesOf(words)))
  {
    var gs := HexGroups(words);
    HexReads(words);
    ReadsWhole(gs);
    ReadsAsV6(Join(gs, ':'), words);
  }

  lemma MaskReads(prefix: nat, f: Family)
    ensures var count := if f.V4? then 2 else 8;
            ParseAddress(MaskText(MaskWords(prefix, count))) == Ok(Address(f, MaskBytes(prefix, 2 * count)))
  {
    var count := if f.V4? then 2 else 8;
    MaskWordsAreBytes(prefix, count);
    if f.V4? {
      AddressRoundTrip(Address(V4, MaskBytes(prefix, 4)));
    } else {
      WholeTextReads(MaskWords(prefix, 8));
    }
  }

  /** What the certificate says of a network: its bytes and its mask. */
  function SubtreeOf(c: Cidr): IpSubtree {
    IpSubtree(c.address.bytes, MaskBytes(c.prefix, |c.address.bytes|))
  }

  lemma RangeCertified(c: Cidr)
    requires c.Valid() && c.prefix >= 1
    ensures CertifiedRange(RangeOf(c)) == Ok(SubtreeOf(c))
  {
    WordsReread(c.address);
    NoBitsBeyond(c.address.bytes, c.prefix);
    MaskReads(c.prefix, c.address.family);
    WordsBack(c.address.bytes);
  }

  /** The certificate's range permits exactly the addresses of the network. */
  lemma SubtreeIsContains(c: Cidr, x: Address)
    requires c.Valid() && x.Valid()
    ensures IpInSubtree(x.bytes, SubtreeOf(c)) <==> Contains(c, x)
  {
    var y := c.address.bytes;
    if |x.bytes| == |y| {
      forall i | 0 <= i < |y|
        ensures y[i] & SubtreeOf(c).mask[i] == y[i]
        ensures MaskedBytes(x.bytes, c.prefix)[i] == x.bytes[i] & SubtreeOf(c).mask[i]
      {
        assert MaskedBytes(y, c.prefix)[i] == y[i];
      }
    }
  }
}
