/** The constraints of a new CA (buildConstraints in packages/tls/src/ca/constraints.ts), and what they never cover. */
module NewCa {
  import opened Results
  import opened Text
  import opened Addresses
  import opened Subnets
  import opened Constraints
  import opened Issuing

  datatype BuildError = NotAHostName | SingleLabel | BadSubnet(error: SubnetError)

  predicate Dotted(name: string) { '.' in name }

  /** An extra name that no CA may have: single-label, and neither the host's own nor localhost. */
  predicate TooWide(host: string, name: string) { !Dotted(name) && name != host && name != "localhost" }

  /** The name that an extra puts in the constraints; addresses put none. */
  function ExtraNames(node: Node): Adds {
    (raw: string, d: string) => IsIP(node, Trim(raw)) == 0 && CanonicalName(node, raw) == Ok(d)
  }

  /** An extra that the CA may have. */
  function GoodExtra(node: Node, host: string): string -> bool {
    (raw: string) =>
      IsIP(node, Trim(raw)) != 0 || (CanonicalName(node, raw).Ok? && !TooWide(host, CanonicalName(node, raw).value))
  }

  ghost predicate AllOf(xs: seq<string>, p: string -> bool) { forall i :: 0 <= i < |xs| ==> p(xs[i]) }

  lemma OneMoreOf(xs: seq<string>, i: nat, p: string -> bool)
    requires i < |xs| && AllOf(xs[..i], p)
    ensures if p(xs[i]) then AllOf(xs[..i + 1], p) else !AllOf(xs, p)
  {
    if p(xs[i]) {
      assert forall k :: 0 <= k < i ==> xs[..i + 1][k] == xs[..i][k];
    }
  }

  function Accepted(): Adds {
    (subnet: string, s: string) => CheckSubnet(subnet).Ok? && s == CheckSubnet(subnet).value.Text()
  }

  /** A subnet that the CA may cover. */
  function GoodSubnet(): string -> bool { (subnet: string) => CheckSubnet(subnet).Ok? }

  function Excludes(): Adds {
    (d: string, e: string) => !Dotted(d) && e == "." + d
  }

  function OwnNames(host: string): seq<string> { [host, host + ".local", "localhost"] }

  ghost predicate Built(node: Node, host: string, names: seq<string>, subnets: seq<string>, exclude: bool,
                        c: Constraints) {
    && Lists(c.dns, OwnNames(host), names, ExtraNames(node))
    && AllOf(names, GoodExtra(node, host))
    && Lists(c.excludedDns, [], if exclude then c.dns else [], Excludes())
    && Lists(c.subnets, [], subnets, Accepted())
    && Distinct(c.dns) && Distinct(c.excludedDns) && Distinct(c.subnets)
  }

  /** The exclusion of each single-label name. */
  method BelowSingleLabels(dns: seq<string>) returns (excluded: seq<string>)
    requires Distinct(dns)
    ensures Lists(excluded, [], dns, Excludes()) && Distinct(excluded)
  {
    excluded := [];
    for i := 0 to |dns|
      invariant Lists(excluded, [], dns[..i], Excludes()) && Distinct(excluded)
    {
      if !Dotted(dns[i]) { NotYetExcluded(excluded, dns, i); }
      var next := if !Dotted(dns[i]) then excluded + ["." + dns[i]] else excluded;
      OneMore(excluded, [], next, dns, i, Excludes());
      excluded := next;
    }
    assert dns[..|dns|] == dns;
  }

  lemma NotYetExcluded(excluded: seq<string>, dns: seq<string>, i: nat)
    requires i < |dns| && Distinct(dns) && Lists(excluded, [], dns[..i], Excludes())
    ensures "." + dns[i] !in excluded
  {
    forall k | 0 <= k < i
      ensures "." + dns[k] != "." + dns[i]
    {
      assert ("." + dns[k])[1..] == dns[k] && ("." + dns[i])[1..] == dns[i];
    }
  }

  method AcceptSubnet(subnets: seq<string>, text: string) returns (r: Result<seq<string>, SubnetError>)
    requires Distinct(subnets)
    ensures r.Ok? ==> Extends(r.value, subnets, text, Accepted()) && GoodSubnet()(text) && Distinct(r.value)
    ensures r.Err? ==> !GoodSubnet()(text) && CheckSubnet(text) == Err(r.error)
  {
    var checked := CheckSubnet(text);
    if checked.Err? { return Err(checked.error); }
    var canonical := checked.value.Text();
    r := Ok(if canonical in subnets then subnets else subnets + [canonical]);
  }

  method AcceptSubnets(texts: seq<string>) returns (r: Result<seq<string>, SubnetError>)
    ensures r.Ok? ==> Lists(r.value, [], texts, Accepted()) && AllOf(texts, GoodSubnet()) && Distinct(r.value)
    ensures r.Err? ==>
              !AllOf(texts, GoodSubnet())
              && exists i :: 0 <= i < |texts| && CheckSubnet(texts[i]) == Err(r.error)
  {
    var subnets: seq<string> := [];
    for i := 0 to |texts|
      invariant Lists(subnets, [], texts[..i], Accepted()) && AllOf(texts[..i], GoodSubnet()) && Distinct(subnets)
    {
      var next := AcceptSubnet(subnets, texts[i]);
      OneMoreOf(texts, i, GoodSubnet());
      if next.Err? { return next; }
      OneMore(subnets, [], next.value, texts, i, Accepted());
      subnets := next.value;
    }
    assert texts[..|texts|] == texts;
    r := Ok(subnets);
  }

  /** Each name once. */
  method UniqueNames(names: seq<string>) returns (r: seq<string>)
    ensures (forall n :: n in r <==> n in names) && Distinct(r)
  {
    r := [];
    for i := 0 to |names|
      invariant (forall n :: n in r <==> n in names[..i]) && Distinct(r)
    {
      if names[i] !in r { r := r + [names[i]]; }
    }
  }

  /** Passes over an address, refuses a bad or too wide name, and adds another once. */
  method AddOnce(host: string, dns: seq<string>, isIP: nat, name: Result<string, ()>)
      returns (r: Result<seq<string>, BuildError>)
    requires Distinct(dns)
    ensures r.Ok? ==> Distinct(r.value)
    ensures r.Ok? ==> forall d :: d in r.value <==> d in dns || (isIP == 0 && name == Ok(d))
    ensures r.Ok? <==> isIP != 0 || (name.Ok? && !TooWide(host, name.value))
    ensures r.Err? ==> !r.error.BadSubnet?
  {
    if isIP != 0 { return Ok(dns); }
    if name.Err? { return Err(NotAHostName); }
    if TooWide(host, name.value) { return Err(SingleLabel); }
    r := Ok(if name.value in dns then dns else dns + [name.value]);
  }

  lemma ExtraMeans(node: Node, raw: string, isIP: nat, name: Result<string, ()>, dns: seq<string>, next: seq<string>)
    requires isIP == IsIP(node, Trim(raw)) && name == CanonicalName(node, raw)
    requires forall d :: d in next <==> d in dns || (isIP == 0 && name == Ok(d))
    ensures Extends(next, dns, raw, ExtraNames(node))
  {
  }

  lemma GoodMeans(node: Node, host: string, raw: string, isIP: nat, name: Result<string, ()>)
    requires isIP == IsIP(node, Trim(raw)) && name == CanonicalName(node, raw)
    ensures GoodExtra(node, host)(raw) <==> isIP != 0 || (name.Ok? && !TooWide(host, name.value))
  {
  }

  method AddExtra(node: Node, host: string, dns: seq<string>, raw: string) returns (r: Result<seq<string>, BuildError>)
    requires Distinct(dns)
    ensures r.Ok? ==> Extends(r.value, dns, raw, ExtraNames(node)) && Distinct(r.value)
    ensures r.Ok? <==> GoodExtra(node, host)(raw)
    ensures r.Err? ==> !r.error.BadSubnet?
  {
    var isIP, name := IsIP(node, Trim(raw)), CanonicalName(node, raw);
    r := AddOnce(host, dns, isIP, name);
    GoodMeans(node, host, raw, isIP, name);
    if r.Ok? { ExtraMeans(node, raw, isIP, name, dns, r.value); }
  }

  method AddExtras(node: Node, host: string, names: seq<string>) returns (r: Result<seq<string>, BuildError>)
    ensures r.Ok? ==> Lists(r.value, OwnNames(host), names, ExtraNames(node)) && Distinct(r.value)
    ensures r.Ok? ==> AllOf(names, GoodExtra(node, host))
    ensures r.Err? ==> !r.error.BadSubnet? && !AllOf(names, GoodExtra(node, host))
  {
    var dns := UniqueNames(OwnNames(host));
    for i := 0 to |names|
      invariant Lists(dns, OwnNames(host), names[..i], ExtraNames(node)) && Distinct(dns)
      invariant AllOf(names[..i], GoodExtra(node, host))
    {
      var next := AddExtra(node, host, dns, names[i]);
      OneMoreOf(names, i, GoodExtra(node, host));
      if next.Err? { return next; }
      OneMore(dns, OwnNames(host), next.value, names, i, ExtraNames(node));
      dns := next.value;
    }
    assert names[..|names|] == names;
    r := Ok(dns);
  }

  /** The constraints, or what is wrong with the host, a name or a subnet. */
  method BuildConstraints(node: Node, hostname: string, names: seq<string>, subnets: seq<string>, exclude: bool)
    returns (r: Result<Constraints, BuildError>)
    ensures r.Ok? <==>
              CanonicalName(node, hostname).Ok?
              && AllOf(names, GoodExtra(node, CanonicalName(node, hostname).value))
              && AllOf(subnets, GoodSubnet())
    ensures r.Ok? ==> Built(node, CanonicalName(node, hostname).value, names, subnets, exclude, r.value)
    ensures r.Err? ==>
              match r.error
              case BadSubnet(e) => exists i :: 0 <= i < |subnets| && CheckSubnet(subnets[i]) == Err(e)
              case _ =>
                || CanonicalName(node, hostname).Err?
                || !AllOf(names, GoodExtra(node, CanonicalName(node, hostname).value))
  {
    var host := CanonicalName(node, hostname);
    if host.Err? { return Err(NotAHostName); }
    var dns := AddExtras(node, host.value, names);
    if dns.Err? { return Err(dns.error); }
    var accepted := AcceptSubnets(subnets);
    if accepted.Err? { return Err(BadSubnet(accepted.error)); }
    var excluded := BelowSingleLabels(if exclude then dns.value else []);
    r := Ok(Constraints(dns.value, excluded, accepted.value));
  }

  /** An extra is accepted exactly when it is an address, a dotted host name, the host's own or localhost. */
  lemma ExtrasExactly(node: Node, host: string, raw: string)
    ensures GoodExtra(node, host)(raw) <==>
            IsIP(node, Trim(raw)) != 0
            || exists n :: CanonicalName(node, raw) == Ok(n) && ('.' in n || n == host || n == "localhost")
  {
    var name := CanonicalName(node, raw);
    GoodMeans(node, host, raw, IsIP(node, Trim(raw)), name);
  }

  // ---- canonical? ----------------------------------------------------------------------------------

  lemma {:induction false} SplitLast(s: string, b: string, at: char)
    requires at !in b
    ensures Split(s + [at] + b, at) == Split(s, at) + [b]
  {
    var t := s + [at] + b;
    if s == "" {
      SplitOff("", b, at);
      SplitOff(b, "", at);
    } else {
      SplitLast(s[1..], b, at);
      assert t[1..] == s[1..] + [at] + b;
    }
  }

  lemma LocalIsLabel()
    ensures IsLabel("local") && '.' !in "local" && !AllDigits("local", 10)
  {
    assert !IsDigit("local"[0], 10);
  }

  /** The pair `<host>.local` is a host name exactly when it is not too long. */
  lemma LocalName(node: Node, host: string)
    requires HostName(node, host)
    ensures HostName(node, host + ".local") <==> |host| <= 247
  {
    var t := host + ".local";
    LocalIsLabel();
    SplitLast(host, "local", '.');
    assert t == host + ['.'] + "local";
    if |host| <= 247 {
      LocalIsNoAddress(node, t, Split(host, '.'));
    }
  }

  lemma LocalIsNoAddress(node: Node, t: string, parts: seq<string>)
    requires DnsName(t) && Split(t, '.') == parts + ["local"]
    ensures IsIP(node, t) == 0
  {
    LocalIsLabel();
    NotDotted(t, parts, "local");
    NameShape(t);
    JoinSplit(t, '.');
    EndsInLocal(parts);
    NotHex(t, |t| - 5);
    NoColonNoAddress(node, t);
  }

  lemma NotDotted(t: string, parts: seq<string>, last: string)
    requires Split(t, '.') == parts + [last] && !AllDigits(last, 10)
    ensures !StrictDotted(t)
  {
    if |parts| == 3 { assert Split(t, '.')[3] == last; }
  }

  lemma NotHex(t: string, i: nat)
    requires i < |t| && t[i] == 'l'
    ensures ParseWords(Lower(t)).Err?
  {
    assert Lower(t)[i] == 'l' && !IsHexOrColon('l');
  }

  lemma {:induction false} EndsInLocal(parts: seq<string>)
    ensures var s := Join(parts + ["local"], '.'); |s| >= 5 && s[|s| - 5] == 'l'
  {
    if |parts| > 0 {
      EndsInLocal(parts[1..]);
      assert (parts + ["local"])[1..] == parts[1..] + ["local"];
    }
  }

  /** A single label with a letter past f is no address. */
  lemma LabelIsHost(node: Node, t: string)
    requires IsLabel(t) && '.' !in t && t[0] == 'l'
    ensures HostName(node, t)
  {
    SplitOff(t, "", '.');
    assert ':' !in t;
    NotHex(t, 0);
    NoColonNoAddress(node, t);
  }

  lemma LocalhostIsHost(node: Node)
    ensures HostName(node, "localhost")
  {
    LocalhostIsLabel();
    LabelIsHost(node, "localhost");
  }

  lemma LocalhostIsLabel()
    ensures IsLabel("localhost") && '.' !in "localhost"
  {
  }

  lemma SubnetTextIsCanonical(subnet: string)
    requires CheckSubnet(subnet).Ok?
    ensures CanonicalSubnet(CheckSubnet(subnet).value.Text())
  {
    CidrRoundTrip(CheckSubnet(subnet).value);
  }

  lemma OwnNamesAreHosts(node: Node, host: string)
    requires HostName(node, host) && |host| <= 247
    ensures forall i :: 0 <= i < 3 ==> HostName(node, OwnNames(host)[i])
  {
    LocalName(node, host);
    LocalhostIsHost(node);
  }

  lemma BuiltNames(node: Node, own: seq<string>, names: seq<string>, c: Constraints)
    requires (forall i :: 0 <= i < |own| ==> HostName(node, own[i])) && Lists(c.dns, own, names, ExtraNames(node))
    ensures forall d :: d in c.dns ==> HostName(node, d)
  {
    forall d | d in c.dns
      ensures HostName(node, d)
    {
      if Among(names, ExtraNames(node), d) { ExtraIsHost(node, names, d); }
    }
  }

  lemma ExtraIsHost(node: Node, names: seq<string>, d: string)
    requires Among(names, ExtraNames(node), d)
    ensures HostName(node, d)
  {
  }

  lemma BuiltExclusions(node: Node, from: seq<string>, c: Constraints)
    requires (forall d :: d in from ==> HostName(node, d)) && Lists(c.excludedDns, [], from, Excludes())
    ensures forall i :: 0 <= i < |c.excludedDns| ==> CanonicalExclusion(node, c.excludedDns[i])
  {
    forall i | 0 <= i < |c.excludedDns|
      ensures CanonicalExclusion(node, c.excludedDns[i])
    {
      assert Among(from, Excludes(), c.excludedDns[i]);
      var k :| 0 <= k < |from| && Excludes()(from[k], c.excludedDns[i]);
      assert c.excludedDns[i][1..] == from[k];
      CanonicalAgain(node, from[k]);
    }
  }

  lemma BuiltSubnets(subnets: seq<string>, c: Constraints)
    requires Lists(c.subnets, [], subnets, Accepted())
    ensures forall i :: 0 <= i < |c.subnets| ==> CanonicalSubnet(c.subnets[i])
  {
    forall i | 0 <= i < |c.subnets|
      ensures CanonicalSubnet(c.subnets[i])
    {
      assert Among(subnets, Accepted(), c.subnets[i]);
      var k :| 0 <= k < |subnets| && Accepted()(subnets[k], c.subnets[i]);
      SubnetTextIsCanonical(subnets[k]);
    }
  }

  lemma CanonicalNames(node: Node, dns: seq<string>)
    requires forall d :: d in dns ==> HostName(node, d)
    ensures forall i :: 0 <= i < |dns| ==> CanonicalName(node, dns[i]) == Ok(dns[i])
  {
    forall i | 0 <= i < |dns|
      ensures CanonicalName(node, dns[i]) == Ok(dns[i])
    {
      CanonicalAgain(node, dns[i]);
    }
  }

  /** New constraints read back as canonical exactly when the host leaves room for its `.local` pair. */
  lemma BuiltIsCanonical(node: Node, host: string, names: seq<string>, subnets: seq<string>, exclude: bool,
                         c: Constraints)
    requires HostName(node, host) && Built(node, host, names, subnets, exclude, c)
    ensures Canonical(node, c) <==> |host| <= 247
  {
    HasOwnNames(node, host, names, c);
    if |host| <= 247 {
      OwnNamesAreHosts(node, host);
      BuiltNames(node, OwnNames(host), names, c);
      CanonicalNames(node, c.dns);
      BuiltExclusions(node, if exclude then c.dns else [], c);
      BuiltSubnets(subnets, c);
    } else {
      TooLongIsNot(node, host, c);
    }
  }

  lemma HasOwnNames(node: Node, host: string, names: seq<string>, c: Constraints)
    requires Lists(c.dns, OwnNames(host), names, ExtraNames(node))
    ensures host in c.dns && host + ".local" in c.dns
  {
    assert OwnNames(host)[0] == host && OwnNames(host)[1] == host + ".local";
  }

  lemma TooLongIsNot(node: Node, host: string, c: Constraints)
    requires HostName(node, host) && |host| > 247 && host + ".local" in c.dns
    ensures !Canonical(node, c)
  {
    LocalName(node, host);
    CanonicalAgain(node, host + ".local");
  }

  // ---- a host without room ----------------------------------------------------------------------------

  /** A label of `n` letters. */
  function Letters(n: nat): string { seq(n, _ => 'l') }

  lemma LettersAreLabel(n: nat)
    requires 1 <= n <= 63
    ensures IsLabel(Letters(n)) && '.' !in Letters(n) && !AllDigits(Letters(n), 10)
  {
    assert !IsDigit(Letters(n)[0], 10);
  }

  /** Three labels of 63 letters and one of the rest. */
  function LongHost(n: nat): string
    requires 193 <= n
  {
    Join([Letters(63), Letters(63), Letters(63), Letters(n - 192)], '.')
  }

  /** There are host names of every length up to 253. */
  lemma LongHostIsHost(node: Node, n: nat)
    requires 193 <= n <= 253
    ensures HostName(node, LongHost(n)) && |LongHost(n)| == n
  {
    var a, b := Letters(63), Letters(n - 192);
    var t := LongHost(n);
    LettersAreLabel(63);
    LettersAreLabel(n - 192);
    SplitJoin([a, a, a, b], '.');
    FourLabels(a, b);
    NameShape(t);
    NotDotted(t, [a, a, a], b);
    NotHex(t, 0);
    NoColonNoAddress(node, t);
  }

  lemma FourLabels(a: string, b: string)
    requires a != ""
    ensures var t := Join([a, a, a, b], '.'); |t| == 3 * |a| + |b| + 3 && t[0] == a[0]
  {
    assert [a, b][1..] == [b] && Join([b], '.') == b;
    assert [a, a, b][1..] == [a, b] && Join([a, b], '.') == a + ['.'] + b;
    assert [a, a, a, b][1..] == [a, a, b] && Join([a, a, b], '.') == a + ['.'] + Join([a, b], '.');
  }

  /** For a host name of 248 to 253 characters there are new constraints that do not read back. */
  lemma LongHostsDoNotReadBack(node: Node, n: nat, c: Constraints)
    requires 248 <= n <= 253
    requires c == Constraints([LongHost(n), LongHost(n) + ".local", "localhost"], [], [])
    ensures HostName(node, LongHost(n)) && Built(node, LongHost(n), [], [], false, c) && !Canonical(node, c)
  {
    var host := LongHost(n);
    LongHostIsHost(node, n);
    OwnNamesDiffer(host);
    BuiltIsCanonical(node, host, [], [], false, c);
  }

  lemma OwnNamesDiffer(host: string)
    requires |host| > 9
    ensures Distinct(OwnNames(host))
  {
    assert |OwnNames(host)[1]| == |host| + 6;
  }

  // ---- what a new CA never covers --------------------------------------------------------------------

  lemma OwnExtra(node: Node, host: string, names: seq<string>, d: string)
    requires Among(names, ExtraNames(node), d) && !Dotted(d)
    requires AllOf(names, GoodExtra(node, host))
    ensures d == host || d == "localhost"
  {
    var k :| 0 <= k < |names| && ExtraNames(node)(names[k], d);
    assert GoodExtra(node, host)(names[k]);
  }

  lemma LocalIsDotted(host: string)
    ensures Dotted(host + ".local")
  {
    assert (host + ".local")[|host|] == '.';
  }

  /** The single-label names of a new CA are the host's own and localhost. */
  lemma OnlyOwnSingleLabels(node: Node, host: string, names: seq<string>, c: Constraints, d: string)
    requires Lists(c.dns, OwnNames(host), names, ExtraNames(node)) && d in c.dns && !Dotted(d)
    requires AllOf(names, GoodExtra(node, host))
    ensures d == host || d == "localhost"
  {
    if Among(names, ExtraNames(node), d) { OwnExtra(node, host, names, d); } else { OwnSingle(host, d); }
  }

  lemma OwnSingle(host: string, d: string)
    requires d in OwnNames(host) && !Dotted(d)
    ensures d == host || d == "localhost"
  {
    LocalIsDotted(host);
  }

  lemma SingleLabelExcluded(c: Constraints, d: string)
    requires Lists(c.excludedDns, [], c.dns, Excludes()) && d in c.dns && !Dotted(d)
    ensures "." + d in c.excludedDns
  {
    var i :| 0 <= i < |c.dns| && c.dns[i] == d;
    assert Excludes()(c.dns[i], "." + d);
    assert Among(c.dns, Excludes(), "." + d);
  }

  /**
   A CA with exclusions covers no name below a single-label one: a host called "io" cannot vouch for
   evil.io. What it covers is the host, localhost, one of its dotted names or a name below one.
   */
  lemma NeverBelowSingleLabels(node: Node, host: string, names: seq<string>, subnets: seq<string>, c: Constraints,
                               n: string)
    requires Built(node, host, names, subnets, true, c) && Lower(n) == n && CoversName(c, n)
    ensures forall d :: d in c.dns && !Dotted(d) ==> !EndsWith(n, "." + d)
    ensures n == host || n == "localhost" || exists d :: d in c.dns && Dotted(d) && (n == d || EndsWith(n, "." + d))
  {
    forall d | d in c.dns && !Dotted(d)
      ensures !EndsWith(n, "." + d)
    {
      SingleLabelExcluded(c, d);
    }
    var i :| 0 <= i < |c.dns| && (n == c.dns[i] || EndsWith(n, "." + c.dns[i]));
    var d := c.dns[i];
    if !Dotted(d) { OnlyOwnSingleLabels(node, host, names, c, d); }
  }

  // ---- a new CA and its own host ---------------------------------------------------------------------

  /** The exclusions are those of localhost and of a single-label host, if there are any. */
  ghost predicate ExcludesOwn(c: Constraints, host: string, exclude: bool) {
    && (forall e :: e in c.excludedDns ==> exclude && (e == ".localhost" || (e == "." + host && !Dotted(host))))
    && (exclude ==> ".localhost" in c.excludedDns && (!Dotted(host) ==> "." + host in c.excludedDns))
  }

  lemma ExcludedFrom(dns: seq<string>, excluded: seq<string>, e: string) returns (d: string)
    requires Lists(excluded, [], dns, Excludes()) && e in excluded
    ensures d in dns && !Dotted(d) && e == "." + d
  {
    assert Among(dns, Excludes(), e);
    var i :| 0 <= i < |dns| && Excludes()(dns[i], e);
    d := dns[i];
  }

  lemma ExcludedOwn(node: Node, host: string, names: seq<string>, c: Constraints)
    requires Lists(c.dns, OwnNames(host), names, ExtraNames(node)) && AllOf(names, GoodExtra(node, host))
    requires Lists(c.excludedDns, [], c.dns, Excludes()) && host in c.dns && "localhost" in c.dns
    ensures ExcludesOwn(c, host, true)
  {
    forall e | e in c.excludedDns
      ensures e == ".localhost" || (e == "." + host && !Dotted(host))
    {
      OnlyOwnExcluded(node, host, names, c, e);
    }
    LocalhostIsLabel();
    DotLocalhost();
    SingleLabelExcluded(c, "localhost");
    if !Dotted(host) { SingleLabelExcluded(c, host); }
  }

  lemma DotLocalhost()
    ensures "." + "localhost" == ".localhost"
  {
  }

  lemma OnlyOwnExcluded(node: Node, host: string, names: seq<string>, c: Constraints, e: string)
    requires Lists(c.dns, OwnNames(host), names, ExtraNames(node)) && AllOf(names, GoodExtra(node, host))
    requires Lists(c.excludedDns, [], c.dns, Excludes()) && e in c.excludedDns
    ensures e == ".localhost" || (e == "." + host && !Dotted(host))
  {
    var d := ExcludedFrom(c.dns, c.excludedDns, e);
    OnlyOwnSingleLabels(node, host, names, c, d);
    if d != host { DotLocalhost(); }
  }

  lemma BuiltExcludesOwn(node: Node, host: string, names: seq<string>, subnets: seq<string>, exclude: bool,
                         c: Constraints)
    requires Built(node, host, names, subnets, exclude, c)
    ensures host in c.dns && host + ".local" in c.dns && "localhost" in c.dns && ExcludesOwn(c, host, exclude)
  {
    HasOwnNames(node, host, names, c);
    HasLocalhost(node, host, names, c);
    if exclude {
      ExcludedOwn(node, host, names, c);
    } else {
      NoneExcluded(c.excludedDns);
    }
  }

  lemma HasLocalhost(node: Node, host: string, names: seq<string>, c: Constraints)
    requires Lists(c.dns, OwnNames(host), names, ExtraNames(node))
    ensures "localhost" in c.dns
  {
    assert OwnNames(host)[2] == "localhost";
  }

  lemma NoneExcluded(excluded: seq<string>)
    requires Lists(excluded, [], [], Excludes())
    ensures forall e :: e !in excluded
  {
    assert forall e :: !Among([], Excludes(), e);
  }

  lemma NotBelowItself(host: string)
    ensures !EndsWith(host, "." + host)
  {
  }

  /** A name ending in "local" is not below localhost, and is below its own host only if that is called "local". */
  lemma PairBelow(host: string, pair: string, tail: string)
    requires pair == host + ".local" && tail == "." + host
    ensures !EndsWith(pair, ".localhost")
    ensures !Dotted(host) ==> (EndsWith(pair, tail) <==> host == "local")
  {
    if EndsWith(pair, ".localhost") { SameEnd(pair, ".localhost"); }
    if !Dotted(host) && EndsWith(pair, tail) { BelowItself(host, pair, tail); }
  }

  lemma BelowItself(host: string, pair: string, tail: string)
    requires pair == host + ".local" && tail == "." + host && '.' !in host && EndsWith(pair, tail)
    ensures host == "local"
  {
    var end := ".local";
    assert forall i :: 0 <= i < |host| ==> pair[i] == host[i] != '.';
    assert forall i :: 0 <= i < 6 ==> pair[|host| + i] == end[i];
    assert pair[5..] == tail;
    assert pair[5] == tail[0] == '.';
    assert |host| == 5;
    forall j | 0 <= j < 5
      ensures host[j] == "local"[j]
    {
      assert host[j] == tail[j + 1] == pair[j + 6] == end[j + 1];
    }
  }

  lemma SameEnd(s: string, end: string)
    requires EndsWith(s, end) && |end| >= 1
    ensures s[|s| - 1] == end[|end| - 1]
  {
    assert s[|s| - |end|..][|end| - 1] == s[|s| - 1];
  }

  lemma LocalhostStandsAlone(e: string)
    requires e != "" && e[0] == '.'
    ensures !EndsWith("localhost", e)
  {
    LocalhostIsLabel();
  }

  lemma Covered(c: Constraints, n: string)
    requires n in c.dns && Lower(n) == n
    ensures CoversName(c, n) <==> forall e :: e in c.excludedDns ==> !EndsWith(n, e)
  {
  }

  lemma HostCovered(node: Node, c: Constraints, host: string, exclude: bool)
    requires HostName(node, host) && host in c.dns && ExcludesOwn(c, host, exclude)
    ensures CoversName(c, host) <==> !(exclude && EndsWith(host, ".localhost"))
  {
    NameStays(host);
    NotBelowItself(host);
    Covered(c, host);
  }

  lemma LocalhostCovered(node: Node, c: Constraints, host: string, exclude: bool)
    requires "localhost" in c.dns && ExcludesOwn(c, host, exclude)
    ensures CoversName(c, "localhost")
  {
    LocalhostIsHost(node);
    NameStays("localhost");
    forall e | e in c.excludedDns
      ensures !EndsWith("localhost", e)
    {
      LocalhostStandsAlone(e);
    }
    Covered(c, "localhost");
  }

  lemma PairCovered(node: Node, c: Constraints, host: string, pair: string, exclude: bool)
    requires HostName(node, pair) && pair == host + ".local" && pair in c.dns && ExcludesOwn(c, host, exclude)
    ensures CoversName(c, pair) <==> !(exclude && host == "local")
  {
    NameStays(pair);
    PairBelow(host, pair, "." + host);
    LocalhostIsLabel();
    Covered(c, pair);
    LocalIsLabel();
  }

  /** What the leaf names of its host, in terms of what the CA covers. */
  lemma LeafNamesCovered(node: Node, c: Constraints, host: string, more: seq<string>, addresses: seq<string>,
                         leaf: Leaf, n: string)
    requires IsLeaf(node, c, Candidates(c, host, more), addresses, leaf) && Asked(c, host, more, n)
    ensures n in leaf.dns <==> HostName(node, n) && CoversName(c, n)
  {
    var raws := Candidates(c, host, more);
    AskedIsCandidate(c, host, more, n);
    if HostName(node, n) {
      NamedIfCovered(node, c, raws, n);
    } else {
      LeafIsGood(node, c, raws, addresses, leaf);
      NotAHost(node, c, leaf, n);
    }
  }

  /**
   The leaf that a new CA gives its own host names the host, its `.local` pair and localhost, with loopback; but with
   exclusions not a host below localhost nor the pair of one called "local", and never a pair that is too long.
   */
  lemma LeafOfItsHost(node: Node, host: string, names: seq<string>, subnets: seq<string>, exclude: bool,
                      c: Constraints, more: seq<string>, addresses: seq<string>, leaf: Leaf)
    requires HostName(node, host) && Built(node, host, names, subnets, exclude, c)
    requires IsLeaf(node, c, Candidates(c, host, more), addresses, leaf)
    ensures "localhost" in leaf.dns && "127.0.0.1" in leaf.ip && "::1" in leaf.ip
    ensures host in leaf.dns <==> !(exclude && EndsWith(host, ".localhost"))
    ensures host + ".local" in leaf.dns <==> |host| <= 247 && !(exclude && host == "local")
  {
    var pair := host + ".local";
    BuiltExcludesOwn(node, host, names, subnets, exclude, c);
    OwnInLeaf(node, host, exclude, c, more, addresses, leaf);
    PairInLeaf(node, host, pair, exclude, c, more, addresses, leaf);
    LoopbackInLeaf(node, c, Candidates(c, host, more), addresses, leaf);
  }

  lemma LoopbackInLeaf(node: Node, c: Constraints, raws: seq<string>, addresses: seq<string>, leaf: Leaf)
    requires IsLeaf(node, c, raws, addresses, leaf)
    ensures "127.0.0.1" in leaf.ip && "::1" in leaf.ip
  {
    assert LOOPBACK[0] == "127.0.0.1" && LOOPBACK[1] == "::1";
  }

  lemma OwnInLeaf(node: Node, host: string, exclude: bool, c: Constraints, more: seq<string>, addresses: seq<string>,
                  leaf: Leaf)
    requires HostName(node, host) && host in c.dns && "localhost" in c.dns && ExcludesOwn(c, host, exclude)
    requires IsLeaf(node, c, Candidates(c, host, more), addresses, leaf)
    ensures "localhost" in leaf.dns && (host in leaf.dns <==> !(exclude && EndsWith(host, ".localhost")))
  {
    LocalhostIsHost(node);
    LocalhostCovered(node, c, host, exclude);
    HostCovered(node, c, host, exclude);
    LeafNamesCovered(node, c, host, more, addresses, leaf, host);
    LeafNamesCovered(node, c, host, more, addresses, leaf, "localhost");
  }

  lemma PairInLeaf(node: Node, host: string, pair: string, exclude: bool, c: Constraints, more: seq<string>,
                   addresses: seq<string>, leaf: Leaf)
    requires HostName(node, host) && pair == host + ".local" && pair in c.dns && ExcludesOwn(c, host, exclude)
    requires IsLeaf(node, c, Candidates(c, host, more), addresses, leaf)
    ensures pair in leaf.dns <==> |host| <= 247 && !(exclude && host == "local")
  {
    LocalName(node, host);
    if |host| <= 247 { PairCovered(node, c, host, pair, exclude); }
    LeafNamesCovered(node, c, host, more, addresses, leaf, pair);
  }

  lemma NotAHost(node: Node, c: Constraints, leaf: Leaf, n: string)
    requires (forall i :: 0 <= i < |leaf.dns| ==> GoodName(node, c, leaf.dns[i])) && !HostName(node, n)
    ensures n !in leaf.dns
  {
  }
}
