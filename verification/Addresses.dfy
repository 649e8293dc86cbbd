/** IPv4 and IPv6 addresses as bytes and as text (packages/tls/src/ca/constraints.ts). */
module Addresses {
  import opened Results
  import opened Text

  type Byte = bv8

  datatype Family = V4 | V6

  datatype Address = Address(family: Family, bytes: seq<Byte>)
  {
    predicate Valid() { |bytes| == if family.V4? then 4 else 16 }
  }

  datatype AddressError = NotIPv4 | NotAnAddress

  // ---- groups of sixteen bits ------------------------------------------------------------------

  function Word(high: Byte, low: Byte): bv16 { ((high as bv16) << 8) | (low as bv16) }

  function HighByte(w: bv16): Byte { (w >> 8) as Byte }

  function LowByte(w: bv16): Byte { (w & 0xff) as Byte }

  lemma WordBytes(high: Byte, low: Byte)
    ensures HighByte(Word(high, low)) == high && LowByte(Word(high, low)) == low
  {
  }

  lemma WordNumber(w: bv16)
    ensures 0 <= w as int < 0x1_0000 && (w as int) as bv16 == w
  {
  }

  lemma ByteNumber(b: Byte)
    ensures 0 <= b as int < 256 && (b as int) as Byte == b
  {
  }

  function Words(bytes: seq<Byte>): (words: seq<bv16>)
    ensures |words| == |bytes| / 2
  {
    seq(|bytes| / 2, i requires 0 <= i < |bytes| / 2 => Word(bytes[2 * i], bytes[2 * i + 1]))
  }

  function BytesOf(words: seq<bv16>): (bytes: seq<Byte>)
    ensures |bytes| == 2 * |words|
  {
    seq(2 * |words|, i requires 0 <= i < 2 * |words| =>
      if i % 2 == 0 then HighByte(words[i / 2]) else LowByte(words[i / 2]))
  }

  lemma WordsBack(bytes: seq<Byte>)
    requires |bytes| % 2 == 0
    ensures BytesOf(Words(bytes)) == bytes
  {
    forall i | 0 <= i < |bytes|
      ensures BytesOf(Words(bytes))[i] == bytes[i]
    {
      WordBytes(bytes[i / 2 * 2], bytes[i / 2 * 2 + 1]);
    }
  }

  // ---- reading ---------------------------------------------------------------------------------

  predicate IsHexOrColon(c: char) { IsDigit(c, 16) || c == ':' }

  /** text.split('::') */
  function SplitDouble(s: string): (parts: seq<string>)
    ensures |parts| >= 1
  {
    if |s| >= 2 && s[0] == ':' && s[1] == ':' then [""] + SplitDouble(s[2..])
    else if s == "" then [""]
    else
      var rest := SplitDouble(s[1..]);
      [[s[0]] + rest[0]] + rest[1..]
  }

  function Groups(part: string): seq<string> {
    if part == "" then [] else Split(part, ':')
  }

  predicate IsGroup(g: string) { 1 <= |g| <= 4 && AllDigits(g, 16) }

  predicate AreGroups(gs: seq<string>) { forall i :: 0 <= i < |gs| ==> IsGroup(gs[i]) }

  function GroupWord(g: string): bv16
    requires IsGroup(g)
  {
    ValueBelow(g, 16);
    PowersOfSixteen();
    PowerGrows(|g|, 4);
    Value(g, 16) as bv16
  }

  lemma PowersOfSixteen()
    ensures Power(16, 1) == 16 && Power(16, 2) == 256 && Power(16, 3) == 4096 && Power(16, 4) == 0x1_0000
  {
  }

  lemma PowerGrows(k: nat, n: nat)
    requires k <= n
    ensures Power(16, k) <= Power(16, n)
  {
  }

  function GroupWords(gs: seq<string>): (words: seq<bv16>)
    requires AreGroups(gs)
    ensures |words| == |gs|
  {
    seq(|gs|, i requires 0 <= i < |gs| => GroupWord(gs[i]))
  }

  function Zeros(n: nat): (words: seq<bv16>)
    ensures |words| == n && forall i :: 0 <= i < n ==> words[i] == 0
  {
    seq(n, i => 0)
  }

  /** Eight words from what stands before and after a "::", or nothing. */
  function FromHalves(halves: seq<string>): (r: Result<seq<bv16>, AddressError>)
    requires |halves| >= 1
    ensures r.Ok? ==> |r.value| == 8
  {
    var head := Groups(halves[0]);
    var tail := if |halves| == 2 then Groups(halves[1]) else [];
    var missing := 8 - |head| - |tail|;
    if |halves| > 2 || !AreGroups(head) || !AreGroups(tail) then Err(NotAnAddress)
    else if (if |halves| == 2 then missing < 1 else missing != 0) then Err(NotAnAddress)
    else Ok(GroupWords(head) + Zeros(missing) + GroupWords(tail))
  }

  predicate HexText(t: string) { t != "" && forall i :: 0 <= i < |t| ==> IsHexOrColon(t[i]) }

  function ParseWords(t: string): (r: Result<seq<bv16>, AddressError>)
    ensures r.Ok? ==> |r.value| == 8
  {
    if HexText(t) then FromHalves(SplitDouble(t)) else Err(NotAnAddress)
  }

  /** Four runs of one to three digits. */
  predicate LooksDotted(t: string) {
    var parts := Split(t, '.');
    |parts| == 4 && forall i :: 0 <= i < 4 ==> 1 <= |parts[i]| <= 3 && AllDigits(parts[i], 10)
  }

  predicate IsOctet(part: string)
    requires AllDigits(part, 10)
  {
    Value(part, 10) <= 255 && !(|part| > 1 && part[0] == '0')
  }

  function ParseAddress(text: string): (r: Result<Address, AddressError>)
    ensures r.Ok? ==> r.value.Valid()
  {
    var t := Lower(Trim(text));
    if LooksDotted(t) then
      var parts := Split(t, '.');
      if forall i :: 0 <= i < 4 ==> IsOctet(parts[i])
      then Ok(Address(V4, seq(4, i requires 0 <= i < 4 => Value(parts[i], 10) as Byte)))
      else Err(NotIPv4)
    else
      match ParseWords(t)
      case Ok(words) => Ok(Address(V6, BytesOf(words)))
      case Err(e) => Err(e)
  }

  /** Fills the sixteen bytes group by group. */
  method FillBytes(all: seq<string>) returns (bytes: seq<Byte>)
    requires AreGroups(all)
    ensures bytes == BytesOf(GroupWords(all))
  {
    bytes := [];
    for i := 0 to |all|
      invariant |bytes| == 2 * i && bytes == BytesOf(GroupWords(all))[..2 * i]
    {
      var w := GroupWord(all[i]);
      bytes := bytes + [(w >> 8) as Byte, (w & 0xff) as Byte];
    }
  }

  lemma ZeroGroup()
    ensures IsGroup("0") && GroupWord("0") == 0
  {
    assert "0"[..0] == "";
  }

  lemma FillIsZero(head: seq<string>, n: nat, tail: seq<string>)
    requires AreGroups(head) && AreGroups(tail)
    ensures var all := head + seq(n, _ => "0") + tail;
            AreGroups(all) && GroupWords(all) == GroupWords(head) + Zeros(n) + GroupWords(tail)
  {
    ZeroGroup();
  }

  method Parse6(t: string) returns (r: Result<seq<Byte>, AddressError>)
    ensures r == match ParseWords(t) case Ok(words) => Ok(BytesOf(words)) case Err(e) => Err(e)
  {
    if !HexText(t) { return Err(NotAnAddress); }
    var halves := SplitDouble(t);
    if |halves| > 2 { return Err(NotAnAddress); }
    var head := Groups(halves[0]);
    var tail := if |halves| == 2 then Groups(halves[1]) else [];
    if !AreGroups(head) || !AreGroups(tail) { return Err(NotAnAddress); }
    var missing := 8 - |head| - |tail|;
    if (if |halves| == 2 then missing < 1 else missing != 0) { return Err(NotAnAddress); }
    var all := head + seq(missing, _ => "0") + tail;
    FillIsZero(head, missing, tail);
    var bytes := FillBytes(all);
    r := Ok(bytes);
  }

  // ---- printing --------------------------------------------------------------------------------

  function HexGroups(words: seq<bv16>): (parts: seq<string>)
    ensures |parts| == |words|
  {
    seq(|words|, i requires 0 <= i < |words| => Numeral(words[i] as int, 16))
  }

  function Octets(bytes: seq<Byte>): (parts: seq<string>)
    ensures |parts| == |bytes|
  {
    seq(|bytes|, i requires 0 <= i < |bytes| => Numeral(bytes[i] as int, 10))
  }

  /** How many zero groups stand from `i` on. */
  function Run(words: seq<bv16>, i: nat): (n: nat)
    requires i <= |words|
    ensures i + n <= |words| && (forall k :: i <= k < i + n ==> words[k] == 0)
    ensures i + n < |words| ==> words[i + n] != 0
    decreases |words| - i
  {
    if i < |words| && words[i] == 0 then 1 + Run(words, i + 1) else 0
  }

  /** Section 4.2.3 of RFC 5952: a longest run of zero groups, and the first of those. */
  predicate FirstLongest(words: seq<bv16>, at: nat, n: nat) {
    && at + n <= |words| && n == Run(words, at)
    && (forall k :: 0 <= k <= |words| ==> Run(words, k) <= n)
    && (forall k :: 0 <= k < at ==> Run(words, k) < n)
  }

  /** The text with the run of `n` groups at `at` left out if there are at least two of them. */
  function Shortened(words: seq<bv16>, at: nat, n: nat): string
    requires at + n <= |words|
  {
    var hex := HexGroups(words);
    if n < 2 then Join(hex, ':') else Join(hex[..at], ':') + "::" + Join(hex[at + n..], ':')
  }

  lemma {:induction false} LongestFrom(words: seq<bv16>, i: nat) returns (at: nat)
    requires i <= |words|
    ensures i <= at <= |words|
    ensures forall k :: i <= k <= |words| ==> Run(words, k) <= Run(words, at)
    ensures forall k :: i <= k < at ==> Run(words, k) < Run(words, at)
    decreases |words| - i
  {
    if i == |words| {
      at := i;
    } else {
      at := LongestFrom(words, i + 1);
      if Run(words, i) >= Run(words, at) { at := i; }
    }
  }

  function Best(words: seq<bv16>): (r: (nat, nat))
    ensures FirstLongest(words, r.0, r.1)
  {
    assert exists at: nat, n: nat :: FirstLongest(words, at, n) by {
      var at := LongestFrom(words, 0);
      assert FirstLongest(words, at, Run(words, at));
    }
    var at: nat, n: nat :| FirstLongest(words, at, n);
    (at, n)
  }

  lemma OneBest(words: seq<bv16>, at: nat, n: nat, at': nat, n': nat)
    requires FirstLongest(words, at, n) && FirstLongest(words, at', n')
    ensures at == at' && n == n'
  {
    assert n' == Run(words, at') <= n && n == Run(words, at) <= n';
  }

  /** The canonical text of an address. */
  function Printed(a: Address): string
    requires a.Valid()
  {
    if a.family.V4? then Join(Octets(a.bytes), '.')
    else var words := Words(a.bytes); Shortened(words, Best(words).0, Best(words).1)
  }

  /** Looks for the run to leave out, skipping from each run to its end. */
  method BestRun(words: seq<bv16>) returns (at: int, length: nat)
    requires |words| == 8
    ensures if length == 0 then Best(words).1 == 0 else (at, length) == Best(words)
  {
    var i := 0;
    at, length := -1, 0;
    while i < 8
      invariant 0 <= i <= 8
      invariant if length == 0 then at == -1 else 0 <= at < i && at + length <= 8 && Run(words, at) == length
      invariant forall k :: 0 <= k < i ==> Run(words, k) <= length
      invariant forall k :: 0 <= k < at ==> Run(words, k) < length
    {
      if words[i] != 0 {
        i := i + 1;
        continue;
      }
      var j := i;
      while j < 8 && words[j] == 0
        invariant i <= j <= 8
        invariant Run(words, i) == j - i + Run(words, j)
        invariant forall k :: i <= k < j ==> Run(words, k) <= Run(words, i)
      {
        j := j + 1;
      }
      if j - i > length { at, length := i, j - i; }
      i := j;
    }
    var best := Best(words);
    if length > 0 {
      OneBest(words, at, length, best.0, best.1);
    }
  }

  method FormatAddress(a: Address) returns (text: string)
    requires a.Valid()
    ensures text == Printed(a)
  {
    if a.family.V4? { return Join(Octets(a.bytes), '.'); }
    var words := Words(a.bytes);
    var at, length := BestRun(words);
    var hex := HexGroups(words);
    if length < 2 { return Join(hex, ':'); }
    text := Join(hex[..at], ':') + "::" + Join(hex[at + length..], ':');
  }

  // ---- round trip ------------------------------------------------------------------------------

  predicate IsPrintedChar(c: char) { IsDigit(c, 16) || c == ':' || c == '.' }

  lemma HexGroup(w: bv16)
    ensures var g := Numeral(w as int, 16); IsGroup(g) && GroupWord(g) == w
  {
    WordNumber(w);
    NumeralReads(w as int, 16);
    PowersOfSixteen();
  }

  lemma HexReads(words: seq<bv16>)
    ensures AreGroups(HexGroups(words)) && GroupWords(HexGroups(words)) == words
  {
    forall i | 0 <= i < |words|
      ensures IsGroup(HexGroups(words)[i]) && GroupWord(HexGroups(words)[i]) == words[i]
    {
      HexGroup(words[i]);
    }
  }

  lemma Octet(b: Byte)
    ensures var p := Numeral(b as int, 10);
            1 <= |p| <= 3 && AllDigits(p, 10) && IsOctet(p) && Value(p, 10) == b as int
  {
    ByteNumber(b);
    NumeralReads(b as int, 10);
    assert Power(10, 3) == 10 * Power(10, 2) && Power(10, 2) == 10 * Power(10, 1);
  }

  /** Only hexadecimal digits: no colon inside. */
  lemma GroupsHaveNo(gs: seq<string>)
    requires AreGroups(gs)
    ensures forall i :: 0 <= i < |gs| ==> ':' !in gs[i] && '.' !in gs[i]
  {
  }

  lemma GroupsBack(gs: seq<string>)
    requires AreGroups(gs)
    ensures Groups(Join(gs, ':')) == gs
  {
    if |gs| > 0 {
      GroupsHaveNo(gs);
      SplitJoin(gs, ':');
    }
  }

  /** No "::" inside, and no colon at either end. */
  predicate Single(s: string) {
    && (forall i :: 0 <= i < |s| - 1 ==> s[i] != ':' || s[i + 1] != ':')
    && (s != "" ==> s[0] != ':' && s[|s| - 1] != ':')
  }

  lemma {:induction false} JoinedIsSingle(gs: seq<string>)
    requires AreGroups(gs)
    ensures Single(Join(gs, ':')) && (|gs| > 0 ==> Join(gs, ':') != "")
    ensures forall i :: 0 <= i < |Join(gs, ':')| ==> IsHexOrColon(Join(gs, ':')[i])
  {
    if |gs| > 1 {
      JoinedIsSingle(gs[1..]);
      var rest := Join(gs[1..], ':');
      var s := gs[0] + [':'] + rest;
      forall i | 0 <= i < |s| - 1
        ensures s[i] != ':' || s[i + 1] != ':'
      {
        if i > |gs[0]| { assert s[i] == rest[i - |gs[0]| - 1] && s[i + 1] == rest[i - |gs[0]|]; }
      }
    }
  }

  lemma {:induction false} SplitSingle(h: string)
    requires forall i :: 0 <= i < |h| - 1 ==> h[i] != ':' || h[i + 1] != ':'
    ensures SplitDouble(h) == [h]
  {
    if h != "" {
      SplitSingle(h[1..]);
      assert h == [h[0]] + h[1..];
    }
  }

  lemma {:induction false} SplitBoth(h: string, t: string)
    requires forall i :: 0 <= i < |h| - 1 ==> h[i] != ':' || h[i + 1] != ':'
    requires h != "" ==> h[|h| - 1] != ':'
    requires Single(t)
    ensures SplitDouble(h + "::" + t) == [h, t]
  {
    var s := h + "::" + t;
    if h == "" {
      SplitSingle(t);
      assert s[2..] == t;
    } else {
      SplitBoth(h[1..], t);
      assert s[1..] == h[1..] + "::" + t;
      assert h == [h[0]] + h[1..];
    }
  }

  lemma ReadsWhole(gs: seq<string>)
    requires AreGroups(gs) && |gs| == 8
    ensures HexText(Join(gs, ':')) && ParseWords(Join(gs, ':')) == Ok(GroupWords(gs))
  {
    JoinedIsSingle(gs);
    SplitSingle(Join(gs, ':'));
    GroupsBack(gs);
    OneHalfRead(Join(gs, ':'), gs);
  }

  lemma OneHalfRead(t: string, gs: seq<string>)
    requires Groups(t) == gs && AreGroups(gs) && |gs| == 8
    ensures FromHalves([t]) == Ok(GroupWords(gs))
  {
    assert GroupWords(gs) + Zeros(0) + GroupWords([]) == GroupWords(gs);
  }

  lemma HalvesSplit(head: seq<string>, tail: seq<string>)
    requires AreGroups(head) && AreGroups(tail)
    ensures SplitDouble(Join(head, ':') + "::" + Join(tail, ':')) == [Join(head, ':'), Join(tail, ':')]
    ensures HexText(Join(head, ':') + "::" + Join(tail, ':'))
  {
    JoinedIsSingle(head);
    JoinedIsSingle(tail);
    HexAround(Join(head, ':'), Join(tail, ':'));
    SplitBoth(Join(head, ':'), Join(tail, ':'));
  }

  lemma HalvesRead(h: string, t: string, head: seq<string>, tail: seq<string>, n: nat)
    requires Groups(h) == head && Groups(t) == tail && AreGroups(head) && AreGroups(tail)
    requires n > 0 && |head| + n + |tail| == 8
    ensures FromHalves([h, t]) == Ok(GroupWords(head) + Zeros(n) + GroupWords(tail))
  {
  }

  lemma ReadsHalves(head: seq<string>, tail: seq<string>, n: nat)
    requires AreGroups(head) && AreGroups(tail) && n > 0 && |head| + n + |tail| == 8
    ensures var t := Join(head, ':') + "::" + Join(tail, ':');
            HexText(t) && ParseWords(t) == Ok(GroupWords(head) + Zeros(n) + GroupWords(tail))
  {
    HalvesSplit(head, tail);
    GroupsBack(head);
    GroupsBack(tail);
    HalvesRead(Join(head, ':'), Join(tail, ':'), head, tail, n);
  }

  lemma HexAround(h: string, t: string)
    requires forall i :: 0 <= i < |h| ==> IsHexOrColon(h[i])
    requires forall i :: 0 <= i < |t| ==> IsHexOrColon(t[i])
    ensures HexText(h + "::" + t)
  {
  }

  lemma CutHex(words: seq<bv16>, at: nat, n: nat)
    requires at + n <= |words| && Run(words, at) == n
    ensures HexGroups(words)[..at] == HexGroups(words[..at]) && HexGroups(words)[at + n..] == HexGroups(words[at + n..])
    ensures words == words[..at] + Zeros(n) + words[at + n..]
  {
  }

  lemma WordsRoundTrip(words: seq<bv16>, at: nat, n: nat)
    requires |words| == 8 && FirstLongest(words, at, n)
    ensures HexText(Shortened(words, at, n)) && ParseWords(Shortened(words, at, n)) == Ok(words)
  {
    if n < 2 { WholeReads(words); } else { CutReads(words, at, n); }
  }

  lemma WholeReads(words: seq<bv16>)
    requires |words| == 8
    ensures var t := Join(HexGroups(words), ':'); HexText(t) && ParseWords(t) == Ok(words)
  {
    HexReads(words);
    ReadsWhole(HexGroups(words));
  }

  lemma CutReads(words: seq<bv16>, at: nat, n: nat)
    requires |words| == 8 && n >= 2 && at + n <= 8 && Run(words, at) == n
    ensures var t := Join(HexGroups(words)[..at], ':') + "::" + Join(HexGroups(words)[at + n..], ':');
            HexText(t) && ParseWords(t) == Ok(words)
  {
    CutHex(words, at, n);
    ShortReads(words[..at], words[at + n..], n);
  }

  lemma ShortReads(before: seq<bv16>, after: seq<bv16>, n: nat)
    requires n > 0 && |before| + n + |after| == 8
    ensures var t := Join(HexGroups(before), ':') + "::" + Join(HexGroups(after), ':');
            HexText(t) && ParseWords(t) == Ok(before + Zeros(n) + after)
  {
    HexReads(before);
    HexReads(after);
    ReadsHalves(HexGroups(before), HexGroups(after), n);
  }

  lemma {:induction false} DotsSplit(parts: seq<string>)
    requires |parts| == 4 && forall i :: 0 <= i < 4 ==> 1 <= |parts[i]| <= 3 && AllDigits(parts[i], 10)
    ensures LooksDotted(Join(parts, '.')) && Split(Join(parts, '.'), '.') == parts
  {
    SplitJoin(parts, '.');
  }

  lemma ColonsAreNotDotted(t: string)
    requires '.' !in t
    ensures !LooksDotted(t)
  {
    SplitOff(t, "", '.');
  }

  lemma PrintedIsPlain(s: string)
    requires forall i :: 0 <= i < |s| ==> IsPrintedChar(s[i])
    ensures Trim(s) == s && Lower(s) == s
  {
    forall i | 0 <= i < |s|
      ensures Plain(s[i])
    {
      PrintedCharIsPlain(s[i]);
    }
    PlainStays(s);
  }

  lemma PrintedCharIsPlain(c: char)
    requires IsPrintedChar(c)
    ensures Plain(c)
  {
  }

  lemma {:induction false} JoinedDots(parts: seq<string>)
    requires forall i :: 0 <= i < |parts| ==> AllDigits(parts[i], 10)
    ensures var s := Join(parts, '.'); forall i :: 0 <= i < |s| ==> IsPrintedChar(s[i])
  {
    var s := Join(parts, '.');
    forall i | 0 <= i < |s|
      ensures IsPrintedChar(s[i])
    {
      JoinHas(parts, '.', i);
    }
  }

  lemma PrintedChars(a: Address)
    requires a.Valid()
    ensures forall i :: 0 <= i < |Printed(a)| ==> IsPrintedChar(Printed(a)[i])
  {
    if a.family.V4? {
      forall i | 0 <= i < |a.bytes|
        ensures AllDigits(Octets(a.bytes)[i], 10)
      {
        Octet(a.bytes[i]);
      }
      JoinedDots(Octets(a.bytes));
      assert Printed(a) == Join(Octets(a.bytes), '.');
    } else {
      var words := Words(a.bytes);
      WordsRoundTrip(words, Best(words).0, Best(words).1);
    }
  }

  /** Reading what is printed gives the address back, for every IPv4 and IPv6 address. */
  lemma AddressRoundTrip(a: Address)
    requires a.Valid()
    ensures ParseAddress(Printed(a)) == Ok(a)
  {
    PrintedChars(a);
    PrintedIsPlain(Printed(a));
    if a.family.V4? {
      RoundTrip4(a);
    } else {
      RoundTrip6(a);
    }
  }

  lemma RoundTrip4(a: Address)
    requires a.Valid() && a.family.V4? && Trim(Printed(a)) == Printed(a) && Lower(Printed(a)) == Printed(a)
    ensures ParseAddress(Printed(a)) == Ok(a)
  {
    var parts := Octets(a.bytes);
    forall i | 0 <= i < 4
      ensures 1 <= |parts[i]| <= 3 && AllDigits(parts[i], 10) && IsOctet(parts[i])
              && Value(parts[i], 10) as Byte == a.bytes[i]
    {
      Octet(a.bytes[i]);
      ByteNumber(a.bytes[i]);
    }
    DotsSplit(parts);
    var r := ParseAddress(Printed(a));
    assert r.Ok? && r.value.bytes == a.bytes;
  }

  lemma RoundTrip6(a: Address)
    requires a.Valid() && a.family.V6?
    ensures ParseAddress(Printed(a)) == Ok(a)
  {
    PrintedReads(a);
    WordsBack(a.bytes);
    ReadsAsV6(Printed(a), Words(a.bytes));
  }

  lemma PrintedReads(a: Address)
    requires a.Valid() && a.family.V6?
    ensures HexText(Printed(a)) && ParseWords(Printed(a)) == Ok(Words(a.bytes))
  {
    var words := Words(a.bytes);
    WordsRoundTrip(words, Best(words).0, Best(words).1);
  }

  lemma ReadsAsV6(t: string, words: seq<bv16>)
    requires HexText(t) && ParseWords(t) == Ok(words)
    ensures ParseAddress(t) == Ok(Address(V6, BytesOf(words)))
  {
    HexTextIsPlain(t);
  }

  lemma HexTextIsPlain(t: string)
    requires HexText(t)
    ensures Trim(t) == t && Lower(t) == t && !LooksDotted(t)
  {
    PrintedIsPlain(t);
    ColonsAreNotDotted(t);
  }

  /**
   Section 4 of RFC 5952: the text leaves out exactly the first longest run of zero groups, if it
   has at least two, and nothing else; and no group has leading zeros.
   */
  lemma CompressesFirstLongest(a: Address, at: nat, n: nat)
    requires a.Valid() && a.family.V6? && FirstLongest(Words(a.bytes), at, n)
    ensures var halves := SplitDouble(Printed(a));
            if n < 2 then halves == [Printed(a)] && |Groups(halves[0])| == 8
            else |halves| == 2 && |Groups(halves[0])| == at && |Groups(halves[1])| == 8 - at - n
    ensures forall h, g :: h in SplitDouble(Printed(a)) && g in Groups(h) ==> |g| > 1 ==> g[0] != '0'
  {
    PrintedIs(a, at, n);
    HalvesOf(Words(a.bytes), at, n);
    NoLeadingZeros(Words(a.bytes));
    NoneInHalves(SplitDouble(Printed(a)), HexGroups(Words(a.bytes)), at, n);
  }

  lemma NoneInHalves(halves: seq<string>, hex: seq<string>, at: nat, n: nat)
    requires |hex| == 8 && at + n <= 8 && forall g :: g in hex ==> |g| > 1 ==> g[0] != '0'
    requires if n < 2 then |halves| == 1 && Groups(halves[0]) == hex
             else |halves| == 2 && Groups(halves[0]) == hex[..at] && Groups(halves[1]) == hex[at + n..]
    ensures forall h, g :: h in halves && g in Groups(h) ==> |g| > 1 ==> g[0] != '0'
  {
    forall h, g | h in halves && g in Groups(h)
      ensures g in hex
    {
      var i :| 0 <= i < |halves| && halves[i] == h;
    }
  }

  lemma PrintedIs(a: Address, at: nat, n: nat)
    requires a.Valid() && a.family.V6? && FirstLongest(Words(a.bytes), at, n)
    ensures Printed(a) == Shortened(Words(a.bytes), at, n)
  {
    var words := Words(a.bytes);
    OneBest(words, at, n, Best(words).0, Best(words).1);
  }

  /** The halves of a printed text are made of its groups. */
  lemma HalvesOf(words: seq<bv16>, at: nat, n: nat)
    requires |words| == 8 && at + n <= 8
    ensures var t, hex := Shortened(words, at, n), HexGroups(words); var halves := SplitDouble(t);
            if n < 2 then halves == [t] && Groups(t) == hex
            else |halves| == 2 && Groups(halves[0]) == hex[..at] && Groups(halves[1]) == hex[at + n..]
  {
    HexReads(words);
    if n < 2 { OneHalf(HexGroups(words)); } else { TwoHalves(HexGroups(words), at, n); }
  }

  lemma TwoHalves(gs: seq<string>, at: nat, n: nat)
    requires AreGroups(gs) && at + n <= |gs|
    ensures SplitDouble(Join(gs[..at], ':') + "::" + Join(gs[at + n..], ':'))
            == [Join(gs[..at], ':'), Join(gs[at + n..], ':')]
    ensures Groups(Join(gs[..at], ':')) == gs[..at] && Groups(Join(gs[at + n..], ':')) == gs[at + n..]
  {
    HalvesSplit(gs[..at], gs[at + n..]);
    GroupsBack(gs[..at]);
    GroupsBack(gs[at + n..]);
  }

  lemma OneHalf(gs: seq<string>)
    requires AreGroups(gs)
    ensures SplitDouble(Join(gs, ':')) == [Join(gs, ':')] && Groups(Join(gs, ':')) == gs
  {
    JoinedIsSingle(gs);
    SplitSingle(Join(gs, ':'));
    GroupsBack(gs);
  }

  lemma NoLeadingZeros(words: seq<bv16>)
    ensures forall g :: g in HexGroups(words) ==> |g| > 1 ==> g[0] != '0'
  {
    forall i | 0 <= i < |words|
      ensures var g := HexGroups(words)[i]; |g| > 1 ==> g[0] != '0'
    {
      NumeralReads(words[i] as int, 16);
    }
  }
}
