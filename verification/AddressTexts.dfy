/** Exactly which texts are read as which address (parseAddress in packages/tls/src/ca/constraints.ts). */
module AddressTexts {
  import opened Results
  import opened Text
  import opened Addresses

  /**
   Section 2.2 of RFC 4291, without the dotted tail: eight groups of one to four hexadecimal digits, or fewer with
   one "::" for at least one group of zeros.
   */
  ghost predicate Writes(t: string, words: seq<bv16>) {
    || (exists gs :: WritesAll(t, words, gs))
    || (exists head, tail, n :: WritesHalves(t, words, head, tail, n))
  }

  ghost predicate WritesAll(t: string, words: seq<bv16>, gs: seq<string>) {
    |gs| == 8 && AreGroups(gs) && t == Join(gs, ':') && words == GroupWords(gs)
  }

  ghost predicate WritesHalves(t: string, words: seq<bv16>, head: seq<string>, tail: seq<string>, n: nat) {
    && AreGroups(head) && AreGroups(tail) && n > 0 && |head| + n + |tail| == 8
    && t == Join(head, ':') + "::" + Join(tail, ':') && words == GroupWords(head) + Zeros(n) + GroupWords(tail)
  }

  // ---- IPv6 ------------------------------------------------------------------------------------------------

  /** What the pieces were split from. */
  function Rejoined(parts: seq<string>): string
    requires |parts| >= 1
  {
    if |parts| == 1 then parts[0] else parts[0] + "::" + Rejoined(parts[1..])
  }

  lemma {:induction false} DoubleJoins(s: string)
    ensures Rejoined(SplitDouble(s)) == s
  {
    if |s| >= 2 && s[0] == ':' && s[1] == ':' {
      DoubleJoins(s[2..]);
      var rest := SplitDouble(s[2..]);
      assert ([""] + rest)[1..] == rest;
    } else if s != "" {
      DoubleJoins(s[1..]);
      LongerFirst(s[0], SplitDouble(s[1..]));
    }
  }

  lemma LongerFirst(c: char, rest: seq<string>)
    requires |rest| >= 1
    ensures Rejoined([[c] + rest[0]] + rest[1..]) == [c] + Rejoined(rest)
  {
    var first, tail := [c] + rest[0], rest[1..];
    assert ([first] + tail)[1..] == tail;
    if |rest| > 1 { Glued(c, rest[0], Rejoined(tail)); }
  }

  lemma Glued(c: char, s: string, t: string)
    ensures ([c] + s) + "::" + t == [c] + (s + "::" + t)
  {
  }

  lemma GroupsJoin(h: string)
    ensures Join(Groups(h), ':') == h
  {
    if h != "" { JoinSplit(h, ':'); }
  }

  lemma ReadIsWritten(t: string, words: seq<bv16>)
    requires ParseWords(t) == Ok(words)
    ensures Writes(t, words)
  {
    var halves := SplitDouble(t);
    DoubleJoins(t);
    if |halves| == 1 {
      WholeWritten(t, words, halves);
    } else {
      assert Rejoined(halves[1..]) == halves[1];
      HalvesWritten(t, words, halves);
    }
  }

  lemma WholeWritten(t: string, words: seq<bv16>, halves: seq<string>)
    requires |halves| == 1 && t == halves[0] && FromHalves(halves) == Ok(words)
    ensures Writes(t, words)
  {
    var gs := Groups(t);
    GroupsJoin(t);
    assert GroupWords(gs) + Zeros(0) + GroupWords([]) == GroupWords(gs);
    assert WritesAll(t, words, gs);
  }

  lemma HalvesWritten(t: string, words: seq<bv16>, halves: seq<string>)
    requires |halves| == 2 && t == halves[0] + "::" + halves[1] && FromHalves(halves) == Ok(words)
    ensures Writes(t, words)
  {
    var head, tail := Groups(halves[0]), Groups(halves[1]);
    GroupsJoin(halves[0]);
    GroupsJoin(halves[1]);
    assert WritesHalves(t, words, head, tail, 8 - |head| - |tail|);
  }

  lemma WrittenIsRead(t: string, words: seq<bv16>)
    requires Writes(t, words)
    ensures HexText(t) && ParseWords(t) == Ok(words)
  {
    if gs :| WritesAll(t, words, gs) {
      ReadsWhole(gs);
    } else {
      var head, tail, n :| WritesHalves(t, words, head, tail, n);
      ReadsHalves(head, tail, n);
    }
  }

  lemma HexIsNotDotted(t: string)
    requires HexText(t)
    ensures !LooksDotted(t)
  {
    assert '.' !in t by { assert !IsHexOrColon('.'); }
    ColonsAreNotDotted(t);
  }

  lemma BytesBack(words: seq<bv16>)
    ensures Words(BytesOf(words)) == words
  {
    var bytes := BytesOf(words);
    forall i | 0 <= i < |words|
      ensures Words(bytes)[i] == words[i]
    {
      TwoBytes(words, bytes, i, 2 * i);
      BytesMakeWord(words[i]);
    }
  }

  lemma TwoBytes(words: seq<bv16>, bytes: seq<Byte>, i: nat, k: nat)
    requires bytes == BytesOf(words) && i < |words| && k == 2 * i
    ensures bytes[k] == HighByte(words[i]) && bytes[k + 1] == LowByte(words[i])
  {
  }

  lemma BytesMakeWord(w: bv16)
    ensures Word(HighByte(w), LowByte(w)) == w
  {
  }

  lemma Reads6(text: string, t: string, a: Address)
    requires a.Valid() && a.family.V6? && t == Lower(Trim(text))
    ensures ParseAddress(text) == Ok(a) <==> Writes(t, Words(a.bytes))
  {
    if Writes(t, Words(a.bytes)) {
      WrittenIsRead(t, Words(a.bytes));
      HexIsNotDotted(t);
      WordsBack(a.bytes);
    }
    if ParseAddress(text) == Ok(a) {
      var words := ParseWords(t).value;
      BytesBack(words);
      ReadIsWritten(t, words);
    }
  }

  // ---- IPv4 ------------------------------------------------------------------------------------------------

  /** A number without needless zeros is the numeral of its value. */
  lemma {:induction false} NumeralBack(s: string)
    requires |s| >= 1 && AllDigits(s, 10) && (|s| > 1 ==> s[0] != '0')
    ensures Numeral(Value(s, 10), 10) == s
  {
    var front, last := s[..|s| - 1], s[|s| - 1];
    DigitBack(last);
    ValueOfMore(s, front, last);
    if front == "" {
      OneDigit(s, last);
    } else {
      NumeralBack(front);
      LeadingIsPositive(front);
      OneDigitMore(Value(front, 10), DigitValue(last), Value(s, 10));
    }
  }

  lemma ValueOfMore(s: string, front: string, last: char)
    requires AllDigits(s, 10) && s == front + [last]
    ensures AllDigits(front, 10) && IsDigit(last, 10) && Value(s, 10) == Value(front, 10) * 10 + DigitValue(last)
  {
    assert s[|s| - 1] == last && forall i :: 0 <= i < |front| ==> front[i] == s[i];
    assert front == s[..|s| - 1];
  }

  lemma OneDigit(s: string, c: char)
    requires s == [c] && IsDigit(c, 10)
    ensures Numeral(Value(s, 10), 10) == s
  {
    assert s == "" + [c];
    ValueOfMore(s, "", c);
    assert Value("", 10) == 0;
    DigitBack(c);
  }

  lemma OneDigitMore(m: nat, d: nat, n: nat)
    requires m >= 1 && d < 10 && n == m * 10 + d
    ensures Numeral(n, 10) == Numeral(m, 10) + [DIGITS[d]]
  {
    assert n / 10 == m && n % 10 == d;
  }

  lemma DigitBack(c: char)
    requires IsDigit(c, 10)
    ensures DIGITS[DigitValue(c)] == c
  {
  }

  lemma {:induction false} LeadingIsPositive(s: string)
    requires |s| >= 1 && AllDigits(s, 10) && s[0] != '0'
    ensures Value(s, 10) >= 1
  {
    if |s| > 1 { LeadingIsPositive(s[..|s| - 1]); }
  }

  lemma OctetText(part: string, b: Byte)
    requires |part| >= 1 && AllDigits(part, 10) && IsOctet(part) && Value(part, 10) as Byte == b
    ensures part == Numeral(b as int, 10)
  {
    NumeralBack(part);
    NumberByte(Value(part, 10));
  }

  lemma {:induction false} NumberByte(n: nat)
    requires n <= 255
    ensures (n as Byte) as int == n
  {
    if n > 0 {
      NumberByte(n - 1);
      NextByte((n - 1) as Byte);
    }
  }

  lemma NextByte(b: Byte)
    requires b as int < 255
    ensures (b + 1) as int == b as int + 1 && (b as int + 1) as Byte == b + 1
  {
  }

  lemma Reads4(text: string, t: string, a: Address)
    requires a.Valid() && a.family.V4? && t == Lower(Trim(text))
    ensures ParseAddress(text) == Ok(a) <==> t == Printed(a)
  {
    if ParseAddress(text) == Ok(a) {
      var parts := Split(t, '.');
      forall i | 0 <= i < 4
        ensures parts[i] == Octets(a.bytes)[i]
      {
        OctetText(parts[i], a.bytes[i]);
      }
      assert parts == Octets(a.bytes);
      JoinSplit(t, '.');
    }
    if t == Printed(a) {
      PrintedChars(a);
      PrintedIsPlain(t);
      RoundTrip4(a);
    }
  }

  // ---- space and case ----------------------------------------------------------------------------------------

  /**
   A text is read as an IPv4 address exactly when it is its one dotted form, and as an IPv6 address exactly when it
   writes its words, in either case of letters; white space around it does not matter, and no other text is read as it.
   */
  lemma ReadsExactly(pre: string, core: string, post: string, a: Address)
    requires Spaces(pre) && Bare(core) && Spaces(post) && a.Valid()
    ensures ParseAddress(pre + core + post) == Ok(a) <==>
            if a.family.V4? then Lower(core) == Printed(a) else Writes(Lower(core), Words(a.bytes))
  {
    Trimmed(pre, core, post);
    if a.family.V4? {
      Reads4(pre + core + post, Lower(core), a);
    } else {
      Reads6(pre + core + post, Lower(core), a);
    }
  }
}
