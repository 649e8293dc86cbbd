/** The string operations of the program: trim, lower case, split and join, numerals of base ten and sixteen. */
module Text {

  // ---- trimming and case ----------------------------------------------------------------------

  /** What String.prototype.trim removes. */
  predicate IsSpace(c: char) {
    || '\t' <= c <= '\r' || c == ' ' || c == '\U{A0}' || c == '\U{1680}' || '\U{2000}' <= c <= '\U{200A}'
    || c == '\U{2028}' || c == '\U{2029}' || c == '\U{202F}' || c == '\U{205F}' || c == '\U{3000}' || c == '\U{FEFF}'
  }

  function Trim(s: string): string {
    if s == "" then s
    else if IsSpace(s[0]) then Trim(s[1..])
    else if IsSpace(s[|s| - 1]) then Trim(s[..|s| - 1])
    else s
  }

  /** Lower case of the letters A to Z. */
  function LowerChar(c: char): char {
    if 'A' <= c <= 'Z' then c - 'A' + 'a' else c
  }

  function Lower(s: string): (r: string)
    ensures |r| == |s| && forall i :: 0 <= i < |s| ==> r[i] == LowerChar(s[i])
  {
    if s == "" then "" else [LowerChar(s[0])] + Lower(s[1..])
  }

  /** Neither white space nor a capital letter. */
  predicate Plain(c: char) { !IsSpace(c) && !('A' <= c <= 'Z') }

  lemma PlainStays(s: string)
    requires forall i :: 0 <= i < |s| ==> Plain(s[i])
    ensures Trim(s) == s && Lower(s) == s
  {
  }

  predicate EndsWith(s: string, end: string) {
    |s| >= |end| && s[|s| - |end|..] == end
  }

  predicate Spaces(s: string) { forall i :: 0 <= i < |s| ==> IsSpace(s[i]) }

  predicate Bare(s: string) { s == "" || (!IsSpace(s[0]) && !IsSpace(s[|s| - 1])) }

  lemma {:induction false} Trimmed(pre: string, core: string, post: string)
    requires Spaces(pre) && Bare(core) && Spaces(post)
    ensures Trim(pre + core + post) == core
    decreases |pre| + |post|
  {
    var s := pre + core + post;
    if pre != "" {
      assert s[1..] == pre[1..] + core + post;
      Trimmed(pre[1..], core, post);
    } else if post != "" {
      assert s == core + post;
      if core == "" {
        assert s[1..] == pre + core + post[1..];
        Trimmed(pre, core, post[1..]);
      } else {
        assert s[..|s| - 1] == pre + core + post[..|post| - 1];
        Trimmed(pre, core, post[..|post| - 1]);
      }
    } else {
      assert s == core;
    }
  }

  // ---- splitting and joining -------------------------------------------------------------------

  /** The pieces between the separators: always at least one. */
  function Split(s: string, at: char): (parts: seq<string>)
    ensures |parts| >= 1
  {
    if s == "" then [""]
    else
      var rest := Split(s[1..], at);
      if s[0] == at then [""] + rest else [[s[0]] + rest[0]] + rest[1..]
  }

  function Join(parts: seq<string>, sep: char): string {
    if |parts| == 0 then ""
    else if |parts| == 1 then parts[0]
    else parts[0] + [sep] + Join(parts[1..], sep)
  }

  lemma {:induction false} SplitOff(a: string, b: string, at: char)
    requires at !in a
    ensures Split(a, at) == [a]
    ensures Split(a + [at] + b, at) == [a] + Split(b, at)
  {
    var s := a + [at] + b;
    if a == "" {
      assert s[1..] == b;
    } else {
      assert s[1..] == a[1..] + [at] + b;
      SplitOff(a[1..], b, at);
      assert a == [a[0]] + a[1..];
    }
  }

  /** Splitting undoes joining. */
  lemma {:induction false} SplitJoin(parts: seq<string>, at: char)
    requires |parts| >= 1 && forall i :: 0 <= i < |parts| ==> at !in parts[i]
    ensures Split(Join(parts, at), at) == parts
  {
    SplitOff(parts[0], Join(parts[1..], at), at);
    if |parts| > 1 {
      SplitJoin(parts[1..], at);
      assert parts == [parts[0]] + parts[1..];
    } else {
      assert parts == [parts[0]];
    }
  }

  /** Joining undoes splitting. */
  lemma {:induction false} JoinSplit(s: string, at: char)
    ensures Join(Split(s, at), at) == s
  {
    if s != "" {
      JoinSplit(s[1..], at);
      var rest := Split(s[1..], at);
      assert Split(s, at)[1..] == if s[0] == at then rest else rest[1..];
    }
  }

  lemma {:induction false} JoinHas(parts: seq<string>, sep: char, i: int)
    requires 0 <= i < |Join(parts, sep)|
    ensures Join(parts, sep)[i] == sep || exists p :: 0 <= p < |parts| && Join(parts, sep)[i] in parts[p]
  {
    if |parts| == 1 {
      assert parts[0][i] in parts[0];
    } else if i < |parts[0]| {
      assert parts[0][i] in parts[0];
    } else if i > |parts[0]| {
      var rest := Join(parts[1..], sep);
      JoinHas(parts[1..], sep, i - |parts[0]| - 1);
      assert Join(parts, sep)[i] == rest[i - |parts[0]| - 1];
      if rest[i - |parts[0]| - 1] != sep {
        var p :| 0 <= p < |parts[1..]| && rest[i - |parts[0]| - 1] in parts[1..][p];
        assert parts[1..][p] == parts[p + 1];
      }
    }
  }

  // ---- numerals --------------------------------------------------------------------------------

  type Base = b: int | b == 10 || b == 16 witness 10

  const DIGITS: string := "0123456789abcdef"

  function DigitValue(c: char): (d: int)
    ensures -1 <= d < 16
  {
    if '0' <= c <= '9' then c as int - '0' as int
    else if 'a' <= c <= 'f' then c as int - 'a' as int + 10
    else -1
  }

  predicate IsDigit(c: char, b: Base) { 0 <= DigitValue(c) < b }

  predicate AllDigits(s: string, b: Base) { forall i :: 0 <= i < |s| ==> IsDigit(s[i], b) }

  /** Number(s) and parseInt(s, 16), on digits. */
  function Value(s: string, b: Base): nat
    requires AllDigits(s, b)
  {
    if s == "" then 0 else Value(s[..|s| - 1], b) * b + DigitValue(s[|s| - 1])
  }

  /** String(n) and n.toString(16). */
  function Numeral(n: nat, b: Base): string {
    if n < b then [DIGITS[n]] else Numeral(n / b, b) + [DIGITS[n % b]]
  }

  function Power(b: Base, k: nat): nat {
    if k == 0 then 1 else b * Power(b, k - 1)
  }

  lemma DigitIs(d: nat, b: Base)
    requires d < b
    ensures DigitValue(DIGITS[d]) == d && IsDigit(DIGITS[d], b) && (DIGITS[d] == '0' <==> d == 0)
  {
  }

  /** A numeral reads as its number, has no leading zero, and is no longer than it must be. */
  lemma {:induction false} NumeralReads(n: nat, b: Base)
    ensures var s := Numeral(n, b);
            && AllDigits(s, b) && Value(s, b) == n && |s| >= 1
            && (|s| > 1 ==> s[0] != '0') && (forall k: nat :: k >= 1 && n < Power(b, k) ==> |s| <= k)
  {
    var s := Numeral(n, b);
    if n < b {
      DigitIs(n, b);
      assert s[..0] == "";
      assert Value(s, b) == Value(s[..0], b) * b + n;
    } else {
      var m := n / b;
      NumeralReads(m, b);
      DigitIs(n % b, b);
      assert s[..|s| - 1] == Numeral(m, b);
      NoLeadingZero(m, b);
      forall k: nat | k >= 1 && n < Power(b, k)
        ensures |s| <= k
      {
        assert k > 1;
        assert b * m <= n < b * Power(b, k - 1);
        assert m < Power(b, k - 1);
      }
    }
  }

  lemma {:induction false} NoLeadingZero(n: nat, b: Base)
    requires n > 0
    ensures Numeral(n, b)[0] != '0'
  {
    if n >= b { NoLeadingZero(n / b, b); } else { DigitIs(n, b); }
  }

  lemma {:induction false} ValueBelow(s: string, b: Base)
    requires AllDigits(s, b)
    ensures Value(s, b) < Power(b, |s|)
  {
    if s != "" {
      var t := s[..|s| - 1];
      ValueBelow(t, b);
      assert Value(s, b) < (Value(t, b) + 1) * b;
    }
  }
}
