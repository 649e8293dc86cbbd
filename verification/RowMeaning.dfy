/** What a rollup row says of its samples, in plain terms: how many they are, their sum, least and greatest value. */
module RowMeaning {
  import opened Totals
  import opened Rollup

  /** The samples of one metric in [a, b). */
  function SamplesIn(ever: map<Key, real>, m: nat, a: int, b: int): set<Key> {
    set k | k in ever && k.metric == m && a <= k.ts < b
  }

  /** Their values added up, one millisecond after another. */
  function Sum(ever: map<Key, real>, m: nat, a: int, b: int): real
    decreases b - a
  {
    if b <= a then 0.0 else Sum(ever, m, a, b - 1) + (if Key(m, b - 1) in ever then ever[Key(m, b - 1)] else 0.0)
  }

  /** The row counts the samples of [a, b), of which there are some; its mean and extremes are theirs. */
  ghost predicate Describes(row: Row, ever: map<Key, real>, m: nat, a: int, b: int) {
    var s := SamplesIn(ever, m, a, b);
    && row.count == |s| && row.count > 0 && row.avg * row.count as real == Sum(ever, m, a, b)
    && (forall k :: k in s ==> row.min <= ever[k] <= row.max)
    && (exists k :: k in s && ever[k] == row.min)
    && (exists k :: k in s && ever[k] == row.max)
  }

  ghost predicate PartDescribes(p: Part, ever: map<Key, real>, m: nat, a: int, b: int) {
    var s := SamplesIn(ever, m, a, b);
    if s == {} then p == Empty && Sum(ever, m, a, b) == 0.0
    else
      && p.Part? && p.count == |s| && p.sum == Sum(ever, m, a, b)
      && (forall k :: k in s ==> p.min <= ever[k] <= p.max)
      && (exists k :: k in s && ever[k] == p.min)
      && (exists k :: k in s && ever[k] == p.max)
  }

  lemma {:induction false} TotalDescribes(ever: map<Key, real>, m: nat, a: int, b: int)
    ensures PartDescribes(Total(Samples(ever), m, a, b), ever, m, a, b)
    decreases b - a
  {
    if a < b {
      TotalDescribes(ever, m, a, b - 1);
      OneSampleMore(Total(Samples(ever), m, a, b - 1), ever, m, a, b);
    }
  }

  lemma OneSampleMore(p: Part, ever: map<Key, real>, m: nat, a: int, b: int)
    requires a < b && PartDescribes(p, ever, m, a, b - 1)
    ensures PartDescribes(Plus(p, Cell(Samples(ever), m, b - 1)), ever, m, a, b)
  {
    var k, s, t := Key(m, b - 1), SamplesIn(ever, m, a, b - 1), SamplesIn(ever, m, a, b);
    if k in ever {
      assert t == s + {k};
      if s != {} {
        var low :| low in s && ever[low] == p.min;
        var high :| high in s && ever[high] == p.max;
        assert low in t && high in t && k in t;
      }
    } else {
      assert t == s;
    }
  }

  /** The row of a bucket that has samples describes exactly those. */
  lemma RowDescribes(ever: map<Key, real>, m: nat, a: int, b: int)
    requires Total(Samples(ever), m, a, b) != Empty
    ensures Describes(RowOf(Total(Samples(ever), m, a, b)), ever, m, a, b)
  {
    TotalDescribes(ever, m, a, b);
    RowRoundTrip(Total(Samples(ever), m, a, b));
  }
}
