/**
 The alert rules in force (packages/alerts/src/source.ts), and what keeps them within raw retention
 (packages/api/src/settings-routes.ts). A saved entry is an opaque value; parsing one, and whether its
 rule can run on this host, are parameters.
 */
module Rules {
  import opened Results
  import opened Retention

  datatype Rule = Rule(id: nat, forMs: int, clearAfterMs: int, certificate: bool, body: nat)

  /** A parsed entry; a bare disable has no rule. */
  datatype Entry = Entry(id: nat, disabled: bool, rule: Option<Rule>)

  type Raw = nat

  /** The id that stands for anything without one. */
  const UNKNOWN: nat := 0
  const MAX_SAVED_RULES: nat := 200

  /** What does not change while the server runs; `base` are the built-in and file rules. */
  datatype Host = Host(parseEntry: Raw -> Option<Entry>, idOf: Raw -> nat, runs: Rule -> bool, base: seq<Rule>,
                       certificate: bool, parse: Parse, env: Values<string>)

  ghost predicate RuleOk(r: Rule) {
    r.forMs >= 0 && r.clearAfterMs >= 0 && (r.certificate ==> r.forMs == 0 && r.clearAfterMs == 0)
  }

  ghost predicate EntryOk(h: Host, raw: Raw) {
    match h.parseEntry(raw)
    case None => true
    case Some(e) =>
      && e.id == h.idOf(raw) && e.id != UNKNOWN && (e.rule.None? ==> e.disabled)
      && (e.rule.Some? ==> e.rule.value.id == e.id && RuleOk(e.rule.value))
  }

  /** Entries have the ids they are known by, base rules distinct ones, and durations are positive. */
  ghost predicate HostOk(h: Host) {
    && (forall raw: Raw :: EntryOk(h, raw))
    && (forall i :: 0 <= i < |h.base| ==> RuleOk(h.base[i]) && h.base[i].id != UNKNOWN)
    && (forall i, j :: 0 <= i < j < |h.base| ==> h.base[i].id != h.base[j].id)
    && (forall text: string :: h.parse(text).Some? && h.parse(text).value.Ms? ==> h.parse(text).value.n > 0)
  }

  function RuleWith(rules: seq<Rule>, id: nat): (r: Option<Rule>)
    ensures r.Some? ==> r.value in rules && r.value.id == id
    ensures r.None? <==> forall i :: 0 <= i < |rules| ==> rules[i].id != id
  {
    if rules == [] then None
    else if rules[0].id == id then Some(rules[0])
    else
      assert forall i :: 1 <= i < |rules| ==> rules[i] == rules[1..][i - 1];
      RuleWith(rules[1..], id)
  }

  /** The built-in or file rule with this id. */
  function Below(h: Host, id: nat): Option<Rule> { RuleWith(h.base, id) }

  // ---- checking an entry -----------------------------------------------------------------------------

  /** Raw retention serves both look-backs. */
  predicate Fits(r: Rule, raw: Length) { !Longer(Ms(r.forMs), raw) && !Longer(Ms(r.clearAfterMs), raw) }

  datatype Problem = Unparsable | NothingToDisable | CannotRun | LooksTooFar | Taken | TooMany

  function Check(h: Host, entry: Raw, raw: Length): Result<Entry, Problem> {
    match h.parseEntry(entry)
    case None => Err(Unparsable)
    case Some(e) =>
      if e.rule.None? then (if Below(h, e.id).Some? then Ok(e) else Err(NothingToDisable))
      else if e.disabled then Ok(e)
      else if !h.runs(e.rule.value) then Err(CannotRun)
      else if !Fits(e.rule.value, raw) then Err(LooksTooFar)
      else Ok(e)
  }

  // ---- the rules in force ----------------------------------------------------------------------------

  /** The saved entry for an id: a later one wins. */
  function EntryFor(h: Host, list: seq<Raw>, id: nat): (r: Option<Raw>)
    ensures r.Some? ==> r.value in list && h.idOf(r.value) == id
    ensures r.None? <==> forall i :: 0 <= i < |list| ==> h.idOf(list[i]) != id
  {
    if list == [] then None
    else
      var n := |list| - 1;
      assert forall i :: 0 <= i < n ==> list[i] == list[..n][i];
      if h.idOf(list[n]) == id then Some(list[n]) else EntryFor(h, list[..n], id)
  }

  /** The rule that stands for an id: the saved one if it can run, else the one below it, if it fits. */
  function Standing(h: Host, list: seq<Raw>, raw: Length, id: nat): Option<Rule> {
    match EntryFor(h, list, id)
    case None => Below(h, id)
    case Some(entry) =>
      match Check(h, entry, raw)
      case Ok(e) => if e.disabled then None else e.rule
      case Err(_) => if Below(h, id).Some? && Fits(Below(h, id).value, raw) then Below(h, id) else None
  }

  /** With HTTPS off, certificate rules are not in force. */
  predicate InForce(h: Host, list: seq<Raw>, raw: Length, r: Rule) {
    Standing(h, list, raw, r.id) == Some(r) && (h.certificate || !r.certificate)
  }

  /** What stands for the base rules. */
  method ReadBase(h: Host, list: seq<Raw>, raw: Length) returns (rules: seq<Rule>)
    requires HostOk(h)
    ensures forall r :: r in rules <==> Standing(h, list, raw, r.id) == Some(r) && Below(h, r.id).Some?
  {
    rules := [];
    for i := 0 to |h.base|
      invariant forall r :: r in rules <==>
                Standing(h, list, raw, r.id) == Some(r)
                && exists k :: 0 <= k < i && h.base[k].id == r.id
    {
      rules := ReadOne(h, list, raw, h.base[i].id, rules);
    }
  }

  /** What stands for ids that are only saved. */
  method ReadAdded(h: Host, list: seq<Raw>, raw: Length) returns (rules: seq<Rule>)
    requires HostOk(h)
    ensures forall r :: r in rules <==>
      Standing(h, list, raw, r.id) == Some(r) && Below(h, r.id).None?
          && exists k :: 0 <= k < |list| && h.idOf(list[k]) == r.id
  {
    rules := [];
    for i := 0 to |list|
      invariant forall r :: r in rules <==>
        Standing(h, list, raw, r.id) == Some(r) && Below(h, r.id).None?
            && exists k :: 0 <= k < i && h.idOf(list[k]) == r.id
    {
      if Below(h, h.idOf(list[i])).None? {
        rules := ReadOne(h, list, raw, h.idOf(list[i]), rules);
      }
    }
  }

  /** The rules in force, built-in and file ones first, then those only saved. */
  method Read(h: Host, list: seq<Raw>, raw: Length) returns (rules: seq<Rule>)
    requires HostOk(h)
    ensures forall r :: r in rules <==> InForce(h, list, raw, r)
  {
    var standing := ReadBase(h, list, raw);
    var added := ReadAdded(h, list, raw);
    StandingHasId(h, list, raw);
    rules := Served(h, standing + added);
  }

  /** The id's rule joins the others, once. */
  method ReadOne(h: Host, list: seq<Raw>, raw: Length, id: nat, rules: seq<Rule>) returns (next: seq<Rule>)
    requires HostOk(h)
    ensures forall r :: r in next <==> r in rules || (r.id == id && Standing(h, list, raw, id) == Some(r))
  {
    var r := Standing(h, list, raw, id);
    StandingHas(h, list, raw, id);
    next := if r.Some? && r.value !in rules then rules + [r.value] else rules;
  }

  function Served(h: Host, rules: seq<Rule>): (r: seq<Rule>)
    ensures forall x :: x in r <==> x in rules && (h.certificate || !x.certificate)
  {
    if rules == [] then []
    else
      assert rules == [rules[0]] + rules[1..];
      var rest := Served(h, rules[1..]);
      if h.certificate || !rules[0].certificate then [rules[0]] + rest else rest
  }

  lemma StandingHas(h: Host, list: seq<Raw>, raw: Length, id: nat)
    requires HostOk(h)
    ensures var r := Standing(h, list, raw, id);
            r.Some? ==> r.value.id == id && RuleOk(r.value) && (Below(h, id).Some? || EntryFor(h, list, id).Some?)
  {
    var entry := EntryFor(h, list, id);
    if entry.Some? { assert EntryOk(h, entry.value); }
  }

  lemma StandingHasId(h: Host, list: seq<Raw>, raw: Length)
    requires HostOk(h)
    ensures forall r: Rule :: Standing(h, list, raw, r.id) == Some(r) ==>
              (exists k :: 0 <= k < |h.base| && h.base[k].id == r.id)
              || (Below(h, r.id).None? && exists k :: 0 <= k < |list| && h.idOf(list[k]) == r.id)
  {
    forall r: Rule | Standing(h, list, raw, r.id) == Some(r)
      ensures (exists k :: 0 <= k < |h.base| && h.base[k].id == r.id)
              || (Below(h, r.id).None? && exists k :: 0 <= k < |list| && h.idOf(list[k]) == r.id)
    {
      StandingHas(h, list, raw, r.id);
    }
  }

  // ---- the longest look-back -------------------------------------------------------------------------

  function Reach(r: Rule): int { if r.forMs >= r.clearAfterMs then r.forMs else r.clearAfterMs }

  ghost predicate IsLongest(rules: seq<Rule>, longest: Option<LookBack>) {
    match longest
    case None => forall r :: r in rules ==> Reach(r) <= 0
    case Some(l) =>
      && l.ms > 0 && (exists r :: r in rules && r.id == l.rule && Reach(r) == l.ms)
      && forall r :: r in rules ==> Reach(r) <= l.ms
  }

  method LongestLookBack(rules: seq<Rule>) returns (longest: Option<LookBack>)
    ensures IsLongest(rules, longest)
  {
    longest := None;
    for i := 0 to |rules|
      invariant IsLongest(rules[..i], longest)
    {
      var ms := Reach(rules[i]);
      ghost var was := longest;
      if ms > 0 && (longest.None? || ms > longest.value.ms) {
        longest := Some(LookBack(ms, rules[i].id));
      }
      LongestGrows(rules[..i], rules[i], was, longest);
      assert rules[..i + 1] == rules[..i] + [rules[i]];
    }
    assert rules[..|rules|] == rules;
  }

  lemma LongestGrows(rules: seq<Rule>, r: Rule, was: Option<LookBack>, longest: Option<LookBack>)
    requires IsLongest(rules, was)
    requires longest
             == if Reach(r) > 0 && (was.None? || Reach(r) > was.value.ms) then Some(LookBack(Reach(r), r.id)) else was
    ensures IsLongest(rules + [r], longest)
  {
    if longest != was {
      assert r in rules + [r];
    } else if was.Some? {
      var x :| x in rules && x.id == was.value.rule && Reach(x) == was.value.ms;
      assert x in rules + [r];
    }
  }

  // ---- exactly which rules are in force --------------------------------------------------------------

  predicate Within(ms: int, raw: Length) { raw.Forever? || ms <= raw.n }

  predicate LooksWithin(r: Rule, raw: Length) { Within(r.forMs, raw) && Within(r.clearAfterMs, raw) }

  ghost predicate IsBuiltIn(h: Host, id: nat) { exists r :: r in h.base && r.id == id }

  /** A bare disable has something to disable, and an enabled rule can run and looks back within raw retention. */
  ghost predicate CanStand(h: Host, e: Entry, raw: Length) {
    && (e.rule.None? ==> IsBuiltIn(h, e.id))
    && (e.rule.Some? && !e.disabled ==> h.runs(e.rule.value) && LooksWithin(e.rule.value, raw))
  }

  lemma BelowIs(h: Host, id: nat)
    requires HostOk(h)
    ensures Below(h, id).Some? <==> IsBuiltIn(h, id)
    ensures forall r: Rule :: r.id == id ==> (r in h.base <==> Below(h, id) == Some(r))
  {
    forall r: Rule | r.id == id
      ensures r in h.base <==> Below(h, id) == Some(r)
    {
      if r in h.base {
        var i :| 0 <= i < |h.base| && h.base[i] == r;
        var j :| 0 <= j < |h.base| && h.base[j] == Below(h, id).value;
      }
    }
  }

  /** An entry is accepted exactly when it parses and can stand; else the answer says what is wrong. */
  lemma CheckExactly(h: Host, entry: Raw, raw: Length)
    requires HostOk(h)
    ensures var p, c := h.parseEntry(entry), Check(h, entry, raw);
            && (c.Ok? <==> p.Some? && CanStand(h, p.value, raw)) && (c.Ok? ==> p == Some(c.value))
            && (c.Err? ==> match c.error
                           case Unparsable => p.None?
                           case NothingToDisable => p.Some? && p.value.rule.None?
                           case CannotRun => p.Some? && p.value.rule.Some? && !h.runs(p.value.rule.value)
                           case LooksTooFar => p.Some? && p.value.rule.Some? && !LooksWithin(p.value.rule.value, raw)
                           case _ => false)
  {
    if h.parseEntry(entry).Some? { BelowIs(h, h.parseEntry(entry).value.id); }
  }

  /** The last saved entry with this id. */
  predicate IsLast(h: Host, list: seq<Raw>, id: nat, k: int) {
    0 <= k < |list| && h.idOf(list[k]) == id && forall i :: k < i < |list| ==> h.idOf(list[i]) != id
  }

  lemma {:induction false} EntryIsLast(h: Host, list: seq<Raw>, id: nat) returns (k: nat)
    requires EntryFor(h, list, id).Some?
    ensures IsLast(h, list, id, k) && list[k] == EntryFor(h, list, id).value
  {
    var n := |list| - 1;
    if h.idOf(list[n]) == id {
      k := n;
    } else {
      k := EntryIsLast(h, list[..n], id);
      LastOfFront(h, list, id, k);
    }
  }

  lemma LastOfFront(h: Host, list: seq<Raw>, id: nat, k: nat)
    requires |list| > 0 && IsLast(h, list[..|list| - 1], id, k) && h.idOf(list[|list| - 1]) != id
    ensures IsLast(h, list, id, k)
  {
    forall i | k < i < |list| - 1
      ensures h.idOf(list[i]) != id
    {
      assert list[..|list| - 1][i] == list[i];
    }
  }

  /**
   The rules in force are the built-in ones without a saved entry, and what the last entry of each id says: its rule if
   it can stand and is not disabled; the built-in one, as far as it looks back within raw retention, if it cannot. But
   no certificate rules with HTTPS off.
   */
  lemma InForceExactly(h: Host, list: seq<Raw>, raw: Length, r: Rule)
    requires HostOk(h)
    ensures InForce(h, list, raw, r) <==>
              && (h.certificate || !r.certificate)
              && if forall i :: 0 <= i < |list| ==> h.idOf(list[i]) != r.id then r in h.base
                 else exists k :: IsLast(h, list, r.id, k) && Says(h, list[k], raw, r)
  {
    BelowIs(h, r.id);
    if EntryFor(h, list, r.id).Some? {
      var k := EntryIsLast(h, list, r.id);
      SaysIs(h, list, raw, r, k);
      forall j | IsLast(h, list, r.id, j)
        ensures j == k
      {
      }
    }
  }

  /** The entry puts this rule in force for its id. */
  ghost predicate Says(h: Host, entry: Raw, raw: Length, r: Rule) {
    var p := h.parseEntry(entry);
    if p.Some? && CanStand(h, p.value, raw) then !p.value.disabled && p.value.rule == Some(r)
    else r in h.base && LooksWithin(r, raw)
  }

  lemma SaysIs(h: Host, list: seq<Raw>, raw: Length, r: Rule, k: int)
    requires HostOk(h) && IsLast(h, list, r.id, k) && EntryFor(h, list, r.id) == Some(list[k])
    ensures Standing(h, list, raw, r.id) == Some(r) <==> Says(h, list[k], raw, r)
  {
    BelowIs(h, r.id);
    CheckExactly(h, list[k], raw);
    assert EntryOk(h, list[k]);
  }
}
