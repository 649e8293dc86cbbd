/** Saving rules and retention: whatever is accepted, every rule in force stays within raw retention. */
module Settings {
  import opened Results
  import opened Retention
  import opened Rules

  /** What is stored: the saved rules, and the saved retention. */
  datatype Store = Store(rules: seq<Raw>, retention: Values<Json>)

  datatype Answer = Done | Refused(problem: Problem) | NotSaved | BadRetention | NeedsConfirmation

  function RawOf(h: Host, s: Store): Length
    requires Resolve(h.parse, h.env, s.retention).Ok?
  {
    Resolve(h.parse, h.env, s.retention).value[0].length
  }

  predicate RuleInForce(h: Host, s: Store, r: Rule)
    requires Resolve(h.parse, h.env, s.retention).Ok?
  {
    InForce(h, s.rules, RawOf(h, s), r)
  }

  /** The retention in force resolves, in order, and raw retention serves every rule in force. */
  ghost predicate Sound(h: Host, s: Store) {
    && Resolve(h.parse, h.env, s.retention).Ok?
    && forall r :: RuleInForce(h, s, r) ==> Fits(r, RawOf(h, s))
  }

  // ---- the operations ----------------------------------------------------------------------------------

  /** Where the list holds an entry with this id. */
  function IndexOf(h: Host, list: seq<Raw>, id: nat): (i: Option<nat>)
    ensures i.Some? ==>
              i.value < |list| && h.idOf(list[i.value]) == id
              && forall k :: 0 <= k < i.value ==> h.idOf(list[k]) != id
    ensures i.None? ==> forall k :: 0 <= k < |list| ==> h.idOf(list[k]) != id
  {
    IndexFrom(h, list, id, 0)
  }

  function IndexFrom(h: Host, list: seq<Raw>, id: nat, from: nat): (i: Option<nat>)
    requires from <= |list|
    ensures i.Some? ==>
              from <= i.value < |list| && h.idOf(list[i.value]) == id
              && forall k :: from <= k < i.value ==> h.idOf(list[k]) != id
    ensures i.None? ==> forall k :: from <= k < |list| ==> h.idOf(list[k]) != id
    decreases |list| - from
  {
    if from == |list| then None
    else if h.idOf(list[from]) == id then Some(from)
    else IndexFrom(h, list, id, from + 1)
  }

  /** The list with the entry in the place of the one with its id, or at the end. */
  function Placed(h: Host, list: seq<Raw>, entry: Raw, id: nat): seq<Raw> {
    var at := IndexOf(h, list, id);
    if at.Some? then list[at.value := entry] else list + [entry]
  }

  function Write(h: Host, s: Store, entry: Raw): (Store, Answer)
    requires Resolve(h.parse, h.env, s.retention).Ok?
  {
    match Check(h, entry, RawOf(h, s))
    case Err(problem) => (s, Refused(problem))
    case Ok(e) =>
      if IndexOf(h, s.rules, e.id).None? && |s.rules| >= MAX_SAVED_RULES then (s, Refused(TooMany))
      else (s.(rules := Placed(h, s.rules, entry, e.id)), Done)
  }

  function Create(h: Host, s: Store, entry: Raw): (Store, Answer)
    requires Resolve(h.parse, h.env, s.retention).Ok?
  {
    var id := h.idOf(entry);
    if id != UNKNOWN && (Below(h, id).Some? || IndexOf(h, s.rules, id).Some?) then (s, Refused(Taken))
    else Write(h, s, entry)
  }

  function Without(h: Host, list: seq<Raw>, id: nat): (rest: seq<Raw>)
    ensures |rest| <= |list| && (|rest| == |list| ==> rest == list)
    ensures |rest| == |list| <==> forall k :: 0 <= k < |list| ==> h.idOf(list[k]) != id
    ensures forall k :: 0 <= k < |rest| ==> h.idOf(rest[k]) != id
  {
    if list == [] then []
    else
      assert forall k :: 1 <= k < |list| ==> list[k] == list[1..][k - 1];
      if h.idOf(list[0]) == id then Without(h, list[1..], id) else [list[0]] + Without(h, list[1..], id)
  }

  function Remove(h: Host, s: Store, id: nat): (Store, Answer)
    requires Resolve(h.parse, h.env, s.retention).Ok?
  {
    var rest := Without(h, s.rules, id);
    if |rest| == |s.rules| then (s, NotSaved)
    else if Below(h, id).Some? && !Fits(Below(h, id).value, RawOf(h, s)) then (s, Refused(LooksTooFar))
    else (s.(rules := rest), Done)
  }

  /** The proposal reads, keeps the levels in order, and serves every rule in force. */
  ghost predicate MayPut(h: Host, s: Store, proposal: Values<string>)
    requires Resolve(h.parse, h.env, s.retention).Ok?
  {
    var current := Resolve(h.parse, h.env, s.retention).value;
    && Readable(h.parse, proposal, current)
    && var levels := ProposedLevels(h.parse, proposal, current);
       InOrder(levels) && forall r :: RuleInForce(h, s, r) ==> Fits(r, levels[0].length)
  }

  function Put(h: Host, s: Store, proposal: Values<string>): Store
    requires Resolve(h.parse, h.env, s.retention).Ok?
             && Readable(h.parse, proposal, Resolve(h.parse, h.env, s.retention).value)
  {
    s.(retention := SavedOf(ProposedLevels(h.parse, proposal, Resolve(h.parse, h.env, s.retention).value)))
  }

  /** Raw retention as long as the longest look-back serves every rule in force, and no shorter one does. */
  lemma LongestServes(h: Host, s: Store, inForce: seq<Rule>, longest: Option<LookBack>)
    requires HostOk(h) && Resolve(h.parse, h.env, s.retention).Ok? && IsLongest(inForce, longest)
    requires forall r :: r in inForce <==> RuleInForce(h, s, r)
    ensures forall raw: Length :: (raw.Ms? ==> raw.n >= 0) ==>
              (Serves(raw, longest) <==> forall r :: RuleInForce(h, s, r) ==> Fits(r, raw))
  {
    forall raw: Length | raw.Ms? ==> raw.n >= 0
      ensures Serves(raw, longest) <==> forall r :: RuleInForce(h, s, r) ==> Fits(r, raw)
    {
      forall r | r in inForce
        ensures Serves(raw, longest) ==> Fits(r, raw)
      {
        StandingHas(h, s.rules, RawOf(h, s), r.id);
      }
      if longest.Some? {
        var x :| x in inForce && x.id == longest.value.rule && Reach(x) == longest.value.ms;
        assert Fits(x, raw) ==> Serves(raw, longest);
      }
    }
  }

  class SettingsDb {
    const h: Host
    var rules: seq<Raw>
    var retention: Values<Json>

    ghost function Stored(): Store
      reads this
    {
      Store(rules, retention)
    }

    constructor (h: Host, s: Store)
      ensures this.h == h && Stored() == s
    {
      this.h, rules, retention := h, s.rules, s.retention;
    }

    /** The retention in force, read from the store. */
    method Levels() returns (levels: Levels)
      requires Resolve(h.parse, h.env, retention).Ok?
      ensures Resolve(h.parse, h.env, retention) == Ok(levels)
    {
      var r := ResolveLevels(h.parse, h.env, retention);
      levels := r.value;
    }

    /** Checks the entry and writes it into the list, which is then stored. */
    method WriteRule(entry: Raw) returns (answer: Answer)
      requires Resolve(h.parse, h.env, retention).Ok?
      modifies `rules
      ensures (Stored(), answer) == Write(h, old(Stored()), entry)
    {
      var levels := Levels();
      var checked := Check(h, entry, levels[0].length);
      if checked.Err? { return Refused(checked.error); }
      var list := rules;
      var at := IndexOf(h, list, checked.value.id);
      if at.Some? {
        list := list[at.value := entry];
      } else if |list| >= MAX_SAVED_RULES {
        return Refused(TooMany);
      } else {
        list := list + [entry];
      }
      rules := list;
      answer := Done;
    }

    method CreateRule(entry: Raw) returns (answer: Answer)
      requires Resolve(h.parse, h.env, retention).Ok?
      modifies `rules
      ensures (Stored(), answer) == Create(h, old(Stored()), entry)
    {
      var id := h.idOf(entry);
      if id != UNKNOWN && (Below(h, id).Some? || IndexOf(h, rules, id).Some?) { return Refused(Taken); }
      answer := WriteRule(entry);
    }

    method RemoveRule(id: nat) returns (answer: Answer)
      requires Resolve(h.parse, h.env, retention).Ok?
      modifies `rules
      ensures (Stored(), answer) == Remove(h, old(Stored()), id)
    {
      var rest := Without(h, rules, id);
      if |rest| == |rules| { return NotSaved; }
      var under := Below(h, id);
      if under.Some? {
        var levels := Levels();
        if !Fits(under.value, levels[0].length) { return Refused(LooksTooFar); }
      }
      rules := rest;
      answer := Done;
    }

    /** The settings page's save: check against the rules in force, then store. */
    method PutRetention(proposal: Values<string>, deletesRows: bool, confirmed: bool) returns (answer: Answer)
      requires Resolve(h.parse, h.env, retention).Ok? && HostOk(h)
      modifies `retention
      ensures answer.Done? ==>
                MayPut(h, old(Stored()), proposal) && Stored() == Put(h, old(Stored()), proposal)
                && (deletesRows ==> confirmed)
      ensures answer.NeedsConfirmation? ==> MayPut(h, old(Stored()), proposal) && deletesRows && !confirmed
      ensures answer.BadRetention? ==> !MayPut(h, old(Stored()), proposal)
      ensures !answer.Done? ==> Stored() == old(Stored())
    {
      var current := Levels();
      var inForce := Read(h, rules, current[0].length);
      var longest := LongestLookBack(inForce);
      var checked := ValidateRetention(h.parse, proposal, current, longest);
      PutIsChecked(h, Stored(), proposal, inForce, longest);
      if checked.Err? { return BadRetention; }
      if deletesRows && !confirmed { return NeedsConfirmation; }
      retention := SavedOf(checked.value);
      answer := Done;
    }
  }

  /** The longest look-back decides whether a proposal may be stored. */
  lemma PutIsChecked(h: Host, s: Store, proposal: Values<string>, inForce: seq<Rule>, longest: Option<LookBack>)
    requires HostOk(h) && Resolve(h.parse, h.env, s.retention).Ok? && IsLongest(inForce, longest)
    requires forall r :: r in inForce <==> RuleInForce(h, s, r)
    ensures var current := Resolve(h.parse, h.env, s.retention).value;
            MayPut(h, s, proposal) <==>
              && Readable(h.parse, proposal, current)
              && Acceptable(ProposedLevels(h.parse, proposal, current), longest)
  {
    var current := Resolve(h.parse, h.env, s.retention).value;
    if Readable(h.parse, proposal, current) {
      ServesInForce(h, s, inForce, longest, ProposedLevels(h.parse, proposal, current));
    }
  }

  lemma ServesInForce(h: Host, s: Store, inForce: seq<Rule>, longest: Option<LookBack>, levels: Levels)
    requires HostOk(h) && Resolve(h.parse, h.env, s.retention).Ok? && IsLongest(inForce, longest)
    requires forall r :: r in inForce <==> RuleInForce(h, s, r)
    requires levels[0].length.Ms? ==> levels[0].length.n >= 0
    ensures Acceptable(levels, longest) <==>
              InOrder(levels) && forall r :: RuleInForce(h, s, r) ==> Fits(r, levels[0].length)
  {
    LongestServes(h, s, inForce, longest);
  }

  // ---- what every operation keeps ------------------------------------------------------------------------

  /** A rule with a saved entry is only in force if it fits. */
  lemma SavedFits(h: Host, list: seq<Raw>, raw: Length, r: Rule)
    requires HostOk(h) && InForce(h, list, raw, r) && EntryFor(h, list, r.id).Some?
    ensures Fits(r, raw)
  {
    assert EntryOk(h, EntryFor(h, list, r.id).value);
  }

  /** Rules without a saved entry were in force before, so the others are what matters. */
  lemma StillSound(h: Host, s: Store, rules: seq<Raw>)
    requires HostOk(h) && Sound(h, s)
    requires forall id: nat :: EntryFor(h, rules, id).None? ==>
               EntryFor(h, s.rules, id).None? || Below(h, id).None? || Fits(Below(h, id).value, RawOf(h, s))
    ensures Sound(h, s.(rules := rules))
  {
    var v := s.(rules := rules);
    forall r | RuleInForce(h, v, r)
      ensures Fits(r, RawOf(h, v))
    {
      if EntryFor(h, rules, r.id).Some? {
        SavedFits(h, rules, RawOf(h, v), r);
      } else if EntryFor(h, s.rules, r.id).None? {
        assert RuleInForce(h, s, r);
      }
    }
  }

  lemma PlacedHas(h: Host, list: seq<Raw>, entry: Raw, id: nat)
    requires h.idOf(entry) == id
    ensures forall k: nat :: EntryFor(h, Placed(h, list, entry, id), k).None? ==> EntryFor(h, list, k).None?
  {
    var p, at := Placed(h, list, entry, id), IndexOf(h, list, id);
    forall k: nat | EntryFor(h, p, k).None?
      ensures EntryFor(h, list, k).None?
    {
      forall i | 0 <= i < |list|
        ensures h.idOf(list[i]) != k
      {
        assert h.idOf(p[i]) == h.idOf(list[i]);
      }
    }
  }

  lemma WriteKeeps(h: Host, s: Store, entry: Raw)
    requires HostOk(h) && Sound(h, s)
    ensures Sound(h, Write(h, s, entry).0)
  {
    if Write(h, s, entry).1.Done? {
      assert EntryOk(h, entry);
      PlacedHas(h, s.rules, entry, h.idOf(entry));
      StillSound(h, s, Write(h, s, entry).0.rules);
    }
  }

  lemma {:induction false} WithoutKeeps(h: Host, list: seq<Raw>, id: nat, k: nat)
    requires k != id
    ensures EntryFor(h, Without(h, list, id), k) == EntryFor(h, list, k)
    decreases |list|
  {
    if list != [] {
      WithoutKeeps(h, list[1..], id, k);
      EntryForCons(h, list, k);
      var rest := Without(h, list[1..], id);
      if h.idOf(list[0]) != id {
        assert ([list[0]] + rest)[1..] == rest;
        EntryForCons(h, [list[0]] + rest, k);
      }
    }
  }

  lemma {:induction false} EntryForCons(h: Host, list: seq<Raw>, k: nat)
    requires |list| > 0
    ensures var rest := EntryFor(h, list[1..], k);
            EntryFor(h, list, k) == if rest.Some? then rest else if h.idOf(list[0]) == k then Some(list[0]) else None
  {
    var n := |list| - 1;
    if n > 0 {
      EntryForCons(h, list[..n], k);
      assert list[..n][1..] == list[1..][..n - 1] && list[1..][n - 1] == list[n];
    }
  }

  lemma RemoveKeeps(h: Host, s: Store, id: nat)
    requires HostOk(h) && Sound(h, s)
    ensures Sound(h, Remove(h, s, id).0)
  {
    if Remove(h, s, id).1.Done? {
      var rest := Without(h, s.rules, id);
      forall k: nat | EntryFor(h, rest, k).None?
        ensures EntryFor(h, s.rules, k).None? || Below(h, k).None? || Fits(Below(h, k).value, RawOf(h, s))
      {
        if k != id { WithoutKeeps(h, s.rules, id, k); }
      }
      StillSound(h, s, rest);
    }
  }

  /** Re-resolving gives the levels that were checked. */
  lemma PutResolves(h: Host, s: Store, proposal: Values<string>)
    requires Sound(h, s) && MayPut(h, s, proposal)
    ensures Resolve(h.parse, h.env, Put(h, s, proposal).retention) ==
            Ok(ProposedLevels(h.parse, proposal, Resolve(h.parse, h.env, s.retention).value))
  {
    SaveThenResolve(h.parse, h.env, s.retention, proposal, None);
  }

  lemma PutKeeps(h: Host, s: Store, proposal: Values<string>)
    requires HostOk(h) && Sound(h, s) && MayPut(h, s, proposal)
    ensures Sound(h, Put(h, s, proposal))
  {
    PutResolves(h, s, proposal);
    var v := Put(h, s, proposal);
    forall r | RuleInForce(h, v, r)
      ensures Fits(r, RawOf(h, v))
    {
      if EntryFor(h, s.rules, r.id).Some? {
        SavedFits(h, s.rules, RawOf(h, v), r);
      } else {
        assert RuleInForce(h, s, r);
      }
    }
  }

  // ---- runs ------------------------------------------------------------------------------------------------

  datatype Op = SaveRule(entry: Raw) | AddRule(entry: Raw) | RemoveRule(id: nat)
      | SaveRetention(proposal: Values<string>)

  ghost predicate Allowed(h: Host, s: Store, op: Op) {
    Resolve(h.parse, h.env, s.retention).Ok? && (op.SaveRetention? ==> MayPut(h, s, op.proposal))
  }

  ghost function After(h: Host, s: Store, op: Op): Store
    requires Allowed(h, s, op)
  {
    match op
    case SaveRule(entry) => Write(h, s, entry).0
    case AddRule(entry) => Create(h, s, entry).0
    case RemoveRule(id) => Remove(h, s, id).0
    case SaveRetention(proposal) => Put(h, s, proposal)
  }

  ghost predicate Accepted(h: Host, s: Store, ops: seq<Op>)
    decreases |ops|
  {
    ops == [] || (Allowed(h, s, ops[0]) && Accepted(h, After(h, s, ops[0]), ops[1..]))
  }

  ghost function Play(h: Host, s: Store, ops: seq<Op>): Store
    requires Accepted(h, s, ops)
    decreases |ops|
  {
    if ops == [] then s else Play(h, After(h, s, ops[0]), ops[1..])
  }

  /**
   The joint invariant: from a start that passed its check, after any sequence of rule saves, creations and
   removals and of retention saves, the four levels are in order and every rule in force looks back no further
   than raw retention.
   */
  lemma {:induction false} RulesStayServed(h: Host, s: Store, ops: seq<Op>)
    requires HostOk(h) && Sound(h, s) && Accepted(h, s, ops)
    ensures Sound(h, Play(h, s, ops)) && InOrder(Resolve(h.parse, h.env, Play(h, s, ops).retention).value)
    decreases |ops|
  {
    if ops != [] {
      AfterIsSound(h, s, ops[0]);
      RulesStayServed(h, After(h, s, ops[0]), ops[1..]);
    }
  }

  lemma AfterIsSound(h: Host, s: Store, op: Op)
    requires HostOk(h) && Sound(h, s) && Allowed(h, s, op)
    ensures Sound(h, After(h, s, op))
  {
    match op
    case SaveRule(entry) => WriteKeeps(h, s, entry);
    case AddRule(entry) => WriteKeeps(h, s, entry);
    case RemoveRule(id) => RemoveKeeps(h, s, id);
    case SaveRetention(proposal) => PutKeeps(h, s, proposal);
  }

  // ---- what takes effect -------------------------------------------------------------------------------------

  /** No two saved entries share an id. */
  predicate Tidy(h: Host, list: seq<Raw>) { forall i, j :: 0 <= i < j < |list| ==> h.idOf(list[i]) != h.idOf(list[j]) }

  lemma {:induction false} EntryAt(h: Host, list: seq<Raw>, i: nat)
    requires Tidy(h, list) && i < |list|
    ensures EntryFor(h, list, h.idOf(list[i])) == Some(list[i])
  {
    if i < |list| - 1 {
      EntryAt(h, list[..|list| - 1], i);
    }
  }

  /**
   A rule that was saved is what stands for its id, or nothing is if it was saved disabled; others stand as before.
   */
  lemma SaveTakesEffect(h: Host, s: Store, entry: Raw)
    requires HostOk(h) && Sound(h, s) && Tidy(h, s.rules) && Write(h, s, entry).1.Done?
    ensures var v, e := Write(h, s, entry).0, h.parseEntry(entry).value;
            && Tidy(h, v.rules) && Standing(h, v.rules, RawOf(h, v), e.id) == (if e.disabled then None else e.rule)
            && forall k: nat :: k != e.id ==>
                 Standing(h, v.rules, RawOf(h, v), k)
                 == Standing(h, s.rules, RawOf(h, s), k)
  {
    var v, id := Write(h, s, entry).0, h.idOf(entry);
    assert EntryOk(h, entry);
    var at := IndexOf(h, s.rules, id);
    EntryAt(h, v.rules, if at.Some? then at.value else |s.rules|);
    forall k: nat | k != id
      ensures EntryFor(h, v.rules, k) == EntryFor(h, s.rules, k)
    {
      PlacedElsewhere(h, s.rules, entry, id, k);
    }
  }

  lemma {:induction false} ReplacedElsewhere(h: Host, list: seq<Raw>, entry: Raw, at: nat, k: nat)
    requires at < |list| && h.idOf(list[at]) != k && h.idOf(entry) != k
    ensures EntryFor(h, list[at := entry], k) == EntryFor(h, list, k)
  {
    var n := |list| - 1;
    if at < n {
      assert list[at := entry][..n] == list[..n][at := entry];
      ReplacedElsewhere(h, list[..n], entry, at, k);
    } else {
      assert list[at := entry][..n] == list[..n];
    }
  }

  lemma PlacedElsewhere(h: Host, list: seq<Raw>, entry: Raw, id: nat, k: nat)
    requires h.idOf(entry) == id && k != id
    ensures EntryFor(h, Placed(h, list, entry, id), k) == EntryFor(h, list, k)
  {
    var at := IndexOf(h, list, id);
    if at.Some? {
      ReplacedElsewhere(h, list, entry, at.value, k);
    } else {
      assert (list + [entry])[..|list|] == list;
    }
  }

  /** Removing an entry puts back what is below it, and leaves the others. */
  lemma RemoveRestores(h: Host, s: Store, id: nat)
    requires HostOk(h) && Sound(h, s) && Remove(h, s, id).1.Done?
    ensures var v := Remove(h, s, id).0;
            && Standing(h, v.rules, RawOf(h, v), id) == Below(h, id)
            && forall k: nat :: k != id ==> Standing(h, v.rules, RawOf(h, v), k) == Standing(h, s.rules, RawOf(h, s), k)
  {
    forall k: nat | k != id
      ensures EntryFor(h, Without(h, s.rules, id), k) == EntryFor(h, s.rules, k)
    {
      WithoutKeeps(h, s.rules, id, k);
    }
  }

  /** An accepted retention save puts no rule out of force: each id that had a rule in force has one still. */
  lemma PutKeepsInForce(h: Host, s: Store, proposal: Values<string>, r: Rule)
    requires HostOk(h) && Sound(h, s) && MayPut(h, s, proposal) && RuleInForce(h, s, r)
    ensures PutResolved(h, s, proposal)
    ensures exists q: Rule :: q.id == r.id && RuleInForce(h, Put(h, s, proposal), q)
  {
    PutResolves(h, s, proposal);
    var v := Put(h, s, proposal);
    var entry := EntryFor(h, s.rules, r.id);
    assert Fits(r, RawOf(h, v));
    if entry.Some? {
      assert EntryOk(h, entry.value);
      if Check(h, entry.value, RawOf(h, s)).Err? && Check(h, entry.value, RawOf(h, v)).Ok? {
        assert RuleInForce(h, v, h.parseEntry(entry.value).value.rule.value);
      } else {
        assert RuleInForce(h, v, r);
      }
    } else {
      assert RuleInForce(h, v, r);
    }
  }

  predicate PutResolved(h: Host, s: Store, proposal: Values<string>) {
    && Resolve(h.parse, h.env, s.retention).Ok?
       && Readable(h.parse, proposal, Resolve(h.parse, h.env, s.retention).value)
    && Resolve(h.parse, h.env, Put(h, s, proposal).retention).Ok?
  }

  /** The saved list never outgrows its limit, and stays without duplicates. */
  lemma {:induction false} ListStaysSmall(h: Host, s: Store, ops: seq<Op>)
    requires HostOk(h) && Sound(h, s) && Accepted(h, s, ops) && |s.rules| <= MAX_SAVED_RULES && Tidy(h, s.rules)
    ensures |Play(h, s, ops).rules| <= MAX_SAVED_RULES && Tidy(h, Play(h, s, ops).rules)
    decreases |ops|
  {
    if ops != [] {
      AfterIsSound(h, s, ops[0]);
      AfterIsTidy(h, s, ops[0]);
      ListStaysSmall(h, After(h, s, ops[0]), ops[1..]);
    }
  }

  lemma AfterIsTidy(h: Host, s: Store, op: Op)
    requires HostOk(h) && Sound(h, s) && Allowed(h, s, op) && |s.rules| <= MAX_SAVED_RULES && Tidy(h, s.rules)
    ensures |After(h, s, op).rules| <= MAX_SAVED_RULES && Tidy(h, After(h, s, op).rules)
  {
    match op
    case SaveRule(entry) => WriteIsTidy(h, s, entry);
    case AddRule(entry) => WriteIsTidy(h, s, entry);
    case RemoveRule(id) => WithoutIsTidy(h, s.rules, id);
    case SaveRetention(_) =>
  }

  lemma WriteIsTidy(h: Host, s: Store, entry: Raw)
    requires HostOk(h) && Sound(h, s) && |s.rules| <= MAX_SAVED_RULES && Tidy(h, s.rules)
    ensures |Write(h, s, entry).0.rules| <= MAX_SAVED_RULES && Tidy(h, Write(h, s, entry).0.rules)
  {
    assert EntryOk(h, entry);
  }

  lemma {:induction false} WithoutIsTidy(h: Host, list: seq<Raw>, id: nat)
    requires Tidy(h, list)
    ensures Tidy(h, Without(h, list, id))
            && forall i :: 0 <= i < |Without(h, list, id)| ==> Without(h, list, id)[i] in list
  {
    if list != [] {
      WithoutIsTidy(h, list[1..], id);
      var rest := Without(h, list[1..], id);
      forall j | 0 <= j < |rest|
        ensures h.idOf(rest[j]) != h.idOf(list[0])
      {
        var k :| 0 <= k < |list[1..]| && list[1..][k] == rest[j];
        assert list[k + 1] == rest[j];
      }
    }
  }

  // ---- exactly what is accepted ------------------------------------------------------------------------------

  ghost predicate HasEntry(h: Host, list: seq<Raw>, id: nat) { exists i :: 0 <= i < |list| && h.idOf(list[i]) == id }

  /** A save is done exactly when the entry can stand and there is room, or one with its id to replace. */
  lemma SavesExactly(h: Host, s: Store, entry: Raw)
    requires HostOk(h) && Resolve(h.parse, h.env, s.retention).Ok?
    ensures var p, w := h.parseEntry(entry), Write(h, s, entry);
            && (w.1.Done? <==> p.Some? && CanStand(h, p.value, RawOf(h, s))
                               && (|s.rules| < 200 || HasEntry(h, s.rules, p.value.id)))
            && (!w.1.Done? ==> w.0 == s)
  {
    CheckExactly(h, entry, RawOf(h, s));
  }

  /** A new rule is saved exactly when its id is new as well, and there is room. */
  lemma CreatesExactly(h: Host, s: Store, entry: Raw)
    requires HostOk(h) && Resolve(h.parse, h.env, s.retention).Ok?
    ensures var p, w := h.parseEntry(entry), Create(h, s, entry);
            && (w.1.Done? <==> p.Some? && CanStand(h, p.value, RawOf(h, s)) && |s.rules| < 200
                               && !IsBuiltIn(h, p.value.id) && !HasEntry(h, s.rules, p.value.id))
            && (!w.1.Done? ==> w.0 == s)
  {
    assert EntryOk(h, entry);
    SavesExactly(h, s, entry);
    BelowIs(h, h.idOf(entry));
  }

  /** An entry is removed exactly when there is one and the rule below it, if any, looks back within raw retention. */
  lemma RemovesExactly(h: Host, s: Store, id: nat)
    requires HostOk(h) && Resolve(h.parse, h.env, s.retention).Ok?
    ensures var w := Remove(h, s, id);
            && (w.1.Done? <==> HasEntry(h, s.rules, id)
                               && forall r :: r in h.base && r.id == id ==> LooksWithin(r, RawOf(h, s)))
            && (w.1.Done? ==> !HasEntry(h, w.0.rules, id)) && (!w.1.Done? ==> w.0 == s)
  {
    BelowIs(h, id);
  }
}
