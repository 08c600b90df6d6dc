/**
 * The list of paths whose responses may be cached. Which paths a pattern matches and which are denied are parameters.
 */
module CacheExceptions {
  import opened Wrappers
  import opened Text

  datatype Path = Literal(path: string) | Pattern(source: string, flags: string)

  datatype Entry = Entry(path: Path, source: string, reason: string)

  /** Matching by a regular expression, the hard deny list, and the denied paths a new pattern is tried against. */
  datatype Rules = Rules(test: (Path, string) -> bool, denied: string -> bool, probes: seq<string>)

  predicate Matches(rules: Rules, e: Entry, path: string) {
    match e.path
    case Literal(p) => p == path
    case Pattern(_, _) => rules.test(e.path, path)
  }

  // ---------------------------------------------------------------- what a plugin may hand over

  datatype RawPath = Text(s: string) | Regex(source: string, flags: string) | Neither

  datatype Raw = Raw(path: RawPath, source: Option<string>, reason: Option<string>)

  datatype Error =
    | NoSource | NoReason | NotAbsolute | Stateful | NotAnchored | NotAPath | Denied | MatchesDenied(probe: string)
    | Overlaps(other: Entry)

  predicate Blank(s: Option<string>) {
    s == None || Trim(s.value) == ""
  }

  /** A pattern's source with its escaped slashes made plain. */
  function PlainSlashes(source: string): string {
    if |source| < 2 then source
    else if source[0] == '\\' && source[1] == '/' then "/" + PlainSlashes(source[2..])
    else [source[0]] + PlainSlashes(source[1..])
  }

  function FirstProbe(rules: Rules, path: Path, probes: seq<string>): Option<string> {
    if probes == [] then None
    else if rules.test(path, probes[0]) then Some(probes[0])
    else FirstProbe(rules, path, probes[1..])
  }

  function Check(rules: Rules, raw: Raw): Result<Entry, Error> {
    if Blank(raw.source) then Err(NoSource)
    else if Blank(raw.reason) then Err(NoReason)
    else
      match raw.path
      case Text(s) =>
        if !StartsWith(s, "/") then Err(NotAbsolute)
        else if rules.denied(s) then Err(Denied)
        else Ok(Entry(Literal(s), raw.source.value, raw.reason.value))
      case Regex(source, flags) =>
        if 'g' in flags || 'y' in flags then Err(Stateful)
        else if !StartsWith(source, "^") || !EndsWith(source, "$") then Err(NotAnchored)
        else if rules.denied(PlainSlashes(source)) then Err(Denied)
        else
          var probe := FirstProbe(rules, Pattern(source, flags), rules.probes);
          if probe.Some? then Err(MatchesDenied(probe.value))
          else Ok(Entry(Pattern(source, flags), raw.source.value, raw.reason.value))
      case Neither => Err(NotAPath)
  }

  /** Two patterns are compared by identity only. */
  predicate Overlap(rules: Rules, a: Entry, b: Entry) {
    || a.path == b.path
    || (if a.path.Literal? then Matches(rules, b, a.path.path) else b.path.Literal? && Matches(rules, a, b.path.path))
  }

  function FirstOverlap(rules: Rules, list: seq<Entry>, e: Entry): Option<Entry> {
    if list == [] then None
    else if Overlap(rules, list[0], e) then Some(list[0])
    else FirstOverlap(rules, list[1..], e)
  }

  function Stage(rules: Rules, raws: seq<Raw>, existing: seq<Entry>, staged: seq<Entry>): Result<seq<Entry>, Error>
    decreases |raws|
  {
    if raws == [] then Ok(staged)
    else
      var added := Admit(rules, raws[0], existing + staged);
      if added.Err? then Err(added.error) else Stage(rules, raws[1..], existing, staged + [added.value])
  }

  /** A good entry that overlaps none of the list. */
  function Admit(rules: Rules, raw: Raw, list: seq<Entry>): Result<Entry, Error> {
    var checked := Check(rules, raw);
    if checked.Err? then checked
    else
      var clash := FirstOverlap(rules, list, checked.value);
      if clash.Some? then Err(Overlaps(clash.value)) else checked
  }

  method ValidateExceptions(rules: Rules, raws: seq<Raw>, existing: seq<Entry>) returns (r: Result<seq<Entry>, Error>)
    ensures r == Stage(rules, raws, existing, [])
  {
    var staged: seq<Entry> := [];
    for i := 0 to |raws|
      invariant Stage(rules, raws, existing, []) == Stage(rules, raws[i..], existing, staged)
    {
      var added := Admit(rules, raws[i], existing + staged);
      if added.Err? { return Err(added.error); }
      staged := staged + [added.value];
    }
    return Ok(staged);
  }

  // ---------------------------------------------------------------- what an accepted list promises

  /** A literal entry's path is matched by no other entry. */
  predicate Exclusive(rules: Rules, list: seq<Entry>) {
    forall i, j :: 0 <= i < |list| && 0 <= j < |list| && i != j && list[i].path.Literal? ==>
      !Matches(rules, list[j], list[i].path.path)
  }

  lemma {:induction false} NoOverlapMeans(rules: Rules, list: seq<Entry>, e: Entry)
    requires FirstOverlap(rules, list, e) == None
    ensures forall i :: 0 <= i < |list| ==> !Overlap(rules, list[i], e)
  {
    if list != [] { NoOverlapMeans(rules, list[1..], e); }
  }

  lemma ExclusiveGrows(rules: Rules, list: seq<Entry>, e: Entry)
    requires Exclusive(rules, list) && FirstOverlap(rules, list, e) == None
    ensures Exclusive(rules, list + [e])
  {
    NoOverlapMeans(rules, list, e);
  }

  lemma AdmitMeans(rules: Rules, raw: Raw, list: seq<Entry>)
    requires Exclusive(rules, list) && Admit(rules, raw, list).Ok?
    ensures Admit(rules, raw, list) == Check(rules, raw) && Exclusive(rules, list + [Admit(rules, raw, list).value])
  {
    ExclusiveGrows(rules, list, Check(rules, raw).value);
  }

  predicate AllGood(rules: Rules, raws: seq<Raw>) {
    forall i :: 0 <= i < |raws| ==> Check(rules, raws[i]).Ok?
  }

  function Values(rules: Rules, raws: seq<Raw>): (r: seq<Entry>)
    requires AllGood(rules, raws)
    ensures |r| == |raws| && forall i :: 0 <= i < |r| ==> r[i] == Check(rules, raws[i]).value
  {
    seq(|raws|, i requires 0 <= i < |raws| => Check(rules, raws[i]).value)
  }

  lemma ValuesStart(rules: Rules, raws: seq<Raw>, staged: seq<Entry>)
    requires raws != [] && Check(rules, raws[0]).Ok? && AllGood(rules, raws[1..])
    ensures AllGood(rules, raws)
    ensures staged + [Check(rules, raws[0]).value] + Values(rules, raws[1..]) == staged + Values(rules, raws)
  {
    forall i | 0 <= i < |raws| ensures Check(rules, raws[i]).Ok? {
      if i > 0 { assert raws[i] == raws[1..][i - 1]; }
    }
    assert [Check(rules, raws[0]).value] + Values(rules, raws[1..]) == Values(rules, raws);
  }

  lemma {:induction false} StageMeans(rules: Rules, raws: seq<Raw>, existing: seq<Entry>, staged: seq<Entry>)
    requires Exclusive(rules, existing + staged) && Stage(rules, raws, existing, staged).Ok?
    ensures AllGood(rules, raws) && Stage(rules, raws, existing, staged).value == staged + Values(rules, raws)
    ensures Exclusive(rules, existing + Stage(rules, raws, existing, staged).value)
    decreases |raws|
  {
    if raws == [] {
      assert staged + Values(rules, raws) == staged;
    } else {
      AdmitMeans(rules, raws[0], existing + staged);
      var next := staged + [Check(rules, raws[0]).value];
      assert existing + next == existing + staged + [Check(rules, raws[0]).value];
      StageMeans(rules, raws[1..], existing, next);
      ValuesStart(rules, raws, staged);
    }
  }

  /**
   * Accepted entries are the given ones, in order; and when one matches a path as a literal, no other entry, old or
   * new, matches that path.
   */
  lemma AcceptedEntries(rules: Rules, raws: seq<Raw>, existing: seq<Entry>)
    requires Exclusive(rules, existing) && Stage(rules, raws, existing, []).Ok?
    ensures AllGood(rules, raws) && Stage(rules, raws, existing, []).value == Values(rules, raws)
    ensures Exclusive(rules, existing + Values(rules, raws))
  {
    assert existing + [] == existing;
    StageMeans(rules, raws, existing, []);
    assert [] + Values(rules, raws) == Values(rules, raws);
  }

  /** Nothing the deny list covers, and no pattern that matches a path it is tried against. */
  predicate Allowed(rules: Rules, path: Path) {
    match path
    case Literal(p) => StartsWith(p, "/") && !rules.denied(p)
    case Pattern(source, flags) =>
      && StartsWith(source, "^") && EndsWith(source, "$") && 'g' !in flags && 'y' !in flags
      && !rules.denied(PlainSlashes(source))
      && forall i :: 0 <= i < |rules.probes| ==> !rules.test(path, rules.probes[i])
  }

  function PathOf(raw: RawPath): Path
    requires !raw.Neither?
  {
    if raw.Text? then Literal(raw.s) else Pattern(raw.source, raw.flags)
  }

  /** A plugin's entry is good exactly when it says where it comes from and why, and has an allowed path. */
  lemma GoodMeans(rules: Rules, raw: Raw)
    ensures
      Check(rules, raw).Ok? <==>
        !Blank(raw.source) && !Blank(raw.reason) && !raw.path.Neither? && Allowed(rules, PathOf(raw.path))
    ensures
      Check(rules, raw).Ok? ==>
        Check(rules, raw).value == Entry(PathOf(raw.path), raw.source.value, raw.reason.value)
  {
    if raw.path.Regex? { NoProbe(rules, Pattern(raw.path.source, raw.path.flags), rules.probes); }
  }

  /** Spelled the same, or one a literal that the other matches. */
  predicate Clash(rules: Rules, a: Entry, b: Entry) {
    || a.path == b.path
    || (a.path.Literal? && Matches(rules, b, a.path.path))
    || (b.path.Literal? && Matches(rules, a, b.path.path))
  }

  /** None of the entries from `first` on clashes with one before it. */
  predicate NoneClashes(rules: Rules, all: seq<Entry>, first: nat) {
    forall i, j :: 0 <= i < j < |all| && first <= j ==> !Clash(rules, all[i], all[j])
  }

  lemma {:induction false} OverlapFound(rules: Rules, list: seq<Entry>, e: Entry)
    ensures FirstOverlap(rules, list, e) == None <==> forall i :: 0 <= i < |list| ==> !Clash(rules, list[i], e)
  {
    if list != [] {
      OverlapFound(rules, list[1..], e);
      assert forall i :: 0 < i < |list| ==> list[i] == list[1..][i - 1];
    }
  }

  lemma FirstClash(rules: Rules, before: seq<Entry>, e: Entry, after: seq<Entry>)
    ensures
      NoneClashes(rules, before + [e] + after, |before|) <==>
        FirstOverlap(rules, before, e) == None && NoneClashes(rules, before + [e] + after, |before| + 1)
  {
    var all := before + [e] + after;
    OverlapFound(rules, before, e);
    assert all[|before|] == e && forall i :: 0 <= i < |before| ==> all[i] == before[i];
  }

  lemma {:induction false} StageAccepts(rules: Rules, raws: seq<Raw>, existing: seq<Entry>, staged: seq<Entry>)
    ensures
      Stage(rules, raws, existing, staged).Ok? <==>
        AllGood(rules, raws) && NoneClashes(rules, existing + staged + Values(rules, raws), |existing + staged|)
    decreases |raws|
  {
    if raws != [] && Check(rules, raws[0]).Ok? {
      var e := Check(rules, raws[0]).value;
      StageAccepts(rules, raws[1..], existing, staged + [e]);
      assert existing + (staged + [e]) == existing + staged + [e];
      if AllGood(rules, raws[1..]) {
        ValuesStart(rules, raws, existing + staged);
        FirstClash(rules, existing + staged, e, Values(rules, raws[1..]));
      }
    }
  }

  /** A list is accepted exactly when each of its entries is good and none clashes with one before it, old or new. */
  lemma AcceptedExactly(rules: Rules, raws: seq<Raw>, existing: seq<Entry>)
    ensures
      Stage(rules, raws, existing, []).Ok? <==>
        AllGood(rules, raws) && NoneClashes(rules, existing + Values(rules, raws), |existing|)
  {
    StageAccepts(rules, raws, existing, []);
    assert existing + [] == existing;
  }

  predicate EachAllowed(rules: Rules, list: seq<Entry>) {
    forall i :: 0 <= i < |list| ==> Allowed(rules, list[i].path)
  }

  /** Every entry that is added is allowed, whatever the list holds already: built-in entries are exempt. */
  lemma AcceptedAreAllowed(rules: Rules, raws: seq<Raw>, existing: seq<Entry>)
    requires Exclusive(rules, existing) && Stage(rules, raws, existing, []).Ok?
    ensures EachAllowed(rules, Stage(rules, raws, existing, []).value)
  {
    AcceptedEntries(rules, raws, existing);
    forall i | 0 <= i < |raws| ensures Allowed(rules, Values(rules, raws)[i].path) { GoodMeans(rules, raws[i]); }
  }

  lemma {:induction false} NoProbe(rules: Rules, path: Path, probes: seq<string>)
    ensures FirstProbe(rules, path, probes) == None <==> forall i :: 0 <= i < |probes| ==> !rules.test(path, probes[i])
  {
    if probes != [] {
      NoProbe(rules, path, probes[1..]);
      assert forall i :: 0 < i < |probes| ==> probes[i] == probes[1..][i - 1];
    }
  }

  // ---------------------------------------------------------------- when two entries match one path

  /** No path is matched by two entries. */
  ghost predicate MatchedOnce(rules: Rules, list: seq<Entry>) {
    forall i, j, path :: (0 <= i < |list| && 0 <= j < |list|
        && Matches(rules, list[i], path) && Matches(rules, list[j], path)) ==> i == j
  }

  /** No two patterns share a path. */
  ghost predicate PatternsApart(rules: Rules, list: seq<Entry>) {
    forall i, j, path :: 0 <= i < j < |list| && list[i].path.Pattern? && list[j].path.Pattern? ==>
      !(rules.test(list[i].path, path) && rules.test(list[j].path, path))
  }

  /** Two entries of an exclusive list that match one path are both patterns. */
  lemma DoubleMatchIsPatterns(rules: Rules, list: seq<Entry>, i: nat, j: nat, path: string)
    requires Exclusive(rules, list) && i < |list| && j < |list| && i != j
    requires Matches(rules, list[i], path) && Matches(rules, list[j], path)
    ensures list[i].path.Pattern? && list[j].path.Pattern?
  {
  }

  /** An exclusive list matches each path by at most one entry exactly when no two of its patterns share a path. */
  lemma MatchedOnceWhenApart(rules: Rules, list: seq<Entry>)
    requires Exclusive(rules, list)
    ensures MatchedOnce(rules, list) <==> PatternsApart(rules, list)
  {
    if PatternsApart(rules, list) {
      forall i, j, path | 0 <= i < |list| && 0 <= j < |list| && Matches(rules, list[i], path)
          && Matches(rules, list[j], path)
        ensures i == j
      {
        if i != j { DoubleMatchIsPatterns(rules, list, i, j, path); }
      }
    }
    if MatchedOnce(rules, list) {
      forall i, j, path | 0 <= i < j < |list| && list[i].path.Pattern? && list[j].path.Pattern?
        ensures !(rules.test(list[i].path, path) && rules.test(list[j].path, path))
      {
        assert Matches(rules, list[i], path) && Matches(rules, list[j], path) ==> i == j;
      }
    }
  }

  /**
   * After a registration each path is matched by at most one entry, old or new, exactly when no two patterns of the
   * whole list share a path; with at most one pattern that is always so.
   */
  lemma AcceptedMatchOnce(rules: Rules, raws: seq<Raw>, existing: seq<Entry>)
    requires Exclusive(rules, existing) && Stage(rules, raws, existing, []).Ok?
    ensures
      var all := existing + Stage(rules, raws, existing, []).value;
      && (MatchedOnce(rules, all) <==> PatternsApart(rules, all))
      && (AtMostOnePattern(all) ==> MatchedOnce(rules, all))
  {
    AcceptedEntries(rules, raws, existing);
    MatchedOnceWhenApart(rules, existing + Values(rules, raws));
  }

  predicate AtMostOnePattern(list: seq<Entry>) {
    forall i, j :: 0 <= i < j < |list| ==> !(list[i].path.Pattern? && list[j].path.Pattern?)
  }

  /**
   * The list does not see to it: whatever the patterns mean, any two good ones spelled differently that share a path
   * are accepted together, and that path is matched twice.
   */
  lemma PatternsMayOverlap(rules: Rules, a: Raw, b: Raw, path: string)
    requires Check(rules, a).Ok? && Check(rules, b).Ok? && a.path.Regex? && b.path.Regex? && a.path != b.path
    requires rules.test(Check(rules, a).value.path, path) && rules.test(Check(rules, b).value.path, path)
    ensures
      var r := Stage(rules, [a, b], [], []);
      r.Ok? && r.value == [Check(rules, a).value, Check(rules, b).value] && !MatchedOnce(rules, r.value)
  {
    var x, y := Check(rules, a).value, Check(rules, b).value;
    var all := [x, y];
    assert [x][1..] == [] && FirstOverlap(rules, [x], y) == None;
    assert [a, b][1..] == [b] && [b][1..] == [] && [] + [x] == [x] && [x] + [y] == all;
    assert FirstOverlap(rules, [] + [], x) == None;
    assert Admit(rules, b, [] + [x]) == Ok(y);
    assert Stage(rules, [b], [], [x]) == Ok([x] + [y]);
    assert Matches(rules, all[0], path) && Matches(rules, all[1], path);
  }

  // ---------------------------------------------------------------- the registered list

  lemma Reassociated(rules: Rules, a: seq<Entry>, b: seq<Entry>, c: seq<Entry>)
    requires Exclusive(rules, a + b + c)
    ensures Exclusive(rules, a + (b + c))
  {
    assert a + b + c == a + (b + c);
  }

  /** The entries plugins add at start-up, after the built-in ones. */
  class Registry {
    const rules: Rules
    const builtIn: seq<Entry>
    var registered: seq<Entry>

    ghost predicate Valid()
      reads this
    {
      Exclusive(rules, builtIn + registered) && EachAllowed(rules, registered)
    }

    constructor (rules: Rules, builtIn: seq<Entry>)
      requires Exclusive(rules, builtIn)
      ensures Valid() && this.rules == rules && this.builtIn == builtIn && registered == []
    {
      this.rules := rules;
      this.builtIn := builtIn;
      registered := [];
      new;
      assert builtIn + [] == builtIn;
    }

    /** All or nothing: one bad entry and none is registered; what is registered is allowed and exclusive. */
    method Register(raws: seq<Raw>) returns (error: Option<Error>)
      requires Valid()
      modifies this
      ensures Valid()
      ensures
        match Stage(rules, raws, builtIn + old(registered), [])
        case Err(e) => error == Some(e) && registered == old(registered)
        case Ok(all) => error == None && registered == old(registered) + all
    {
      var r := ValidateExceptions(rules, raws, builtIn + registered);
      if r.Err? { return Some(r.error); }
      AcceptedEntries(rules, raws, builtIn + registered);
      AcceptedAreAllowed(rules, raws, builtIn + registered);
      Reassociated(rules, builtIn, registered, r.value);
      registered := registered + r.value;
      return None;
    }
  }
}
