/**
 * What prefix stripping and ties can do to the choice of a store: a tie needs a common hostname, and stripping changes
 * the winner only when the stripped host is a bare name that an entry can spell.
 */
module HostStripping {
  import opened Wrappers
  import opened Text
  import opened HostSelect

  // ---------------------------------------------------------------- trimming

  predicate Trimmed(s: string) {
    s == "" || (!IsSpace(s[0]) && !IsSpace(s[|s| - 1]))
  }

  lemma {:induction false} TrimEndIsTrimmed(s: string)
    requires s == "" || !IsSpace(s[0])
    ensures Trimmed(TrimEnd(s))
  {
    if s != "" && IsSpace(s[|s| - 1]) { TrimEndIsTrimmed(s[..|s| - 1]); }
  }

  lemma {:induction false} TrimIsTrimmed(s: string)
    ensures Trimmed(Trim(s))
  {
    if s != "" && IsSpace(s[0]) { TrimIsTrimmed(s[1..]); } else { TrimEndIsTrimmed(s); }
  }

  lemma CanonicalIsTrimmed(hostname: string)
    ensures Trimmed(Canonical(hostname))
  {
    TrimIsTrimmed(hostname);
  }

  // ---------------------------------------------------------------- subdomains of the host and of its rest

  lemma SubdomainEnds(needle: string, entry: string)
    requires Subdomain(needle, entry)
    ensures |entry| < |needle| && needle[|needle| - |entry| - 1] == '.' && needle[|needle| - |entry|..] == entry
  {
    var tail := needle[|needle| - |entry| - 1..];
    assert tail == "." + entry;
    assert tail[0] == '.' && tail[1..] == entry && tail[1..] == needle[|needle| - |entry|..];
  }

  lemma EndsSubdomain(needle: string, entry: string)
    requires SuffixEligible(entry) && |entry| < |needle|
    requires needle[|needle| - |entry| - 1] == '.' && needle[|needle| - |entry|..] == entry
    ensures Subdomain(needle, entry)
  {
    var tail := needle[|needle| - |entry| - 1..];
    assert tail == [tail[0]] + tail[1..] && tail[1..] == entry;
  }

  lemma LowerTail(host: string, k: nat)
    requires k <= |host|
    ensures Lower(host[k..]) == Lower(host)[k..]
  {
  }

  /** Where the first label of a stripped host ends. */
  lemma FirstDot(host: string, stripped: string) returns (k: nat)
    requires Strips(host, stripped)
    ensures k < |host| && |stripped| == |host| - k - 1
    ensures Lower(host)[k] == '.' && '.' !in Lower(host)[..k] && Lower(host)[k + 1..] == Lower(stripped)
  {
    k :| 0 <= k < |host| && '.' !in host[..k] && host[k] == '.' && host[k + 1..] == stripped;
    LowerTail(host, k + 1);
    forall i | 0 <= i < k ensures Lower(host)[i] != '.' { assert host[i] == host[..k][i]; }
  }

  lemma SubdomainCarries(host: string, stripped: string, entry: string)
    requires Strips(host, stripped) && Subdomain(Lower(stripped), entry)
    ensures Subdomain(Lower(host), entry)
  {
    var k := FirstDot(host, stripped);
    var n := |entry| + 1;
    assert Lower(host)[|host| - n..] == Lower(host)[k + 1..][|stripped| - n..];
  }

  /** Of the entries a host is a subdomain of, its rest is the longest. */
  lemma RestIsLongest(host: string, stripped: string, entry: string)
    requires Strips(host, stripped) && Subdomain(Lower(host), entry)
    ensures |entry| <= |stripped| && (|entry| == |stripped| ==> entry == Lower(stripped))
  {
    var k := FirstDot(host, stripped);
    var at := |host| - |entry| - 1;
    SubdomainEnds(Lower(host), entry);
    forall i | 0 <= i < k ensures Lower(host)[i] != '.' { assert Lower(host)[..k][i] != '.'; }
  }

  lemma RestClaimsHost(host: string, stripped: string)
    requires Strips(host, stripped) && SuffixEligible(Lower(stripped))
    ensures Subdomain(Lower(host), Lower(stripped))
  {
    var k := FirstDot(host, stripped);
    EndsSubdomain(Lower(host), Lower(stripped));
  }

  // ---------------------------------------------------------------- what a score says

  /** A score that is no exact match is the length of a listed parent. */
  lemma ScoreParent(host: string, row: Store)
    requires 0 < HostScore(host, Hostnames(row)) && !Lists(Hostnames(row), Lower(host))
    ensures
      var n := HostScore(host, Hostnames(row));
      && n < |host| && Lists(Hostnames(row), Lower(host)[|host| - n..])
      && Subdomain(Lower(host), Lower(host)[|host| - n..])
  {
    ScoreMeans(host, Hostnames(row));
    var list, n := Hostnames(row), HostScore(host, Hostnames(row));
    var i :| 0 <= i < |list| && Subdomain(Lower(host), Canonical(list[i])) && |Canonical(list[i])| == n;
    SubdomainEnds(Lower(host), Canonical(list[i]));
  }

  lemma ScoreAtLeast(host: string, row: Store, entry: string)
    requires Lists(Hostnames(row), entry) && Subdomain(Lower(host), entry) && !Lists(Hostnames(row), Lower(host))
    ensures HostScore(host, Hostnames(row)) >= |entry|
  {
    ScoreMeans(host, Hostnames(row));
  }

  /** A parent found for the rest of the host is found for the host. */
  lemma RestScoresLess(host: string, stripped: string, row: Store)
    requires Strips(host, stripped) && |host| <= MAX_HOST_LENGTH && !Lists(Hostnames(row), Lower(stripped))
    ensures HostScore(host, Hostnames(row)) >= HostScore(stripped, Hostnames(row))
  {
    var m := HostScore(stripped, Hostnames(row));
    ScoreMeans(host, Hostnames(row));
    if m > 0 && !Lists(Hostnames(row), Lower(host)) {
      ScoreParent(stripped, row);
      var entry := Lower(stripped)[|stripped| - m..];
      SubdomainCarries(host, stripped, entry);
      ScoreAtLeast(host, row, entry);
    } else if m > 0 {
      ScoreParent(stripped, row);
    }
  }

  // ---------------------------------------------------------------- ties

  /** The hostname behind a positive total. */
  function Named(total: nat, host: string, stripped: string): string {
    if total == 2 * EXACT_MATCH then Lower(host)
    else if total == EXACT_MATCH then Lower(stripped)
    else if total / 2 <= |host| then Lower(host)[|host| - total / 2..]
    else ""
  }

  lemma TotalNames(row: Store, host: string, stripped: string)
    requires stripped == host || Strips(host, stripped)
    requires |host| <= MAX_HOST_LENGTH && Total(row, host, stripped) > 0
    ensures Lists(Hostnames(row), Named(Total(row, host, stripped), host, stripped))
  {
    TotalCases(row, host, stripped);
    var score, total := HostScore(host, Hostnames(row)), Total(row, host, stripped);
    if !Lists(Hostnames(row), Lower(host)) && total == 2 * score {
      ScoreParent(host, row);
      ParentNamed(score, host, stripped);
    }
  }

  lemma ParentNamed(score: nat, host: string, stripped: string)
    requires 0 < score <= MAX_HOST_LENGTH && score <= |host|
    ensures Named(2 * score, host, stripped) == Lower(host)[|host| - score..]
  {
    assert 2 * score / 2 == score;
  }

  /** A total is an exact match's, or twice the score of the literal host. */
  lemma TotalCases(row: Store, host: string, stripped: string)
    requires stripped == host || Strips(host, stripped)
    requires |host| <= MAX_HOST_LENGTH
    ensures
      Total(row, host, stripped) ==
        if Lists(Hostnames(row), Lower(host)) then 2 * EXACT_MATCH
        else if stripped != host && Lists(Hostnames(row), Lower(stripped)) then EXACT_MATCH
        else 2 * HostScore(host, Hostnames(row))
    ensures !Lists(Hostnames(row), Lower(host)) ==> HostScore(host, Hostnames(row)) <= MAX_HOST_LENGTH
  {
    var list := Hostnames(row);
    ScoreMeans(host, list);
    ScoreMeans(stripped, list);
    if !Lists(list, Lower(host)) && HostScore(host, list) > 0 { ScoreParent(host, row); }
    if stripped != host && !Lists(list, Lower(stripped)) { RestScoresLess(host, stripped, row); }
  }

  /** Stores that tie with a positive score list one and the same hostname. */
  lemma TieSharesHostname(a: Store, b: Store, host: string, prefixes: seq<string>)
    requires |host| <= MAX_HOST_LENGTH
    requires
      var stripped := StripHostPrefix(host, prefixes);
      0 < Total(a, host, stripped) == Total(b, host, stripped)
    ensures exists entry :: Lists(Hostnames(a), entry) && Lists(Hostnames(b), entry)
  {
    var stripped := StripHostPrefix(host, prefixes);
    StripLeavesRest(host, prefixes);
    TotalNames(a, host, stripped);
    TotalNames(b, host, stripped);
    var entry := Named(Total(a, host, stripped), host, stripped);
    assert Lists(Hostnames(a), entry) && Lists(Hostnames(b), entry);
  }

  // ---------------------------------------------------------------- what the winner lists

  predicate SomeLists(rows: seq<Store>, entry: string) {
    exists r :: r in rows && Lists(Hostnames(r), entry)
  }

  /**
   * A store that lists the host itself wins over all that do not; else one that lists what stripping leaves; else one
   * that lists the longest parent of the host that any store lists.
   */
  lemma HostnamePrecedence(rows: seq<Store>, host: string, prefixes: seq<string>)
    requires |host| <= MAX_HOST_LENGTH && Pick(rows, host, StripHostPrefix(host, prefixes)).Some?
    ensures
      var stripped := StripHostPrefix(host, prefixes);
      var w := Pick(rows, host, stripped).value;
      if SomeLists(rows, Lower(host)) then Lists(Hostnames(w), Lower(host))
      else if stripped != host && SomeLists(rows, Lower(stripped)) then Lists(Hostnames(w), Lower(stripped))
      else forall r :: r in rows ==> HostScore(host, Hostnames(r)) <= HostScore(host, Hostnames(w))
  {
    var stripped := StripHostPrefix(host, prefixes);
    var w := Pick(rows, host, stripped).value;
    StripLeavesRest(host, prefixes);
    PickWins(rows, host, stripped);
    TotalCases(w, host, stripped);
    forall r | r in rows
      ensures Lists(Hostnames(r), Lower(host)) ==> Lists(Hostnames(w), Lower(host))
      ensures
        stripped != host && Lists(Hostnames(r), Lower(stripped)) && !Lists(Hostnames(w), Lower(host)) ==>
          Lists(Hostnames(w), Lower(stripped))
      ensures
        !Lists(Hostnames(w), Lower(host)) && !(stripped != host && Lists(Hostnames(w), Lower(stripped))) ==>
          HostScore(host, Hostnames(r)) <= HostScore(host, Hostnames(w))
    {
      TotalCases(r, host, stripped);
    }
  }

  // ---------------------------------------------------------------- stripping and the winner

  /** Stripping moves the rows that list the host's rest from the best parent score to the exact score. */
  function Raised(total: nat, stripped: string): nat {
    if SuffixEligible(Lower(stripped)) && total == 2 * |stripped| then EXACT_MATCH else total
  }

  predicate Spellable(stripped: string) {
    stripped != "" && Trimmed(Lower(stripped))
  }

  /** A host's rest that is no bare name. */
  predicate Harmless(stripped: string) {
    SuffixEligible(Lower(stripped)) || !Spellable(stripped)
  }

  lemma Rescored(row: Store, host: string, stripped: string)
    requires Strips(host, stripped) && |host| <= MAX_HOST_LENGTH && Harmless(stripped)
    ensures
      var total := Total(row, host, host);
      && (total == 2 * EXACT_MATCH || total <= 2 * |stripped|)
      && (SuffixEligible(Lower(stripped)) && total == 2 * |stripped| ==> stripped != "")
      && Total(row, host, stripped) == Raised(total, stripped)
  {
    var list := Hostnames(row);
    TotalCases(row, host, stripped);
    TotalCases(row, host, host);
    if !Lists(list, Lower(host)) { LiteralBound(row, host, stripped); }
    if Lists(list, Lower(stripped)) { ListedRest(row, host, stripped); }
  }

  lemma LiteralBound(row: Store, host: string, stripped: string)
    requires Strips(host, stripped) && !Lists(Hostnames(row), Lower(host))
    ensures
      var n := HostScore(host, Hostnames(row));
      n <= |stripped| && (n == |stripped| > 0 ==> Lists(Hostnames(row), Lower(stripped)))
  {
    var n := HostScore(host, Hostnames(row));
    if n > 0 {
      ScoreParent(host, row);
      RestIsLongest(host, stripped, Lower(host)[|host| - n..]);
    }
  }

  lemma ListedRest(row: Store, host: string, stripped: string)
    requires Strips(host, stripped) && Lists(Hostnames(row), Lower(stripped)) && Harmless(stripped)
    ensures SuffixEligible(Lower(stripped))
    ensures !Lists(Hostnames(row), Lower(host)) ==> HostScore(host, Hostnames(row)) >= |stripped|
  {
    var list := Hostnames(row);
    var i :| 0 <= i < |list| && Canonical(list[i]) == Lower(stripped);
    CanonicalIsTrimmed(list[i]);
    RestClaimsHost(host, stripped);
    if !Lists(list, Lower(host)) { ScoreAtLeast(host, row, Lower(stripped)); }
  }

  /** The two choices, seen side by side. */
  predicate SameBest(a: Option<Best>, b: Option<Best>, host: string, stripped: string) {
    if a == None then b == None
    else
      && b.Some? && a.value.row == b.value.row
      && a.value.score == Total(a.value.row, host, host) && b.value.score == Total(a.value.row, host, stripped)
  }

  lemma {:induction false} SamePick(a: Option<Best>, b: Option<Best>, rows: seq<Store>, host: string, stripped: string)
    requires Strips(host, stripped) && |host| <= MAX_HOST_LENGTH && Harmless(stripped) && SameBest(a, b, host, stripped)
    ensures SameBest(PickFrom(a, rows, host, host), PickFrom(b, rows, host, stripped), host, stripped)
    decreases |rows|
  {
    if rows != [] {
      ConsiderOnce(a, rows[0], host, host);
      ConsiderOnce(b, rows[0], host, stripped);
      Rescored(rows[0], host, stripped);
      if a.Some? { Rescored(a.value.row, host, stripped); }
      SamePick(ConsiderRow(a, rows[0], host, host), ConsiderRow(b, rows[0], host, stripped), rows[1..], host, stripped);
    }
  }

  lemma {:induction false} TrimOfTrimmed(s: string)
    requires Trimmed(s)
    ensures Trim(s) == s
  {
  }

  /** A registry with one store that lists the bare rest of the host. */
  function BareStore(stripped: string): Store {
    Store("1", "bare", Some([Some(Lower(stripped))]))
  }

  lemma BareStoreAppears(host: string, stripped: string)
    requires Strips(host, stripped) && !Harmless(stripped)
    ensures Pick([BareStore(stripped)], host, host) == None
    ensures Pick([BareStore(stripped)], host, stripped) == Some(BareStore(stripped))
  {
    var row, name := BareStore(stripped), Lower(stripped);
    BareScores(host, stripped);
    BareHostnames(stripped);
    assert Total(row, host, host) == 0 && Total(row, host, stripped) == EXACT_MATCH;
    PickWins([row], host, host);
    PickWins([row], host, stripped);
    assert row in [row];
  }

  lemma BareHostnames(stripped: string)
    requires Spellable(stripped)
    ensures Hostnames(BareStore(stripped)) == [Lower(stripped)]
  {
    TrimOfTrimmed(Lower(stripped));
    assert TextItems([]) == [] && [Some(Lower(stripped))][1..] == [];
  }

  lemma BareCanonical(stripped: string)
    requires Spellable(stripped)
    ensures Canonical(Lower(stripped)) == Lower(stripped)
  {
    TrimOfTrimmed(Lower(stripped));
    LowerTwice(stripped);
  }

  lemma BareScores(host: string, stripped: string)
    requires Strips(host, stripped) && !Harmless(stripped)
    ensures HostScore(host, [Lower(stripped)]) == 0 && HostScore(stripped, [Lower(stripped)]) == EXACT_MATCH
  {
    var name, list := Lower(stripped), [Lower(stripped)];
    BareCanonical(stripped);
    assert Canonical(list[0]) == name;
    assert Lists(list, name);
    ScoreMeans(stripped, list);
    ScoreMeans(host, list);
    assert |name| < |Lower(host)| && !Lists(list, Lower(host));
  }

  /**
   * Prefix stripping never changes the winner, whatever the registry holds, exactly when what it leaves is harmless: it
   * may itself claim subdomains, or no entry can spell it.
   */
  lemma StrippingKeepsWinner(host: string, prefixes: seq<string>)
    requires |host| <= MAX_HOST_LENGTH && StripHostPrefix(host, prefixes) != host
    ensures
      var stripped := StripHostPrefix(host, prefixes);
      (forall rows :: Pick(rows, host, stripped) == Pick(rows, host, host)) <==> Harmless(stripped)
  {
    var stripped := StripHostPrefix(host, prefixes);
    StripLeavesRest(host, prefixes);
    if Harmless(stripped) {
      forall rows ensures Pick(rows, host, stripped) == Pick(rows, host, host) {
        SamePick(None, None, rows, host, stripped);
      }
    } else {
      BareStoreAppears(host, stripped);
      assert Pick([BareStore(stripped)], host, stripped) != Pick([BareStore(stripped)], host, host);
    }
  }
}
