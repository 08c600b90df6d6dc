/**
 * Which store answers for a host: every store's hostname list is scored against the host and its prefix-stripped form,
 * and the best score wins, ties going to the lower slug and then the lower id.
 */
module HostSelect {
  import opened Wrappers
  import opened Text

  const EXACT_MATCH: nat := 1000000
  const MAX_HOST_LENGTH: nat := 253

  /**
   * A registry row; `hostnames` is absent when the configuration holds no list, and list items that are not text are
   * None.
   */
  datatype Store = Store(id: string, slug: string, hostnames: Option<seq<Option<string>>>)

  // ---------------------------------------------------------------- one store's score

  function TextItems(items: seq<Option<string>>): seq<string> {
    if items == [] then []
    else (if items[0].Some? && Trim(items[0].value) != "" then [items[0].value] else []) + TextItems(items[1..])
  }

  function Hostnames(row: Store): seq<string> {
    if row.hostnames.Some? then TextItems(row.hostnames.value) else []
  }

  function Canonical(hostname: string): string {
    Lower(Trim(hostname))
  }

  predicate SuffixEligible(entry: string) {
    '.' in entry && entry[0] != '.' && entry[|entry| - 1] != '.'
  }

  /** `needle` is a subdomain of an entry that may claim subdomains. */
  predicate Subdomain(needle: string, entry: string) {
    SuffixEligible(entry) && EndsWith(needle, "." + entry)
  }

  predicate Lists(hostnames: seq<string>, entry: string) {
    entry != "" && exists i :: 0 <= i < |hostnames| && Canonical(hostnames[i]) == entry
  }

  function ScoreFrom(needle: string, hostnames: seq<string>, best: nat): nat
    decreases |hostnames|
  {
    if hostnames == [] then best
    else
      var entry := Canonical(hostnames[0]);
      if entry != "" && needle == entry then EXACT_MATCH
      else ScoreFrom(needle, hostnames[1..], if Subdomain(needle, entry) && |entry| > best then |entry| else best)
  }

  function HostScore(host: string, hostnames: seq<string>): nat {
    ScoreFrom(Lower(host), hostnames, 0)
  }

  method HostMatchScore(host: string, hostnames: seq<string>) returns (score: nat)
    ensures score == HostScore(host, hostnames)
  {
    var needle := Lower(host);
    var best: nat := 0;
    for i := 0 to |hostnames|
      invariant HostScore(host, hostnames) == ScoreFrom(needle, hostnames[i..], best)
    {
      var entry := Canonical(hostnames[i]);
      if entry == "" { continue; }
      if needle == entry { return EXACT_MATCH; }
      if SuffixEligible(entry) && EndsWith(needle, "." + entry) && |entry| > best { best := |entry|; }
    }
    return best;
  }

  /**
   * The score's meaning: an entry equal to the host, else the longest entry the host is a subdomain of, else nothing.
   */
  predicate IsScore(needle: string, hostnames: seq<string>, score: nat) {
    if Lists(hostnames, needle) then score == EXACT_MATCH
    else
      && (forall i :: 0 <= i < |hostnames| && Subdomain(needle, Canonical(hostnames[i])) ==>
          |Canonical(hostnames[i])| <= score)
      && (score > 0 ==>
            exists i :: 0 <= i < |hostnames| && Subdomain(needle, Canonical(hostnames[i]))
                && |Canonical(hostnames[i])| == score)
  }

  lemma {:induction false} ScoreFromMeans(needle: string, done: seq<string>, hostnames: seq<string>, best: nat)
    requires IsScore(needle, done, best) && !Lists(done, needle)
    ensures IsScore(needle, done + hostnames, ScoreFrom(needle, hostnames, best))
    decreases |hostnames|
  {
    if hostnames == [] {
      assert done + [] == done;
    } else {
      var entry := Canonical(hostnames[0]);
      var next := done + [hostnames[0]];
      assert next + hostnames[1..] == done + hostnames;
      if entry != "" && needle == entry {
        assert Canonical((done + hostnames)[|done|]) == needle;
      } else {
        OneMore(needle, done, hostnames[0], best);
        var better := if Subdomain(needle, entry) && |entry| > best then |entry| else best;
        ScoreFromMeans(needle, next, hostnames[1..], better);
      }
    }
  }

  lemma OneMore(needle: string, done: seq<string>, hostname: string, best: nat)
    requires IsScore(needle, done, best) && !Lists(done, needle)
    requires var entry := Canonical(hostname); entry == "" || needle != entry
    ensures
      var entry := Canonical(hostname);
      var next := done + [hostname];
      var better := if Subdomain(needle, entry) && |entry| > best then |entry| else best;
      !Lists(next, needle) && IsScore(needle, next, better)
  {
    var entry, next := Canonical(hostname), done + [hostname];
    assert next[|done|] == hostname && forall i :: 0 <= i < |done| ==> next[i] == done[i];
    if best > 0 {
      var i :| 0 <= i < |done| && Subdomain(needle, Canonical(done[i])) && |Canonical(done[i])| == best;
      assert Subdomain(needle, Canonical(next[i]));
    }
    if Subdomain(needle, entry) { assert Subdomain(needle, Canonical(next[|done|])); }
  }

  lemma ScoreMeans(host: string, hostnames: seq<string>)
    ensures IsScore(Lower(host), hostnames, HostScore(host, hostnames))
  {
    ScoreFromMeans(Lower(host), [], hostnames, 0);
    assert [] + hostnames == hostnames;
  }

  // ---------------------------------------------------------------- stripping one label

  /** At most one leading label goes, when it is one of the prefixes. */
  function StripHostPrefix(host: string, prefixes: seq<string>): string {
    if prefixes == [] then host
    else
      var labels := Split(host, '.');
      if |labels| < 2 || labels[0] == "" || Lower(labels[0]) !in prefixes then host
      else Join(labels[1..], ".")
  }

  /** What stripping leaves is the host without its first label and dot. */
  predicate Strips(host: string, stripped: string) {
    exists k :: 0 <= k < |host| && '.' !in host[..k] && host[k] == '.' && host[k + 1..] == stripped
  }

  lemma StripLeavesRest(host: string, prefixes: seq<string>)
    ensures StripHostPrefix(host, prefixes) == host || Strips(host, StripHostPrefix(host, prefixes))
  {
    var labels := Split(host, '.');
    if |labels| >= 2 {
      JoinSplit(host, '.');
      SplitPieces(host, '.', 0);
      var k := |labels[0]|;
      assert Join(labels, ".") == labels[0] + "." + Join(labels[1..], ".");
      assert host[..k] == labels[0] && host[k] == '.' && host[k + 1..] == Join(labels[1..], ".");
    }
  }

  /** The host's first label, not empty, ends at this dot. */
  predicate FirstLabelEnds(host: string, k: int) {
    0 < k < |host| && host[k] == '.' && '.' !in host[..k]
  }

  lemma FirstLabelIs(host: string, k: int)
    requires FirstLabelEnds(host, k)
    ensures
      var labels := Split(host, '.');
      |labels| >= 2 && labels[0] == host[..k] && Join(labels[1..], ".") == host[k + 1..]
  {
    var first, rest := host[..k], host[k + 1..];
    assert host == first + ['.'] + rest;
    SplitAfter(first, '.', rest);
    JoinSplit(rest, '.');
    assert ([first] + Split(rest, '.'))[1..] == Split(rest, '.');
  }

  /**
   * A label goes exactly when the host has at least two and the first one, not empty, is a listed prefix in any case;
   * then what follows its dot is left, and otherwise the whole host.
   */
  lemma StripMeans(host: string, prefixes: seq<string>)
    ensures
      forall k :: FirstLabelEnds(host, k) && Lower(host[..k]) in prefixes ==>
        StripHostPrefix(host, prefixes) == host[k + 1..]
    ensures
      (forall k :: FirstLabelEnds(host, k) ==> Lower(host[..k]) !in prefixes) ==>
        StripHostPrefix(host, prefixes) == host
  {
    forall k | FirstLabelEnds(host, k) && Lower(host[..k]) in prefixes
      ensures StripHostPrefix(host, prefixes) == host[k + 1..]
    {
      FirstLabelIs(host, k);
    }
    var labels := Split(host, '.');
    if |labels| >= 2 && labels[0] != "" {
      JoinSplit(host, '.');
      SplitPieces(host, '.', 0);
      assert Join(labels, ".") == labels[0] + "." + Join(labels[1..], ".");
      assert host[..|labels[0]|] == labels[0];
      assert FirstLabelEnds(host, |labels[0]|);
    }
  }

  // ---------------------------------------------------------------- picking the best store

  /** Text order, unit by unit. */
  predicate Less(a: string, b: string) {
    b != "" && (a == "" || a[0] < b[0] || (a[0] == b[0] && Less(a[1..], b[1..])))
  }

  lemma {:induction false} LessTotal(a: string, b: string)
    ensures a == b || Less(a, b) || Less(b, a)
    ensures !(Less(a, b) && Less(b, a)) && !Less(a, a)
  {
    if a != "" {
      LessTotal(a[1..], a[1..]);
      if b != "" {
        LessTotal(a[1..], b[1..]);
        if a[0] == b[0] && a[1..] == b[1..] { assert [a[0]] + a[1..] == a && [b[0]] + b[1..] == b; }
      }
    }
  }

  lemma {:induction false} LessTransitive(a: string, b: string, c: string)
    requires Less(a, b) && Less(b, c)
    ensures Less(a, c)
  {
    if a != "" && a[0] == b[0] && b[0] == c[0] { LessTransitive(a[1..], b[1..], c[1..]); }
  }

  predicate Before(a: Store, b: Store) {
    Less(a.slug, b.slug) || (a.slug == b.slug && Less(a.id, b.id))
  }

  datatype Best = Best(row: Store, score: nat)

  function Consider(best: Option<Best>, row: Store, score: nat): Option<Best> {
    if score == 0 then best
    else if best == None || score > best.value.score || (score == best.value.score && Before(row, best.value.row))
    then Some(Best(row, score))
    else best
  }

  function ConsiderRow(best: Option<Best>, row: Store, host: string, stripped: string): Option<Best> {
    var literal := Consider(best, row, HostScore(host, Hostnames(row)) * 2);
    if stripped != host then Consider(literal, row, HostScore(stripped, Hostnames(row))) else literal
  }

  function PickFrom(best: Option<Best>, rows: seq<Store>, host: string, stripped: string): Option<Best>
    decreases |rows|
  {
    if rows == [] then best else PickFrom(ConsiderRow(best, rows[0], host, stripped), rows[1..], host, stripped)
  }

  function Pick(rows: seq<Store>, host: string, stripped: string): Option<Store> {
    var best := PickFrom(None, rows, host, stripped);
    if best == None then None else Some(best.value.row)
  }

  method PickBestStoreForHost(rows: seq<Store>, host: string, stripped: string) returns (store: Option<Store>)
    ensures store == Pick(rows, host, stripped)
  {
    var best: Option<Best> := None;
    for i := 0 to |rows|
      invariant PickFrom(None, rows, host, stripped) == PickFrom(best, rows[i..], host, stripped)
    {
      var row := rows[i];
      var score := HostMatchScore(host, Hostnames(row));
      var was := best;
      best := Consider(best, row, score * 2);
      if stripped != host {
        score := HostMatchScore(stripped, Hostnames(row));
        best := Consider(best, row, score);
      }
      assert best == ConsiderRow(was, row, host, stripped);
    }
    return if best == None then None else Some(best.value.row);
  }

  // ---------------------------------------------------------------- the winner

  /** A row's one score: the literal host counts double. */
  function Total(row: Store, host: string, stripped: string): nat {
    var literal := HostScore(host, Hostnames(row)) * 2;
    var other := if stripped != host then HostScore(stripped, Hostnames(row)) else 0;
    if literal >= other then literal else other
  }

  lemma ConsiderOnce(best: Option<Best>, row: Store, host: string, stripped: string)
    ensures ConsiderRow(best, row, host, stripped) == Consider(best, row, Total(row, host, stripped))
  {
    LessTotal(row.slug, row.slug);
    LessTotal(row.id, row.id);
  }

  /** `w` answers for the host: it scores, and no row scores more or ties with a lower slug and id. */
  predicate Wins(rows: seq<Store>, w: Store, host: string, stripped: string) {
    && w in rows && Total(w, host, stripped) > 0
    && forall r :: r in rows ==>
         || Total(r, host, stripped) < Total(w, host, stripped)
         || (Total(r, host, stripped) == Total(w, host, stripped) && !Before(r, w))
  }

  predicate Winning(rows: seq<Store>, best: Option<Best>, host: string, stripped: string) {
    match best
    case None => forall r :: r in rows ==> Total(r, host, stripped) == 0
    case Some(b) => b.score == Total(b.row, host, stripped) && Wins(rows, b.row, host, stripped)
  }

  lemma BeforeOrder(a: Store, b: Store, c: Store)
    ensures !(Before(a, b) && Before(b, a)) && !Before(a, a)
    ensures Before(a, b) && !Before(c, b) ==> !Before(c, a)
  {
    LessTotal(a.slug, a.slug);
    LessTotal(a.id, a.id);
    LessTotal(a.slug, b.slug);
    LessTotal(a.id, b.id);
    if Before(c, a) && Before(a, b) {
      if Less(c.slug, a.slug) && Less(a.slug, b.slug) { LessTransitive(c.slug, a.slug, b.slug); }
      if Less(c.id, a.id) && Less(a.id, b.id) { LessTransitive(c.id, a.id, b.id); }
    }
  }

  lemma ConsiderWins(done: seq<Store>, best: Option<Best>, row: Store, host: string, stripped: string)
    requires Winning(done, best, host, stripped)
    ensures Winning(done + [row], ConsiderRow(best, row, host, stripped), host, stripped)
  {
    ConsiderOnce(best, row, host, stripped);
    BeforeOrder(row, row, row);
    if best.Some? {
      forall r | r in done
        ensures Before(row, best.value.row) && !Before(r, best.value.row) ==> !Before(r, row)
      {
        BeforeOrder(row, best.value.row, r);
      }
    }
  }

  /** What every considered row keeps holds at the end. */
  lemma {:induction false} PickFromKeeps(
      kept: (seq<Store>, Option<Best>) -> bool, done: seq<Store>, best: Option<Best>, rows: seq<Store>,
      host: string, stripped: string)
    requires kept(done, best)
    requires forall d, b, r :: kept(d, b) ==> kept(d + [r], ConsiderRow(b, r, host, stripped))
    ensures kept(done + rows, PickFrom(best, rows, host, stripped))
    decreases |rows|
  {
    if rows == [] {
      assert done + [] == done;
    } else {
      PickFromKeeps(kept, done + [rows[0]], ConsiderRow(best, rows[0], host, stripped), rows[1..], host, stripped);
      assert done + [rows[0]] + rows[1..] == done + rows;
    }
  }

  lemma PickFromWins(rows: seq<Store>, host: string, stripped: string)
    ensures Winning(rows, PickFrom(None, rows, host, stripped), host, stripped)
  {
    var kept := (d: seq<Store>, b: Option<Best>) => Winning(d, b, host, stripped);
    forall d, b, r | kept(d, b) ensures kept(d + [r], ConsiderRow(b, r, host, stripped)) {
      ConsiderWins(d, b, r, host, stripped);
    }
    PickFromKeeps(kept, [], None, rows, host, stripped);
    assert [] + rows == rows;
  }

  /** The picked store is a winner, and nothing is picked exactly when no store scores. */
  lemma PickWins(rows: seq<Store>, host: string, stripped: string)
    ensures Pick(rows, host, stripped) == None <==> forall r :: r in rows ==> Total(r, host, stripped) == 0
    ensures Pick(rows, host, stripped).Some? ==> Wins(rows, Pick(rows, host, stripped).value, host, stripped)
  {
    PickFromWins(rows, host, stripped);
  }

  /** Rows are told apart by slug and id. */
  predicate Keyed(rows: seq<Store>) {
    forall a, b :: a in rows && b in rows && a.slug == b.slug && a.id == b.id ==> a == b
  }

  /** The choice is a function of the set of stores: any two listings of it pick the same store. */
  lemma PickIgnoresOrder(rows: seq<Store>, others: seq<Store>, host: string, stripped: string)
    requires Keyed(rows) && forall r :: r in rows <==> r in others
    ensures Pick(rows, host, stripped) == Pick(others, host, stripped)
  {
    PickWins(rows, host, stripped);
    PickWins(others, host, stripped);
    if Pick(rows, host, stripped).Some? {
      var a, b := Pick(rows, host, stripped).value, Pick(others, host, stripped).value;
      LessTotal(a.slug, b.slug);
      LessTotal(a.id, b.id);
    }
  }
}
