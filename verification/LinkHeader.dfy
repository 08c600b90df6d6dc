/**
 * The Link header of a cached shell: which reads it declares, and what is left of it once those reads are in the page.
 * An entry ends at a comma that is followed, after any space, by `<`.
 */
module LinkHeader {
  import opened Wrappers
  import opened Text

  const EDGE_MAX_READS: nat := 6

  // ---------------------------------------------------------------- splitting

  /** The next thing is a `<`. */
  predicate Opens(s: string) {
    TrimStart(s) != "" && TrimStart(s)[0] == '<'
  }

  function Pieces(link: string): (pieces: seq<string>)
    ensures pieces != []
  {
    if link == "" then [""]
    else
      var rest := Pieces(link[1..]);
      if link[0] == ',' && Opens(link[1..]) then [""] + rest else [[link[0]] + rest[0]] + rest[1..]
  }

  /** The trimmed pieces that are not empty. */
  function Trimmed(pieces: seq<string>): seq<string> {
    if pieces == [] then []
    else (if Trim(pieces[0]) == "" then [] else [Trim(pieces[0])]) + Trimmed(pieces[1..])
  }

  function Entries(link: string): seq<string> {
    Trimmed(Pieces(link))
  }

  // ---------------------------------------------------------------- taking entries out

  predicate Targets(entry: string, keys: seq<string>) {
    exists i :: 0 <= i < |keys| && StartsWith(entry, "<" + keys[i] + ">")
  }

  function Kept(entries: seq<string>, keys: seq<string>): seq<string> {
    if entries == [] then []
    else (if Targets(entries[0], keys) then [] else [entries[0]]) + Kept(entries[1..], keys)
  }

  function WithoutPreloads(link: Option<string>, keys: seq<string>): Option<string> {
    if link == None || link.value == "" then None
    else
      var kept := Kept(Entries(link.value), keys);
      if kept == [] then None else Some(Join(kept, ", "))
  }

  // ---------------------------------------------------------------- the shape of entries

  /** No comma in the text starts a new entry. */
  predicate Whole(s: string) {
    s == "" || (!(s[0] == ',' && Opens(s[1..])) && Whole(s[1..]))
  }

  lemma {:induction false} OpensMore(s: string, more: string)
    ensures Opens(s) ==> Opens(s + more)
    ensures s != "" && !IsSpace(s[|s| - 1]) ==> Opens(s) == Opens(s + more)
  {
    if s == "" {
      assert s + more == more;
    } else {
      assert (s + more)[1..] == s[1..] + more;
      if IsSpace(s[0]) { OpensMore(s[1..], more); }
    }
  }

  /** What opens has a `<` after nothing but space. */
  lemma {:induction false} OpensMeans(s: string)
    ensures Opens(s) <==> exists k :: 0 <= k < |s| && s[k] == '<' && forall i :: 0 <= i < k ==> IsSpace(s[i])
  {
    if s != "" && IsSpace(s[0]) {
      OpensMeans(s[1..]);
      if Opens(s) {
        var k :| 0 <= k < |s| - 1 && s[1..][k] == '<' && forall i :: 0 <= i < k ==> IsSpace(s[1..][i]);
        assert s[k + 1] == '<' && forall i :: 0 < i < k + 1 ==> s[i] == s[1..][i - 1];
      }
      if k :| 0 <= k < |s| && s[k] == '<' && forall i :: 0 <= i < k ==> IsSpace(s[i]) {
        assert k > 0 && s[1..][k - 1] == '<' && forall i :: 0 <= i < k - 1 ==> s[1..][i] == s[i + 1];
      }
    }
  }

  lemma {:induction false} FirstIsPrefix(link: string)
    ensures StartsWith(link, Pieces(link)[0])
  {
    if link != "" {
      FirstIsPrefix(link[1..]);
      var rest := Pieces(link[1..]);
      if !(link[0] == ',' && Opens(link[1..])) {
        assert link[..|rest[0]| + 1] == [link[0]] + link[1..][..|rest[0]|];
      }
    }
  }

  lemma {:induction false} OpensFirst(link: string)
    requires Opens(link)
    ensures Opens(Pieces(link)[0])
  {
    var rest := Pieces(link[1..]);
    var first := [link[0]] + rest[0];
    assert Pieces(link)[0] == first && first[1..] == rest[0];
    if IsSpace(link[0]) { OpensFirst(link[1..]); }
  }

  /** Pieces are whole, and each but the first opens. */
  lemma {:induction false} PieceShape(link: string, i: nat)
    requires i < |Pieces(link)|
    ensures Whole(Pieces(link)[i]) && (i > 0 ==> Opens(Pieces(link)[i]))
  {
    if link != "" {
      var rest := Pieces(link[1..]);
      if link[0] == ',' && Opens(link[1..]) {
        if i > 0 { PieceShape(link[1..], i - 1); OpensFirst(link[1..]); }
      } else {
        PieceShape(link[1..], i);
        if i == 0 {
          FirstIsPrefix(link[1..]);
          OpensMore(rest[0], link[1..][|rest[0]|..]);
          assert rest[0] + link[1..][|rest[0]|..] == link[1..];
          assert ([link[0]] + rest[0])[1..] == rest[0];
        }
      }
    }
  }

  lemma {:induction false} TrimStartWhole(s: string)
    requires Whole(s)
    ensures Whole(TrimStart(s)) && (TrimStart(s) != "" ==> !IsSpace(TrimStart(s)[0]))
  {
    if s != "" && IsSpace(s[0]) { TrimStartWhole(s[1..]); }
  }

  lemma {:induction false} WholePrefix(s: string, n: nat)
    requires Whole(s) && n <= |s|
    ensures Whole(s[..n])
  {
    if n > 0 {
      WholePrefix(s[1..], n - 1);
      assert s[..n][1..] == s[1..][..n - 1];
      OpensMore(s[1..][..n - 1], s[1..][n - 1..]);
      assert s[1..][..n - 1] + s[1..][n - 1..] == s[1..];
    }
  }

  lemma {:induction false} TrimEndShape(s: string)
    requires Whole(s) && (s != "" ==> !IsSpace(s[0]))
    ensures
      var t := TrimEnd(s);
      Whole(t) && (s != "" ==> t != "" && t[0] == s[0]) && (t != "" ==> !IsSpace(t[|t| - 1]))
  {
    if s != "" && IsSpace(s[|s| - 1]) {
      WholePrefix(s, |s| - 1);
      TrimEndShape(s[..|s| - 1]);
    }
  }

  /** What every entry looks like. */
  predicate Tidy(e: string) {
    e != "" && !IsSpace(e[0]) && !IsSpace(e[|e| - 1]) && Whole(e)
  }

  predicate AllTidy(entries: seq<string>) {
    forall i :: 0 <= i < |entries| ==> Tidy(entries[i])
  }

  predicate AllOpen(entries: seq<string>) {
    forall i :: 0 <= i < |entries| ==> entries[i] != "" && entries[i][0] == '<'
  }

  /** Tidy entries of which only the first need not open. */
  predicate Listable(entries: seq<string>) {
    AllTidy(entries) && (entries != [] ==> AllOpen(entries[1..]))
  }

  lemma TrimShape(piece: string)
    requires Whole(piece)
    ensures Trim(piece) != "" ==> Tidy(Trim(piece))
    ensures Opens(piece) ==> Trim(piece) != "" && Trim(piece)[0] == '<'
  {
    TrimStartWhole(piece);
    TrimEndShape(TrimStart(piece));
  }

  lemma {:induction false} TrimmedOpen(pieces: seq<string>)
    requires forall i :: 0 <= i < |pieces| ==> Whole(pieces[i]) && Opens(pieces[i])
    ensures AllTidy(Trimmed(pieces)) && AllOpen(Trimmed(pieces))
  {
    if pieces != [] {
      TrimShape(pieces[0]);
      TrimmedOpen(pieces[1..]);
    }
  }

  lemma EntriesListable(link: string)
    ensures Listable(Entries(link))
  {
    var pieces := Pieces(link);
    forall i | 0 <= i < |pieces| ensures Whole(pieces[i]) && (i > 0 ==> Opens(pieces[i])) { PieceShape(link, i); }
    TrimmedOpen(pieces[1..]);
    TrimShape(pieces[0]);
    var first := if Trim(pieces[0]) == "" then [] else [Trim(pieces[0])];
    assert Entries(link) == first + Trimmed(pieces[1..]);
    if first != [] { assert (first + Trimmed(pieces[1..]))[1..] == Trimmed(pieces[1..]); }
  }

  lemma {:induction false} KeptTidy(entries: seq<string>, keys: seq<string>)
    requires AllTidy(entries)
    ensures AllTidy(Kept(entries, keys))
  {
    if entries != [] { KeptTidy(entries[1..], keys); }
  }

  lemma {:induction false} KeptOpen(entries: seq<string>, keys: seq<string>)
    requires AllOpen(entries)
    ensures AllOpen(Kept(entries, keys))
  {
    if entries != [] { KeptOpen(entries[1..], keys); }
  }

  lemma KeptListable(entries: seq<string>, keys: seq<string>)
    requires Listable(entries)
    ensures Listable(Kept(entries, keys))
  {
    KeptTidy(entries, keys);
    if entries != [] {
      KeptOpen(entries[1..], keys);
      var rest := Kept(entries[1..], keys);
      assert [] + rest == rest && ([entries[0]] + rest)[1..] == rest;
    }
  }

  // ---------------------------------------------------------------- joining and splitting again

  lemma {:induction false} OnePiece(e: string)
    requires Whole(e)
    ensures Pieces(e) == [e]
  {
    if e != "" { OnePiece(e[1..]); assert [e[0]] + e[1..] == e; }
  }

  lemma {:induction false} PiecesAfter(e: string, rest: string)
    requires Whole(e) && Opens(rest) && (e != "" ==> !IsSpace(e[|e| - 1]))
    ensures Pieces(e + ("," + rest)) == [e] + Pieces(rest)
  {
    if e == "" {
      assert e + ("," + rest) == "," + rest && ("," + rest)[1..] == rest;
    } else {
      PiecesAfter(e[1..], rest);
      LongerPiece(e, rest);
    }
  }

  lemma LongerPiece(e: string, rest: string)
    requires e != "" && Whole(e) && !IsSpace(e[|e| - 1])
    requires Pieces(e[1..] + ("," + rest)) == [e[1..]] + Pieces(rest)
    ensures Pieces(e + ("," + rest)) == [e] + Pieces(rest)
  {
    var s, t := e + ("," + rest), e[1..] + ("," + rest);
    assert s[1..] == t && s[0] == e[0];
    if e[1..] != "" { OpensMore(e[1..], "," + rest); } else { assert t == "," + rest; }
    assert !(s[0] == ',' && Opens(t));
    assert [e[0]] + e[1..] == e;
    assert ([e[1..]] + Pieces(rest))[1..] == Pieces(rest);
  }

  lemma TrimOfTidy(e: string)
    requires Tidy(e)
    ensures Trim(e) == e
  {
  }

  /** A leading space changes no entry. */
  lemma SpaceBefore(s: string)
    ensures Entries(" " + s) == Entries(s)
  {
    var t := " " + s;
    assert t[1..] == s;
    var pieces := Pieces(s);
    var first := " " + pieces[0];
    assert first[1..] == pieces[0] && Trim(first) == Trim(pieces[0]);
    assert Pieces(t) == [first] + pieces[1..];
    assert ([first] + pieces[1..])[1..] == pieces[1..];
  }

  lemma OneEntry(e: string)
    requires Tidy(e)
    ensures Entries(e) == [e]
  {
    TrimOfTidy(e);
    OnePiece(e);
    assert Trimmed([]) == [] && [e][1..] == [];
  }

  lemma EntriesAfter(e: string, rest: string)
    requires Tidy(e) && Opens(rest)
    ensures Entries(e + ("," + (" " + rest))) == [e] + Entries(rest)
  {
    TrimOfTidy(e);
    assert (" " + rest)[1..] == rest && Opens(" " + rest);
    PiecesAfter(e, " " + rest);
    SpaceBefore(rest);
    assert ([e] + Pieces(" " + rest))[1..] == Pieces(" " + rest);
  }

  /** Splitting a joined list gives the list back. */
  lemma {:induction false} JoinedEntries(entries: seq<string>)
    requires Listable(entries) && entries != []
    ensures Entries(Join(entries, ", ")) == entries
  {
    var e, others := entries[0], entries[1..];
    if others == [] {
      OneEntry(e);
    } else {
      var rest := Join(others, ", ");
      JoinedEntries(others);
      JoinStarts(others);
      EntriesAfter(e, rest);
      assert Join(entries, ", ") == e + ("," + (" " + rest));
      assert [e] + others == entries;
    }
  }

  lemma JoinStarts(entries: seq<string>)
    requires AllOpen(entries) && entries != []
    ensures Join(entries, ", ") != "" && Join(entries, ", ")[0] == '<' && Opens(Join(entries, ", "))
  {
  }

  lemma {:induction false} KeptTwice(entries: seq<string>, keys: seq<string>)
    ensures Kept(Kept(entries, keys), keys) == Kept(entries, keys)
  {
    if entries != [] {
      var rest := Kept(entries[1..], keys);
      KeptTwice(entries[1..], keys);
      assert [] + rest == rest && ([entries[0]] + rest)[1..] == rest;
    }
  }

  lemma {:induction false} KeptMeans(entries: seq<string>, keys: seq<string>, e: string)
    ensures e in Kept(entries, keys) <==> e in entries && !Targets(e, keys)
  {
    if entries != [] {
      assert entries == [entries[0]] + entries[1..];
      KeptMeans(entries[1..], keys, e);
    }
  }

  /** Taking entries out goes entry by entry: each stays in its place, or goes when it targets a key. */
  lemma {:induction false} KeptJoins(a: seq<string>, b: seq<string>, keys: seq<string>)
    ensures Kept(a + b, keys) == Kept(a, keys) + Kept(b, keys)
  {
    if a == [] {
      assert a + b == b;
    } else {
      assert (a + b)[1..] == a[1..] + b && (a + b)[0] == a[0];
      KeptJoins(a[1..], b, keys);
      var first := if Targets(a[0], keys) then [] else [a[0]];
      Associates(first, Kept(a[1..], keys), Kept(b, keys));
    }
  }

  lemma Associates(a: seq<string>, b: seq<string>, c: seq<string>)
    ensures a + (b + c) == (a + b) + c
  {
  }

  lemma KeptOne(e: string, keys: seq<string>)
    ensures Kept([e], keys) == if Targets(e, keys) then [] else [e]
  {
    assert [e][1..] == [] && Kept([], keys) == [];
  }

  /** So an entry in the middle stays there, or goes, whatever stands around it. */
  lemma EntriesKeepTheirPlace(before: seq<string>, e: string, after: seq<string>, keys: seq<string>)
    ensures
      Kept(before + [e] + after, keys)
        == Kept(before, keys) + (if Targets(e, keys) then [] else [e]) + Kept(after, keys)
  {
    KeptJoins(before + [e], after, keys);
    KeptJoins(before, [e], keys);
    KeptOne(e, keys);
  }

  /** Nothing of the header is lost in its pieces: joined by commas they are the header. */
  lemma {:induction false} PiecesRejoin(link: string)
    ensures Join(Pieces(link), ",") == link
  {
    if link != "" {
      PiecesRejoin(link[1..]);
      var rest := Pieces(link[1..]);
      if link[0] == ',' && Opens(link[1..]) {
        assert ([""] + rest)[1..] == rest;
      } else if |rest| > 1 {
        assert ([[link[0]] + rest[0]] + rest[1..])[1..] == rest[1..];
      }
    }
  }

  /**
   * The pieces are the header cut at exactly the commas that are followed, after any space, by `<`: joined they are the
   * header, none can be cut again, and each but the first opens.
   */
  lemma PiecesMean(link: string)
    ensures Join(Pieces(link), ",") == link
    ensures forall i :: 0 <= i < |Pieces(link)| ==> Whole(Pieces(link)[i]) && (i > 0 ==> Opens(Pieces(link)[i]))
  {
    PiecesRejoin(link);
    forall i | 0 <= i < |Pieces(link)| ensures Whole(Pieces(link)[i]) && (i > 0 ==> Opens(Pieces(link)[i])) {
      PieceShape(link, i);
    }
  }

  /**
   * What is left lists, in their order, exactly the entries that target no served key; nothing is left when there are
   * none; and taking the same entries out again changes nothing.
   */
  lemma PreloadsTakenOut(link: string, keys: seq<string>)
    requires link != ""
    ensures
      var kept := Kept(Entries(link), keys);
      var left := WithoutPreloads(Some(link), keys);
      && (left == None <==> kept == [])
      && (left.Some? ==> left.value != "" && Entries(left.value) == kept && WithoutPreloads(left, keys) == left)
      && (forall e :: e in kept <==> e in Entries(link) && !Targets(e, keys))
  {
    var kept := Kept(Entries(link), keys);
    EntriesListable(link);
    KeptListable(Entries(link), keys);
    KeptTwice(Entries(link), keys);
    if kept != [] {
      JoinedEntries(kept);
      assert Tidy(kept[0]) && StartsWith(Join(kept, ", "), kept[0]);
    }
    forall e ensures e in kept <==> e in Entries(link) && !Targets(e, keys) { KeptMeans(Entries(link), keys, e); }
  }

  // ---------------------------------------------------------------- the reads a header declares

  predicate OneLine(s: string) {
    forall i :: 0 <= i < |s| ==> s[i] != '\n' && s[i] != '\r' && s[i] != '\U{2028}' && s[i] != '\U{2029}'
  }

  function Unquoted(s: string): string {
    if s != "" && s[0] == '"' then s[1..] else s
  }

  /** A parameter `name=value`, the value bare or quoted, that starts here. */
  predicate ParameterHere(s: string, name: string, value: string) {
    var t := TrimStart(s);
    && StartsWith(t, name + "=")
    && var v := Unquoted(t[|name| + 1..]);
       && StartsWith(v, value)
       && var w := Unquoted(v[|value|..]);
          w == "" || w[0] == ';' || IsSpace(w[0])
  }

  predicate HasParameter(params: string, name: string, value: string) {
    exists i :: 0 <= i < |params| && params[i] == ';' && ParameterHere(params[i + 1..], name, value)
  }

  predicate SameOriginPath(url: string) {
    StartsWith(url, "/") && !StartsWith(url, "//")
  }

  /** The path an entry preloads for a fetch, if it does. */
  function Declared(entry: string): Option<string> {
    if entry == "" || entry[0] != '<' then None
    else
      var end := IndexOf(entry, '>');
      if end == |entry| || !OneLine(entry[end + 1..]) then None
      else
        var params := Lower(entry[end + 1..]);
        if !HasParameter(params, "rel", "preload") || !HasParameter(params, "as", "fetch") then None
        else if !SameOriginPath(entry[1..end]) then None
        else Some(entry[1..end])
  }

  function OneMore(out: seq<string>, url: string): seq<string> {
    if url in out then out else out + [url]
  }

  function KeysFrom(out: seq<string>, pieces: seq<string>): seq<string>
    decreases |pieces|
  {
    if pieces == [] then out
    else
      var url := Declared(Trim(pieces[0]));
      if url == None then KeysFrom(out, pieces[1..])
      else
        var more := OneMore(out, url.value);
        if |more| >= EDGE_MAX_READS then more else KeysFrom(more, pieces[1..])
  }

  function ReadKeys(link: Option<string>): seq<string> {
    if link == None || link.value == "" then [] else KeysFrom([], Pieces(link.value))
  }

  method EdgeReadKeys(link: Option<string>) returns (keys: seq<string>)
    ensures keys == ReadKeys(link)
  {
    if link == None || link.value == "" { return []; }
    var out: seq<string> := [];
    var pieces := Pieces(link.value);
    for i := 0 to |pieces|
      invariant KeysFrom([], pieces) == KeysFrom(out, pieces[i..])
    {
      var url := Declared(Trim(pieces[i]));
      if url == None { continue; }
      if url.value !in out { out := out + [url.value]; }
      if |out| >= EDGE_MAX_READS { return out; }
    }
    return out;
  }

  predicate DistinctPaths(keys: seq<string>) {
    && (forall i, j :: 0 <= i < j < |keys| ==> keys[i] != keys[j])
    && (forall i :: 0 <= i < |keys| ==> SameOriginPath(keys[i]) && '>' !in keys[i])
  }

  lemma DeclaredShape(entry: string)
    requires Declared(entry).Some?
    ensures
      var url := Declared(entry).value;
      SameOriginPath(url) && '>' !in url && StartsWith(entry, "<" + url + ">")
  {
    var end := IndexOf(entry, '>');
    BracketedPath(entry, end);
  }

  /**
   * An entry declares a path exactly when it is that path in brackets, on this origin, followed by parameters on one
   * line that say `rel=preload` and `as=fetch`, in any case.
   */
  lemma DeclaredMeans(entry: string, url: string)
    ensures
      Declared(entry) == Some(url) <==>
        && SameOriginPath(url) && '>' !in url
        && exists params :: entry == "<" + url + ">" + params && Preloads(params)
  {
    if Declared(entry) == Some(url) { var params := DeclaredSays(entry, url); }
    forall params | entry == "<" + url + ">" + params && '>' !in url
      ensures Declared(entry) == if Preloads(params) && SameOriginPath(url) then Some(url) else None
    {
      DeclaredWhen(url, params);
    }
  }

  predicate Preloads(params: string) {
    && OneLine(params)
    && HasParameter(Lower(params), "rel", "preload") && HasParameter(Lower(params), "as", "fetch")
  }

  lemma DeclaredSays(entry: string, url: string) returns (params: string)
    requires Declared(entry) == Some(url)
    ensures SameOriginPath(url) && '>' !in url && entry == "<" + url + ">" + params && Preloads(params)
  {
    var end := IndexOf(entry, '>');
    BracketedPath(entry, end);
    params := entry[end + 1..];
    Rejoined(entry, end);
  }

  lemma Rejoined(entry: string, end: nat)
    requires 0 < end < |entry| && entry[0] == '<' && entry[end] == '>'
    ensures entry == "<" + entry[1..end] + ">" + entry[end + 1..]
  {
  }

  lemma DeclaredWhen(url: string, params: string)
    requires '>' !in url
    ensures
      Declared("<" + url + ">" + params) == if Preloads(params) && SameOriginPath(url) then Some(url) else None
  {
    Bracketed(url, params);
  }

  lemma Bracketed(url: string, params: string)
    requires '>' !in url
    ensures
      var entry := "<" + url + ">" + params;
      IndexOf(entry, '>') == |url| + 1 && entry[|url| + 2..] == params && entry[1..|url| + 1] == url
  {
    var entry := "<" + url + ">" + params;
    assert forall i :: 0 < i < |url| + 1 ==> entry[i] == url[i - 1];
    IndexIs(entry, '>', |url| + 1);
  }

  lemma BracketedPath(entry: string, end: nat)
    requires 0 < end < |entry| && entry[0] == '<' && entry[end] == '>' && '>' !in entry[..end]
    ensures '>' !in entry[1..end] && StartsWith(entry, "<" + entry[1..end] + ">")
  {
    assert entry[..end + 1] == "<" + entry[1..end] + ">";
    assert forall i :: 0 <= i < end - 1 ==> entry[1..end][i] == entry[..end][i + 1];
  }

  predicate SomeDeclares(pieces: seq<string>, key: string) {
    exists i :: 0 <= i < |pieces| && Declared(Trim(pieces[i])) == Some(key)
  }

  predicate DeclaredIn(piece: string, keys: seq<string>) {
    Declared(Trim(piece)).Some? ==> Declared(Trim(piece)).value in keys
  }

  predicate AllDeclaredIn(pieces: seq<string>, keys: seq<string>) {
    forall i :: 0 <= i < |pieces| ==> DeclaredIn(pieces[i], keys)
  }

  lemma DeclaresStart(pieces: seq<string>, k: string)
    requires pieces != []
    ensures
      SomeDeclares(pieces[1..], k) || Declared(Trim(pieces[0])) == Some(k) ==> SomeDeclares(pieces, k)
  {
    if SomeDeclares(pieces[1..], k) {
      var i :| 0 <= i < |pieces[1..]| && Declared(Trim(pieces[1..][i])) == Some(k);
      assert Declared(Trim(pieces[i + 1])) == Some(k);
    }
  }

  lemma DeclaredStart(pieces: seq<string>, keys: seq<string>)
    requires pieces != [] && DeclaredIn(pieces[0], keys) && AllDeclaredIn(pieces[1..], keys)
    ensures AllDeclaredIn(pieces, keys)
  {
    AllFromFirst((piece: string) => DeclaredIn(piece, keys), pieces);
  }

  lemma AllFromFirst(holds: string -> bool, pieces: seq<string>)
    requires pieces != [] && holds(pieces[0]) && forall i :: 0 <= i < |pieces| - 1 ==> holds(pieces[1..][i])
    ensures forall i :: 0 <= i < |pieces| ==> holds(pieces[i])
  {
    forall i | 0 < i < |pieces| ensures holds(pieces[i]) { assert holds(pieces[1..][i - 1]); }
  }

  lemma OneMoreShape(out: seq<string>, entry: string)
    requires DistinctPaths(out) && Declared(entry).Some?
    ensures DistinctPaths(OneMore(out, Declared(entry).value)) && |OneMore(out, Declared(entry).value)| <= |out| + 1
  {
    DeclaredShape(entry);
    PathAdded(out, Declared(entry).value);
  }

  lemma PathAdded(out: seq<string>, url: string)
    requires DistinctPaths(out) && SameOriginPath(url) && '>' !in url
    ensures DistinctPaths(OneMore(out, url))
  {
  }

  lemma {:induction false} KeysFromShape(out: seq<string>, pieces: seq<string>)
    requires DistinctPaths(out) && |out| < EDGE_MAX_READS
    ensures DistinctPaths(KeysFrom(out, pieces)) && |KeysFrom(out, pieces)| <= EDGE_MAX_READS
    decreases |pieces|
  {
    if pieces != [] {
      var url := Declared(Trim(pieces[0]));
      if url == None {
        KeysFromShape(out, pieces[1..]);
      } else {
        OneMoreShape(out, Trim(pieces[0]));
        if |OneMore(out, url.value)| < EDGE_MAX_READS { KeysFromShape(OneMore(out, url.value), pieces[1..]); }
      }
    }
  }

  /** A key was found before or is declared by a piece, and nothing found is lost. */
  lemma {:induction false} KeysFromOrigin(out: seq<string>, pieces: seq<string>, k: string)
    requires |out| < EDGE_MAX_READS
    ensures k in KeysFrom(out, pieces) ==> k in out || SomeDeclares(pieces, k)
    ensures k in out ==> k in KeysFrom(out, pieces)
    decreases |pieces|
  {
    if pieces != [] {
      DeclaresStart(pieces, k);
      var url := Declared(Trim(pieces[0]));
      var more := if url == None then out else OneMore(out, url.value);
      if |more| < EDGE_MAX_READS { KeysFromOrigin(more, pieces[1..], k); }
    }
  }

  /** While fewer than six were found, every declared path is among them. */
  lemma {:induction false} KeysFromComplete(out: seq<string>, pieces: seq<string>)
    requires |out| < EDGE_MAX_READS && |KeysFrom(out, pieces)| < EDGE_MAX_READS
    ensures AllDeclaredIn(pieces, KeysFrom(out, pieces))
    decreases |pieces|
  {
    if pieces != [] {
      var url := Declared(Trim(pieces[0]));
      var more := if url == None then out else OneMore(out, url.value);
      KeysFromComplete(more, pieces[1..]);
      if url.Some? { KeysFromOrigin(more, pieces[1..], url.value); }
      DeclaredStart(pieces, KeysFrom(out, pieces));
    }
  }

  lemma {:induction false} TrimmedHas(pieces: seq<string>, e: string)
    ensures e in Trimmed(pieces) <==> e != "" && exists i :: 0 <= i < |pieces| && Trim(pieces[i]) == e
  {
    if pieces != [] { TrimmedHas(pieces[1..], e); }
  }

  /**
   * At most six distinct same-origin paths, each declared by an entry, and all that are declared unless there are
   * six.
   */
  lemma ReadKeysMean(link: string)
    requires link != ""
    ensures
      var keys := ReadKeys(Some(link));
      && DistinctPaths(keys) && |keys| <= EDGE_MAX_READS
      && (forall k :: k in keys ==> exists e :: e in Entries(link) && Declared(e) == Some(k))
      && (|keys| < EDGE_MAX_READS ==> forall e :: e in Entries(link) && Declared(e).Some? ==> Declared(e).value in keys)
  {
    var pieces, keys := Pieces(link), ReadKeys(Some(link));
    KeysFromShape([], pieces);
    forall k | k in keys ensures exists e :: e in Entries(link) && Declared(e) == Some(k) {
      KeysFromOrigin([], pieces, k);
      assert SomeDeclares(pieces, k);
      var i :| 0 <= i < |pieces| && Declared(Trim(pieces[i])) == Some(k);
      TrimmedHas(pieces, Trim(pieces[i]));
    }
    forall e | |keys| < EDGE_MAX_READS && e in Entries(link) && Declared(e).Some? ensures Declared(e).value in keys {
      TrimmedHas(pieces, e);
      KeysFromComplete([], pieces);
    }
  }

  /**
   * The header sent on declares no read that the page already carries, and no read at all when fewer than six were
   * declared.
   */
  lemma ServedReadsAreGone(link: string)
    requires link != ""
    ensures
      var keys := ReadKeys(Some(link));
      var left := ReadKeys(WithoutPreloads(Some(link), keys));
      (forall k :: k in keys ==> k !in left) && (|keys| < EDGE_MAX_READS ==> left == [])
  {
    var keys := ReadKeys(Some(link));
    var rest := WithoutPreloads(Some(link), keys);
    forall k | rest.Some? && k in ReadKeys(rest) ensures k !in keys && |keys| == EDGE_MAX_READS { LeftIsNew(link, k); }
    if ReadKeys(rest) != [] { assert ReadKeys(rest)[0] in ReadKeys(rest); }
  }

  lemma LeftDeclares(link: string, keys: seq<string>, k: string) returns (e: string)
    requires link != "" && k in ReadKeys(WithoutPreloads(Some(link), keys))
    ensures e in Entries(link) && !Targets(e, keys) && Declared(e) == Some(k)
  {
    var rest := WithoutPreloads(Some(link), keys);
    PreloadsTakenOut(link, keys);
    ReadKeysMean(rest.value);
    e :| e in Entries(rest.value) && Declared(e) == Some(k);
  }

  lemma LeftIsNew(link: string, k: string)
    requires link != "" && k in ReadKeys(WithoutPreloads(Some(link), ReadKeys(Some(link))))
    ensures k !in ReadKeys(Some(link)) && |ReadKeys(Some(link))| == EDGE_MAX_READS
  {
    var keys := ReadKeys(Some(link));
    var e := LeftDeclares(link, keys, k);
    DeclaredShape(e);
    if k in keys { TargetedByKey(e, k, keys); }
    ReadKeysMean(link);
  }

  lemma TargetedByKey(e: string, k: string, keys: seq<string>)
    requires StartsWith(e, "<" + k + ">") && k in keys
    ensures Targets(e, keys)
  {
    var i :| 0 <= i < |keys| && keys[i] == k;
  }

  // ---------------------------------------------------------------- which six

  /** The declared paths in the order of their entries, each where it is first declared. */
  function AllKeys(out: seq<string>, pieces: seq<string>): seq<string>
    decreases |pieces|
  {
    if pieces == [] then out
    else
      var url := Declared(Trim(pieces[0]));
      AllKeys(if url == None then out else OneMore(out, url.value), pieces[1..])
  }

  lemma {:induction false} AllKeysExtend(out: seq<string>, pieces: seq<string>)
    ensures out <= AllKeys(out, pieces)
    decreases |pieces|
  {
    if pieces != [] {
      var url := Declared(Trim(pieces[0]));
      AllKeysExtend(if url == None then out else OneMore(out, url.value), pieces[1..]);
    }
  }

  lemma {:induction false} KeysAreFirst(out: seq<string>, pieces: seq<string>)
    requires |out| < EDGE_MAX_READS
    ensures
      var all := AllKeys(out, pieces);
      KeysFrom(out, pieces) == if |all| > EDGE_MAX_READS then all[..EDGE_MAX_READS] else all
    decreases |pieces|
  {
    if pieces != [] {
      var url := Declared(Trim(pieces[0]));
      var more := if url == None then out else OneMore(out, url.value);
      if |more| < EDGE_MAX_READS { KeysAreFirst(more, pieces[1..]); } else { AllKeysExtend(more, pieces[1..]); }
    }
  }

  /** The reads of a header are the first six paths it declares. */
  lemma FirstSixAreRead(link: string)
    requires link != ""
    ensures
      var all := AllKeys([], Pieces(link));
      ReadKeys(Some(link)) == if |all| > 6 then all[..6] else all
  {
    KeysAreFirst([], Pieces(link));
  }
}
