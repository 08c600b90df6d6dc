/** Reading a Cache-Control value: which values only forbid storing, and which a handler set to allow it. */
module CacheDirectives {
  import opened Wrappers
  import opened Text

  const NO_STORE: string := "private" + ", " + "no-store"

  // ---------------------------------------------------------------- the strict parse

  predicate IsOws(c: char) {
    c == ' ' || c == '\t'
  }

  function OwsStart(s: string): string {
    if s != "" && IsOws(s[0]) then OwsStart(s[1..]) else s
  }

  function OwsEnd(s: string): string {
    if s != "" && IsOws(s[|s| - 1]) then OwsEnd(s[..|s| - 1]) else s
  }

  function OwsTrim(s: string): string {
    OwsEnd(OwsStart(s))
  }

  predicate NameChar(c: char) {
    'a' <= c <= 'z' || 'A' <= c <= 'Z' || c == '-'
  }

  predicate Digits(s: string) {
    s != "" && forall i :: 0 <= i < |s| ==> '0' <= s[i] <= '9'
  }

  predicate Zeros(s: string) {
    s != "" && forall i :: 0 <= i < |s| ==> s[i] == '0'
  }

  /** A name, alone or with a value of digits. */
  predicate WellFormed(d: string) {
    var eq := IndexOf(d, '=');
    && eq > 0 && (forall i :: 0 <= i < eq ==> NameChar(d[i]))
    && (eq < |d| ==> Digits(d[eq + 1..]))
  }

  const VALUELESS := {"no-store", "no-cache", "must-revalidate", "proxy-revalidate", "private"}
  const ZERO := {"max-age", "s-maxage"}

  /** The checks of one trimmed directive, as they are made. */
  predicate Passes(d: string) {
    && WellFormed(d)
    && var eq := IndexOf(d, '=');
       var name := Lower(d[..eq]);
       if eq == |d| then name in VALUELESS else name in ZERO && Zeros(d[eq + 1..])
  }

  method IsNoStoreOnly(value: Option<string>) returns (r: bool)
    ensures r == NoStoreOnly(value)
  {
    if value == None || value.value == "" { return false; }
    var pieces := Split(value.value, ',');
    var hasNoStore := false;
    for i := 0 to |pieces|
      invariant forall j :: 0 <= j < i ==> Allowed(OwsTrim(pieces[j]))
      invariant hasNoStore <==> exists j :: 0 <= j < i && Lower(OwsTrim(pieces[j])) == "no-store"
    {
      var directive := OwsTrim(pieces[i]);
      PassesMeans(directive);
      if !Passes(directive) { return false; }
      var eq := IndexOf(directive, '=');
      NameAlone(directive);
      if eq == |directive| && Lower(directive[..eq]) == "no-store" { hasNoStore := true; }
    }
    return hasNoStore;
  }

  /** The whole directive is no-store exactly when there is no value and the name is. */
  lemma NameAlone(d: string)
    ensures
      var eq := IndexOf(d, '=');
      Lower(d) == "no-store" <==> eq == |d| && Lower(d[..eq]) == "no-store"
  {
    var eq := IndexOf(d, '=');
    if eq == |d| {
      assert d[..eq] == d;
    } else {
      assert '=' in Lower(d) by { assert Lower(d)[eq] == '='; }
      assert '=' !in "no-store";
    }
  }

  // ---------------------------------------------------------------- what the value means

  /** A directive that grants nothing: one of the five names, or an age of zeros. */
  predicate Allowed(d: string) {
    || Lower(d) in VALUELESS
    || (|d| > 8 && Lower(d[..8]) == "max-age=" && Zeros(d[8..]))
    || (|d| > 9 && Lower(d[..9]) == "s-maxage=" && Zeros(d[9..]))
  }

  predicate PiecesAllowed(pieces: seq<string>) {
    forall i :: 0 <= i < |pieces| ==> Allowed(OwsTrim(pieces[i]))
  }

  predicate PiecesSayNoStore(pieces: seq<string>) {
    exists i :: 0 <= i < |pieces| && Lower(OwsTrim(pieces[i])) == "no-store"
  }

  predicate AllAllowed(value: string) {
    PiecesAllowed(Split(value, ','))
  }

  predicate SaysNoStore(value: string) {
    PiecesSayNoStore(Split(value, ','))
  }

  /** Every directive grants nothing, and one of them is no-store. */
  predicate NoStoreOnly(value: Option<string>) {
    value.Some? && AllAllowed(value.value) && SaysNoStore(value.value)
  }

  lemma ValuelessNames(s: string)
    requires Lower(s) in VALUELESS
    ensures s != "" && forall i :: 0 <= i < |s| ==> NameChar(s[i])
  {
    var low := Lower(s);
    forall i | 0 <= i < |s| ensures NameChar(s[i]) {
      assert low[i] == LowerChar(s[i]);
      if low == "no-store" {} else if low == "no-cache" {} else if low == "must-revalidate" {}
      else if low == "proxy-revalidate" {} else {}
    }
  }

  lemma ZeroNames(s: string)
    requires Lower(s) in ZERO
    ensures (|s| == 7 || |s| == 8) && (forall i :: 0 <= i < |s| ==> NameChar(s[i]))
    ensures |s| == 7 ==> Lower(s) == "max-age"
    ensures |s| == 8 ==> Lower(s) == "s-maxage"
  {
    var low := Lower(s);
    forall i | 0 <= i < |s| ensures NameChar(s[i]) {
      assert low[i] == LowerChar(s[i]);
      if low == "max-age" {} else {}
    }
  }

  lemma NameWithEquals(d: string, n: nat)
    requires n < |d|
    ensures Lower(d[..n + 1]) == Lower(d[..n]) + [LowerChar(d[n])]
    ensures LowerChar(d[n]) == '=' <==> d[n] == '='
  {
  }

  lemma AllowedPasses(d: string, n: nat)
    requires n < |d| && d[n] == '=' && Lower(d[..n]) in ZERO && Zeros(d[n + 1..])
    ensures Passes(d)
  {
    ZeroNames(d[..n]);
    assert forall i :: 0 <= i < n ==> d[i] == d[..n][i];
    IndexIs(d, '=', n);
  }

  /** The step-by-step checks accept exactly the directives that grant nothing. */
  lemma PassesMeans(d: string)
    ensures Passes(d) <==> Allowed(d)
  {
    var eq := IndexOf(d, '=');
    if Lower(d) in VALUELESS {
      ValuelessNames(d);
      IndexIs(d, '=', |d|);
      assert d[..|d|] == d;
    } else if |d| > 8 && Lower(d[..8]) == "max-age=" && Zeros(d[8..]) {
      NameWithEquals(d, 7);
      assert Lower(d[..7]) == "max-age="[..7] == "max-age" && "max-age="[7] == '=';
      AllowedPasses(d, 7);
    } else if |d| > 9 && Lower(d[..9]) == "s-maxage=" && Zeros(d[9..]) {
      NameWithEquals(d, 8);
      assert Lower(d[..8]) == "s-maxage="[..8] == "s-maxage" && "s-maxage="[8] == '=';
      AllowedPasses(d, 8);
    }
    if Passes(d) {
      if eq == |d| { assert d[..eq] == d; } else { ZeroNames(d[..eq]); NameWithEquals(d, eq); }
    }
  }

  // ---------------------------------------------------------------- joined values

  lemma SplitStart(c: char, s: string)
    ensures Split([c] + s, ',') == if c == ',' then [""] + Split(s, ',')
        else [[c] + Split(s, ',')[0]] + Split(s, ',')[1..]
  {
    assert ([c] + s)[1..] == s;
  }

  lemma {:induction false} SplitJoin(a: string, b: string)
    ensures Split(a + ("," + b), ',') == Split(a, ',') + Split(b, ',')
  {
    if a == "" {
      SplitStart(',', b);
      assert a + ("," + b) == [','] + b;
    } else {
      SplitJoin(a[1..], b);
      SplitLonger(a[0], a[1..] + ("," + b), Split(a[1..], ','), Split(b, ','));
      SplitStart(a[0], a[1..]);
      assert a + ("," + b) == [a[0]] + (a[1..] + ("," + b)) && a == [a[0]] + a[1..];
    }
  }

  lemma SplitLonger(c: char, s: string, x: seq<string>, y: seq<string>)
    requires Split(s, ',') == x + y && x != []
    ensures Split([c] + s, ',') == (if c == ',' then [""] + x else [[c] + x[0]] + x[1..]) + y
  {
    SplitStart(c, s);
    assert (x + y)[0] == x[0] && (x + y)[1..] == x[1..] + y;
  }

  lemma PiecesJoin(x: seq<string>, y: seq<string>)
    ensures PiecesAllowed(x + y) <==> PiecesAllowed(x) && PiecesAllowed(y)
    ensures PiecesSayNoStore(x + y) <==> PiecesSayNoStore(x) || PiecesSayNoStore(y)
  {
    var all := x + y;
    assert forall i :: 0 <= i < |x| ==> all[i] == x[i];
    assert forall i :: 0 <= i < |y| ==> all[|x| + i] == y[i];
  }

  /** A space after a comma changes no directive. */
  lemma SplitSpace(b: string)
    ensures |Split(" " + b, ',')| == |Split(b, ',')|
    ensures forall i :: 0 <= i < |Split(b, ',')| ==> OwsTrim(Split(" " + b, ',')[i]) == OwsTrim(Split(b, ',')[i])
  {
    assert (" " + b)[1..] == b;
    var first := Split(b, ',')[0];
    assert (" " + first)[1..] == first;
  }

  /** A joined value only forbids storing exactly when both parts grant nothing and one of them says no-store. */
  lemma JoinedNoStoreOnly(a: string, b: string)
    ensures
      NoStoreOnly(Some(a + ", " + b)) <==>
        AllAllowed(a) && AllAllowed(b) && (SaysNoStore(a) || SaysNoStore(b))
  {
    var x, y, z := Split(a, ','), Split(b, ','), Split(" " + b, ',');
    assert a + ", " + b == a + ("," + (" " + b));
    SplitJoin(a, " " + b);
    SplitSpace(b);
    PiecesJoin(x, z);
    assert PiecesAllowed(y) <==> PiecesAllowed(z);
    assert PiecesSayNoStore(y) <==> PiecesSayNoStore(z);
  }

  // ---------------------------------------------------------------- what a handler allowed

  predicate WordChar(c: char) {
    'a' <= c <= 'z' || 'A' <= c <= 'Z' || '0' <= c <= '9' || c == '_'
  }

  /** The word stands in the value, in any case, at position `i` after a word boundary. */
  predicate WordAt(value: string, word: string, i: nat) {
    && i + |word| <= |value| && Lower(value[i..i + |word|]) == word
    && (i == 0 || !WordChar(value[i - 1]))
  }

  predicate HasWord(value: string, word: string) {
    exists i :: 0 <= i <= |value| && WordAt(value, word, i) && (i + |word| == |value| || !WordChar(value[i + |word|]))
  }

  predicate HasPositive(value: string, name: string) {
    exists i :: 0 <= i <= |value| && WordAt(value, name, i) && i + |name| < |value| && '1' <= value[i + |name|] <= '9'
  }

  /** An explicit permission to store, free of no-store, no-cache and private. */
  predicate HandlerSetCacheable(value: Option<string>) {
    && value.Some? && value.value != ""
    && !HasWord(value.value, "no-store") && !HasWord(value.value, "no-cache") && !HasWord(value.value, "private")
    && (HasWord(value.value, "public") || HasPositive(value.value, "s-maxage=") || HasPositive(value.value, "max-age="))
  }

  /** Where a piece stands: after the start or a comma, before the end or a comma. */
  lemma {:induction false} PiecePlace(value: string, i: nat) returns (a: string, b: string)
    requires i < |Split(value, ',')|
    ensures value == a + Split(value, ',')[i] + b
    ensures (a == "" || a[|a| - 1] == ',') && (b == "" || b[0] == ',') && (i == 0 <==> a == "")
  {
    if value == "" {
      a, b := "", "";
    } else if value[0] == ',' && i == 0 {
      a, b := "", value;
    } else {
      var rest := Split(value[1..], ',');
      assert value == [value[0]] + value[1..];
      a, b := PiecePlace(value[1..], if value[0] == ',' then i - 1 else i);
      if value[0] == ',' || i > 0 { a := [value[0]] + a; }
    }
  }

  lemma {:induction false} OwsStartPlace(s: string) returns (a: string)
    ensures s == a + OwsStart(s) && forall j :: 0 <= j < |a| ==> IsOws(a[j])
  {
    if s != "" && IsOws(s[0]) {
      var rest := OwsStartPlace(s[1..]);
      a := [s[0]] + rest;
      assert s == [s[0]] + s[1..] && [s[0]] + (rest + OwsStart(s)) == a + OwsStart(s);
    } else {
      a := "";
    }
  }

  lemma {:induction false} OwsEndPlace(s: string) returns (b: string)
    ensures s == OwsEnd(s) + b && forall j :: 0 <= j < |b| ==> IsOws(b[j])
  {
    if s != "" && IsOws(s[|s| - 1]) {
      b := OwsEndPlace(s[..|s| - 1]);
      b := b + [s[|s| - 1]];
      assert s == s[..|s| - 1] + [s[|s| - 1]];
    } else {
      b := "";
    }
  }

  predicate Delimiter(c: char) {
    c == ',' || IsOws(c)
  }

  /** Where a trimmed directive stands in the value: between delimiters. */
  lemma DirectivePlace(v: string, i: nat) returns (before: string, after: string)
    requires i < |Split(v, ',')|
    ensures v == before + OwsTrim(Split(v, ',')[i]) + after
    ensures (before == "" || Delimiter(before[|before| - 1])) && (after == "" || Delimiter(after[0]))
  {
    var piece := Split(v, ',')[i];
    var a, b := PiecePlace(v, i);
    var l := OwsStartPlace(piece);
    var r := OwsEndPlace(OwsStart(piece));
    before, after := a + l, r + b;
    Around(a, l, OwsTrim(piece), r, b);
  }

  lemma Around(a: string, l: string, d: string, r: string, b: string)
    ensures a + (l + (d + r)) + b == (a + l) + d + (r + b)
  {
  }

  lemma DelimitedWord(v: string, before: string, d: string, after: string)
    requires v == before + d + after
    requires (before == "" || Delimiter(before[|before| - 1])) && (after == "" || Delimiter(after[0]))
    ensures HasWord(v, Lower(d))
  {
    var n := |before|;
    assert v[n..n + |d|] == d;
    assert WordAt(v, Lower(d), n);
  }

  /** A directive's name, up to an equals sign and a positive digit. */
  lemma DelimitedAge(v: string, before: string, d: string, after: string, name: string)
    requires v == before + d + after && (before == "" || Delimiter(before[|before| - 1]))
    requires |d| > |name| && Lower(d[..|name|]) == name && '1' <= d[|name|] <= '9'
    ensures HasPositive(v, name)
  {
    var n := |before|;
    assert v[n..n + |name|] == d[..|name|] && v[n + |name|] == d[|name|];
    assert WordAt(v, name, n);
  }

  /** A directive no-store, no-cache or private, in any case and beside whatever else, leaves nothing allowed. */
  lemma RestrictionWins(value: string, i: nat)
    requires i < |Split(value, ',')|
    requires
      var d := Lower(OwsTrim(Split(value, ',')[i]));
      d == "no-store" || d == "no-cache" || d == "private"
    ensures !HandlerSetCacheable(Some(value))
  {
    var before, after := DirectivePlace(value, i);
    DelimitedWord(value, before, OwsTrim(Split(value, ',')[i]), after);
  }

  /** The directive allows storing: public, or an age that begins with a positive digit. */
  predicate Permits(d: string) {
    || Lower(d) == "public"
    || (|d| > 8 && Lower(d[..8]) == "max-age=" && '1' <= d[8] <= '9')
    || (|d| > 9 && Lower(d[..9]) == "s-maxage=" && '1' <= d[9] <= '9')
  }

  /** A directive that allows storing does so exactly when none of the three restricting words is in the value. */
  lemma PermissionGrants(value: string, i: nat)
    requires i < |Split(value, ',')| && Permits(OwsTrim(Split(value, ',')[i]))
    ensures
      HandlerSetCacheable(Some(value)) <==>
        !HasWord(value, "no-store") && !HasWord(value, "no-cache") && !HasWord(value, "private")
  {
    var d := OwsTrim(Split(value, ',')[i]);
    var before, after := DirectivePlace(value, i);
    if Lower(d) == "public" {
      DelimitedWord(value, before, d, after);
    } else if |d| > 8 && Lower(d[..8]) == "max-age=" && '1' <= d[8] <= '9' {
      DelimitedAge(value, before, d, after, "max-age=");
    } else {
      DelimitedAge(value, before, d, after, "s-maxage=");
    }
  }

  /** A value that allows nothing by name and no age above zero is not set cacheable. */
  lemma NothingGranted(value: string)
    requires !HasWord(value, "public")
    requires forall i :: 0 <= i < |value| ==> !(value[i] == '=' && i + 1 < |value| && '1' <= value[i + 1] <= '9')
    ensures !HandlerSetCacheable(Some(value))
  {
    AgeHasEquals(value, "max-age=");
    AgeHasEquals(value, "s-maxage=");
  }

  lemma AgeHasEquals(value: string, name: string)
    requires name == "max-age=" || name == "s-maxage="
    ensures HasPositive(value, name) ==>
        exists i :: 0 <= i < |value| - 1 && value[i] == '=' && '1' <= value[i + 1] <= '9'
  {
    if HasPositive(value, name) {
      var i :| 0 <= i <= |value| && WordAt(value, name, i) && i + |name| < |value|
          && '1' <= value[i + |name|] <= '9';
      var n := i + |name| - 1;
      assert Lower(value[i..i + |name|])[|name| - 1] == '=';
      assert LowerChar(value[n]) == '=';
      assert value[n] == '=' && '1' <= value[n + 1] <= '9';
    }
  }

  /** A value never both forbids storing and counts as set cacheable. */
  lemma NoStoreIsNotCacheable(value: Option<string>)
    requires NoStoreOnly(value)
    ensures !HandlerSetCacheable(value)
  {
    var v := value.value;
    var i :| 0 <= i < |Split(v, ',')| && Lower(OwsTrim(Split(v, ',')[i])) == "no-store";
    RestrictionWins(v, i);
  }

  lemma AllowedPermitsNothing(d: string)
    requires Allowed(d)
    ensures !Permits(d)
  {
    if |d| > 8 && Lower(d[..8]) == "max-age=" {
      EqualsIn(d, 8);
      assert d[8..][0] == d[8];
    } else if |d| > 9 && Lower(d[..9]) == "s-maxage=" {
      EqualsIn(d, 9);
      assert d[9..][0] == d[9];
    }
  }

  /** A text with an equals sign is none of the names that stand alone. */
  lemma EqualsIn(d: string, n: nat)
    requires 0 < n <= |d| && Lower(d[..n])[n - 1] == '='
    ensures Lower(d) !in VALUELESS && Lower(d) != "public"
  {
    assert Lower(d)[n - 1] == '=';
  }

  /** A value that only forbids storing has no directive that allows it. */
  lemma NoStoreOnlyPermitsNothing(value: string, i: nat)
    requires NoStoreOnly(Some(value)) && i < |Split(value, ',')|
    ensures !Permits(OwsTrim(Split(value, ',')[i]))
  {
    AllowedPermitsNothing(OwsTrim(Split(value, ',')[i]));
  }

  /** The five names in any case, and both ages with any number of zeros, grant nothing. */
  lemma GrantingNothing(d: string, zeros: string)
    requires Zeros(zeros)
    ensures
      Lower(d) in {"no-store", "no-cache", "must-revalidate", "proxy-revalidate", "private"} ==> Allowed(d)
    ensures Lower(d) == "max-age=" ==> Allowed(d + zeros)
    ensures Lower(d) == "s-maxage=" ==> Allowed(d + zeros)
  {
    assert (d + zeros)[..|d|] == d && (d + zeros)[|d|..] == zeros;
  }
}
