/**
 * Which routes get a streamed body cap: plugin policies are checked and collected once, and a request takes the first
 * policy that matches its method and path.
 */
module BodyPolicies {
  import opened Wrappers
  import opened Text
  import opened Sequences

  // ---------------------------------------------------------------- what a plugin may hand over

  datatype Value = Undefined | Text(s: string) | Number(n: int) | Fraction | Other

  datatype Property = Data(value: Value) | Accessor

  /** An entry of a plugin's list: something that is not a plain object, or an object's own properties. */
  datatype Entry = Foreign | Plain(properties: map<string, Property>)

  datatype Limits = Missing | NotAnArray | Entries(list: seq<Entry>)

  datatype Plugin = Plugin(name: string, limits: Limits)

  datatype Policy = Policy(pathPrefix: string, maxBytes: nat)

  datatype Error = NotArray(name: string) | NotData | WrongShape | WrongPrefix | Protected(prefix: string)
                 | WrongMaxBytes | Duplicate(prefix: string)

  const FIELDS := {"method", "pathPrefix", "finalSegment", "maxBytes"}

  // ---------------------------------------------------------------- one entry

  predicate DataOnly(e: Entry) {
    e.Plain? && forall k :: k in e.properties ==> k in FIELDS && e.properties[k].Data?
  }

  function Field(e: Entry, name: string): Value
    requires DataOnly(e)
  {
    if name in e.properties then e.properties[name].value else Undefined
  }

  predicate SegmentChar(c: char) {
    'A' <= c <= 'Z' || 'a' <= c <= 'z' || '0' <= c <= '9' || c in "._~-"
  }

  /** Absolute, ending in a slash, with at least one segment and none empty. */
  predicate LiteralPrefix(p: string) {
    && |p| >= 3 && p[0] == '/' && p[|p| - 1] == '/'
    && (forall i :: 0 <= i < |p| ==> p[i] == '/' || SegmentChar(p[i]))
    && (forall i :: 0 <= i < |p| - 1 ==> !(p[i] == '/' && p[i + 1] == '/'))
    && "." !in Split(p, '/') && ".." !in Split(p, '/')
  }

  const NAMESPACES := [
    "/v1/admin", "/v1/shop", "/v1/apps", "/v1/licenses", "/v1/dl", "/v1/pro", "/v1/setup", "/v1/webhooks",
    "/v1/health", "/v1/readyz", "/v1/maintenance", "/v1/openapi.json", "/api/licenses", "/releases", "/.well-known"]

  predicate IsProtected(p: string) {
    var low := Lower(p);
    || low == "/v1/"
    || exists i :: 0 <= i < |NAMESPACES| && (low == NAMESPACES[i] || StartsWith(low, NAMESPACES[i] + "/"))
  }

  /** The checks of one entry, in the order they are made. */
  function Check(e: Entry): Result<Policy, Error> {
    if !DataOnly(e) then Err(NotData)
    else if Field(e, "method") != Text("PUT") || Field(e, "finalSegment") != Text("ascii-digits") then Err(WrongShape)
    else
      var prefix := Field(e, "pathPrefix");
      if !prefix.Text? || !LiteralPrefix(prefix.s) then Err(WrongPrefix)
      else if IsProtected(prefix.s) then Err(Protected(prefix.s))
      else
        var size := Field(e, "maxBytes");
        if !size.Number? || size.n > MAX_SAFE_INTEGER || size.n <= 0 then Err(WrongMaxBytes)
        else Ok(Policy(prefix.s, size.n))
  }

  /** The one object that stands for a policy. */
  function Written(p: Policy): Entry {
    Plain(map[
      "method" := Data(Text("PUT")), "finalSegment" := Data(Text("ascii-digits")),
      "pathPrefix" := Data(Text(p.pathPrefix)), "maxBytes" := Data(Number(p.maxBytes))])
  }

  /**
   * An entry is good exactly when it is a plain object with the four fields as data and nothing else, with a literal
   * unprotected prefix and a positive safe size.
   */
  lemma GoodEntryMeans(e: Entry, p: Policy)
    ensures
      Check(e) == Ok(p) <==>
        && e == Written(p) && LiteralPrefix(p.pathPrefix) && !IsProtected(p.pathPrefix)
        && 0 < p.maxBytes <= MAX_SAFE_INTEGER
  {
    if Check(e) == Ok(p) {
      assert e.properties.Keys <= FIELDS;
      assert e.properties == Written(p).properties;
    }
  }

  // ---------------------------------------------------------------- the whole list

  predicate Has(result: seq<Policy>, prefix: string) {
    exists i :: 0 <= i < |result| && result[i].pathPrefix == prefix
  }

  function AddEntry(result: seq<Policy>, e: Entry): Result<seq<Policy>, Error> {
    var checked := Check(e);
    if checked.Err? then Err(checked.error)
    else if Has(result, checked.value.pathPrefix) then Err(Duplicate(checked.value.pathPrefix))
    else Ok(result + [checked.value])
  }

  function AddEntries(result: seq<Policy>, list: seq<Entry>): Result<seq<Policy>, Error>
    decreases |list|
  {
    if list == [] then Ok(result)
    else
      var added := AddEntry(result, list[0]);
      if added.Err? then added else AddEntries(added.value, list[1..])
  }

  function AddPlugin(result: seq<Policy>, p: Plugin): Result<seq<Policy>, Error> {
    match p.limits
    case Missing => Ok(result)
    case NotAnArray => Err(NotArray(p.name))
    case Entries(list) => AddEntries(result, list)
  }

  function AddPlugins(result: seq<Policy>, plugins: seq<Plugin>): Result<seq<Policy>, Error>
    decreases |plugins|
  {
    if plugins == [] then Ok(result)
    else
      var added := AddPlugin(result, plugins[0]);
      if added.Err? then added else AddPlugins(added.value, plugins[1..])
  }

  method HasPrefix(result: seq<Policy>, prefix: string) returns (found: bool)
    ensures found == Has(result, prefix)
  {
    for k := 0 to |result|
      invariant forall j :: 0 <= j < k ==> result[j].pathPrefix != prefix
    {
      if result[k].pathPrefix == prefix { return true; }
    }
    return false;
  }

  method ResolveEntries(before: seq<Policy>, list: seq<Entry>) returns (r: Result<seq<Policy>, Error>)
    ensures r == AddEntries(before, list)
  {
    var result := before;
    for j := 0 to |list|
      invariant AddEntries(before, list) == AddEntries(result, list[j..])
    {
      var checked := Check(list[j]);
      if checked.Err? { return Err(checked.error); }
      var duplicate := HasPrefix(result, checked.value.pathPrefix);
      if duplicate { return Err(Duplicate(checked.value.pathPrefix)); }
      result := result + [checked.value];
    }
    return Ok(result);
  }

  method ResolvePolicies(plugins: seq<Plugin>) returns (r: Result<seq<Policy>, Error>)
    ensures r == AddPlugins([], plugins)
    ensures r.Ok? ==> Sound(r.value)
  {
    var result: seq<Policy> := [];
    PluginsSound([], plugins);
    for i := 0 to |plugins|
      invariant AddPlugins([], plugins) == AddPlugins(result, plugins[i..])
    {
      var p := plugins[i];
      if p.limits.Missing? { continue; }
      if p.limits.NotAnArray? { return Err(NotArray(p.name)); }
      var added := ResolveEntries(result, p.limits.list);
      if added.Err? { return added; }
      result := added.value;
    }
    return Ok(result);
  }

  // ---------------------------------------------------------------- at most one policy matches

  predicate Distinct(result: seq<Policy>) {
    forall i, j :: 0 <= i < j < |result| ==> result[i].pathPrefix != result[j].pathPrefix
  }

  predicate Digits(s: string) {
    forall i :: 0 <= i < |s| ==> '0' <= s[i] <= '9'
  }

  predicate Matches(p: Policy, httpMethod: string, path: string) {
    && httpMethod == "PUT" && StartsWith(path, p.pathPrefix)
    && |path| > |p.pathPrefix| && Digits(path[|p.pathPrefix|..])
  }

  /** A policy takes a PUT to its prefix followed by digits, at least one, and by nothing else. */
  lemma MatchMeans(p: Policy, httpMethod: string, path: string)
    ensures
      Matches(p, httpMethod, path) <==>
        httpMethod == "PUT" && exists digits :: digits != "" && Digits(digits) && path == p.pathPrefix + digits
  {
    if Matches(p, httpMethod, path) { assert path == p.pathPrefix + path[|p.pathPrefix|..]; }
    forall digits | path == p.pathPrefix + digits
      ensures StartsWith(path, p.pathPrefix) && path[|p.pathPrefix|..] == digits
    {
    }
  }

  function FirstMatch(result: seq<Policy>, httpMethod: string, path: string): Option<Policy> {
    if result == [] then None
    else if Matches(result[0], httpMethod, path) then Some(result[0])
    else FirstMatch(result[1..], httpMethod, path)
  }

  lemma PathAround(p: Policy, httpMethod: string, path: string, k: nat)
    requires Matches(p, httpMethod, path) && LiteralPrefix(p.pathPrefix) && k < |path|
    ensures path[|p.pathPrefix| - 1] == '/'
    ensures k >= |p.pathPrefix| ==> '0' <= path[k] <= '9'
  {
    var a := p.pathPrefix;
    assert path[..|a|][|a| - 1] == '/';
    if k >= |a| { assert path[|a|..][k - |a|] == path[k]; }
  }

  /**
   * Two prefixes that match one path are the same prefix: the slash that ends the longer one would stand among the
   * digits.
   */
  lemma OnePrefix(p: Policy, q: Policy, httpMethod: string, path: string)
    requires Matches(p, httpMethod, path) && Matches(q, httpMethod, path)
    requires LiteralPrefix(p.pathPrefix) && LiteralPrefix(q.pathPrefix)
    ensures p.pathPrefix == q.pathPrefix
  {
    PathAround(p, httpMethod, path, |q.pathPrefix| - 1);
    PathAround(q, httpMethod, path, |p.pathPrefix| - 1);
  }

  predicate Sound(result: seq<Policy>) {
    && Distinct(result)
    && forall i :: 0 <= i < |result| ==>
         LiteralPrefix(result[i].pathPrefix) && !IsProtected(result[i].pathPrefix)
             && 0 < result[i].maxBytes <= MAX_SAFE_INTEGER
  }

  lemma {:induction false} EntriesSound(result: seq<Policy>, list: seq<Entry>)
    requires Sound(result)
    ensures AddEntries(result, list).Ok? ==> Sound(AddEntries(result, list).value)
    decreases |list|
  {
    if list != [] && AddEntry(result, list[0]).Ok? {
      EntriesSound(AddEntry(result, list[0]).value, list[1..]);
    }
  }

  lemma {:induction false} PluginsSound(result: seq<Policy>, plugins: seq<Plugin>)
    requires Sound(result)
    ensures AddPlugins(result, plugins).Ok? ==> Sound(AddPlugins(result, plugins).value)
    decreases |plugins|
  {
    if plugins != [] {
      var p := plugins[0];
      if p.limits.Entries? { EntriesSound(result, p.limits.list); }
      if AddPlugin(result, p).Ok? { PluginsSound(AddPlugin(result, p).value, plugins[1..]); }
    }
  }

  lemma AtMostOneMatch(plugins: seq<Plugin>, httpMethod: string, path: string, i: nat, j: nat)
    requires AddPlugins([], plugins).Ok?
    requires
      var policies := AddPlugins([], plugins).value;
      && i < |policies| && j < |policies|
      && Matches(policies[i], httpMethod, path) && Matches(policies[j], httpMethod, path)
    ensures i == j
  {
    PluginsSound([], plugins);
    var policies := AddPlugins([], plugins).value;
    OnePrefix(policies[i], policies[j], httpMethod, path);
  }

  /** A path of the engine's own: inside one of its namespaces, in any case, or right under the version. */
  predicate EnginePath(path: string) {
    || (exists i :: 0 <= i < |NAMESPACES| && StartsWith(Lower(path), NAMESPACES[i] + "/"))
    || (StartsWith(Lower(path), "/v1/") && Digits(path[4..]))
  }

  /** No accepted policy caps a path of the engine's own. */
  lemma NoEnginePathIsCapped(plugins: seq<Plugin>, httpMethod: string, path: string, p: Policy)
    requires AddPlugins([], plugins).Ok? && p in AddPlugins([], plugins).value && EnginePath(path)
    ensures !Matches(p, httpMethod, path)
  {
    PluginsSound([], plugins);
    if Matches(p, httpMethod, path) {
      if i :| 0 <= i < |NAMESPACES| && StartsWith(Lower(path), NAMESPACES[i] + "/") {
        InsideNamespace(p, httpMethod, path, i);
      } else {
        UnderVersion(p, httpMethod, path);
      }
    }
  }

  lemma LowerPrefix(p: Policy, httpMethod: string, path: string, start: string)
    requires Matches(p, httpMethod, path) && StartsWith(Lower(path), start) && |start| <= |p.pathPrefix|
    ensures StartsWith(Lower(p.pathPrefix), start)
  {
    assert forall i :: 0 <= i < |start| ==> Lower(p.pathPrefix)[i] == Lower(path)[i];
    assert Lower(p.pathPrefix)[..|start|] == Lower(path)[..|start|];
  }

  lemma InsideNamespace(p: Policy, httpMethod: string, path: string, i: nat)
    requires Matches(p, httpMethod, path) && LiteralPrefix(p.pathPrefix) && i < |NAMESPACES|
    requires StartsWith(Lower(path), NAMESPACES[i] + "/")
    ensures IsProtected(p.pathPrefix)
  {
    var start := NAMESPACES[i] + "/";
    var k := |start| - 1;
    assert Lower(path)[..|start|][k] == '/';
    assert LowerChar(path[k]) == '/';
    PathAround(p, httpMethod, path, k);
    LowerPrefix(p, httpMethod, path, start);
  }

  lemma UnderVersion(p: Policy, httpMethod: string, path: string)
    requires Matches(p, httpMethod, path) && LiteralPrefix(p.pathPrefix)
    requires StartsWith(Lower(path), "/v1/") && Digits(path[4..])
    ensures IsProtected(p.pathPrefix)
  {
    var n := |p.pathPrefix|;
    assert Lower(path)[..4][3] == '/' && LowerChar(path[3]) == '/';
    PathAround(p, httpMethod, path, 3);
    assert forall k :: 0 <= k < |path| - 4 ==> path[4..][k] == path[k + 4];
    LowerPrefix(p, httpMethod, path, "/v1/");
    assert Lower(p.pathPrefix) == "/v1/";
  }

  // ---------------------------------------------------------------- plugin order does not matter

  function Flat(plugins: seq<Plugin>): seq<Entry> {
    if plugins == [] then []
    else Items(plugins[0]) + Flat(plugins[1..])
  }

  predicate AllArrays(plugins: seq<Plugin>) {
    forall p :: p in plugins ==> !p.limits.NotAnArray?
  }

  predicate AllGood(list: seq<Entry>) {
    forall e :: e in list ==> Check(e).Ok?
  }

  function Policies(list: seq<Entry>): (r: seq<Policy>)
    requires AllGood(list)
    ensures |r| == |list| && forall i :: 0 <= i < |r| ==> r[i] == Check(list[i]).value
  {
    seq(|list|, i requires 0 <= i < |list| => assert list[i] in list; Check(list[i]).value)
  }

  lemma PoliciesStart(result: seq<Policy>, list: seq<Entry>)
    requires list != [] && AllGood(list) && AllGood(list[1..])
    ensures result + Policies(list) == result + [Check(list[0]).value] + Policies(list[1..])
  {
    var all, rest := Policies(list), Policies(list[1..]);
    forall i | 0 <= i < |rest| ensures rest[i] == all[i + 1] { assert list[1..][i] == list[i + 1]; }
    StartedWith(result, all, all[0], rest);
  }

  lemma GoodStart(list: seq<Entry>)
    requires list != []
    ensures AllGood(list) <==> Check(list[0]).Ok? && AllGood(list[1..])
  {
    assert list == [list[0]] + list[1..];
  }

  /** A prefix that is there already makes the whole list refused. */
  lemma RepeatedPrefix(result: seq<Policy>, list: seq<Entry>)
    requires list != [] && AllGood(list) && Has(result, Check(list[0]).value.pathPrefix)
    ensures !Distinct(result + Policies(list))
  {
    var all := result + Policies(list);
    var i :| 0 <= i < |result| && result[i].pathPrefix == Check(list[0]).value.pathPrefix;
    assert all[i].pathPrefix == all[|result|].pathPrefix;
  }

  /** Entries are accepted exactly when each is good and all prefixes, old and new, differ. */
  lemma {:induction false} EntriesAccepted(result: seq<Policy>, list: seq<Entry>)
    requires Distinct(result)
    ensures AddEntries(result, list).Ok? <==> AllGood(list) && Distinct(result + Policies(list))
    ensures AddEntries(result, list).Ok? ==> AddEntries(result, list).value == result + Policies(list)
    decreases |list|
  {
    if list == [] {
      assert result + Policies(list) == result;
    } else {
      GoodStart(list);
      if AllGood(list) { PoliciesStart(result, list); }
      if Check(list[0]).Ok? {
        var p := Check(list[0]).value;
        if Has(result, p.pathPrefix) {
          if AllGood(list) { RepeatedPrefix(result, list); }
        } else {
          EntriesAccepted(result + [p], list[1..]);
        }
      }
    }
  }

  lemma {:induction false} EntriesJoin(result: seq<Policy>, a: seq<Entry>, b: seq<Entry>)
    ensures AddEntries(result, a + b) == (var x := AddEntries(result, a); if x.Err? then x else AddEntries(x.value, b))
    decreases |a|
  {
    if a == [] {
      assert [] + b == b;
    } else {
      assert (a + b)[1..] == a[1..] + b;
      if AddEntry(result, a[0]).Ok? { EntriesJoin(AddEntry(result, a[0]).value, a[1..], b); }
    }
  }

  /** Collecting plugin by plugin collects all entries at once. */
  lemma {:induction false} PluginsFlatten(result: seq<Policy>, plugins: seq<Plugin>)
    ensures AddPlugins(result, plugins).Ok? <==> AllArrays(plugins) && AddEntries(result, Flat(plugins)).Ok?
    ensures AddPlugins(result, plugins).Ok? ==> AddPlugins(result, plugins) == AddEntries(result, Flat(plugins))
    decreases |plugins|
  {
    if plugins != [] {
      var p := plugins[0];
      assert plugins == [p] + plugins[1..];
      if p.limits.Entries? { EntriesJoin(result, p.limits.list, Flat(plugins[1..])); }
      if AddPlugin(result, p).Ok? { PluginsFlatten(AddPlugin(result, p).value, plugins[1..]); }
      assert [] + Flat(plugins[1..]) == Flat(plugins[1..]);
    }
  }

  function Names(policies: seq<Policy>): (r: seq<string>)
    ensures |r| == |policies| && forall i :: 0 <= i < |r| ==> r[i] == policies[i].pathPrefix
  {
    seq(|policies|, i requires 0 <= i < |policies| => policies[i].pathPrefix)
  }

  function Range(names: seq<string>): set<string> {
    set n | n in names
  }

  predicate NoRepeat(names: seq<string>) {
    forall i, j :: 0 <= i < j < |names| ==> names[i] != names[j]
  }

  /** Names differ exactly when there are as many values as positions. */
  lemma {:induction false} DistinctBySize(names: seq<string>)
    ensures |Range(names)| <= |names|
    ensures NoRepeat(names) <==> |Range(names)| == |names|
  {
    if names != [] {
      var n := |names| - 1;
      DistinctBySize(names[..n]);
      assert names == names[..n] + [names[n]];
      assert Range(names) == Range(names[..n]) + {names[n]};
      if names[n] in names[..n] {
        assert Range(names) == Range(names[..n]);
        var i :| 0 <= i < n && names[..n][i] == names[n];
        assert names[i] == names[n];
      } else {
        assert |Range(names)| == |Range(names[..n])| + 1;
        assert NoRepeat(names) <==> NoRepeat(names[..n]);
      }
    }
  }

  /** When a list of plugins is accepted, said without any order. */
  lemma Accepted(plugins: seq<Plugin>)
    ensures
      AddPlugins([], plugins).Ok? <==>
        AllArrays(plugins) && AllGood(Flat(plugins)) && |Range(Names(Policies(Flat(plugins))))| == |Flat(plugins)|
    ensures
      AddPlugins([], plugins).Ok? ==>
        AddPlugins([], plugins).value == Policies(Flat(plugins)) && Sound(Policies(Flat(plugins)))
  {
    PluginsFlatten([], plugins);
    EntriesTogether(Flat(plugins));
    PluginsSound([], plugins);
  }

  lemma EntriesTogether(list: seq<Entry>)
    ensures AddEntries([], list).Ok? <==> AllGood(list) && |Range(Names(Policies(list)))| == |list|
    ensures AddEntries([], list).Ok? ==> AddEntries([], list).value == Policies(list)
  {
    EntriesAccepted([], list);
    if AllGood(list) {
      assert [] + Policies(list) == Policies(list);
      DistinctNames(Policies(list));
    }
  }

  lemma DistinctNames(policies: seq<Policy>)
    ensures Distinct(policies) <==> |Range(Names(policies))| == |policies|
  {
    DistinctBySize(Names(policies));
  }

  function Items(p: Plugin): seq<Entry> {
    if p.limits.Entries? then p.limits.list else []
  }

  /** How often an entry stands in a plugin's list. */
  function CountOf(e: Entry): Plugin -> int {
    (p: Plugin) => multiset(Items(p))[e]
  }

  lemma {:induction false} FlatCount(plugins: seq<Plugin>, e: Entry)
    ensures multiset(Flat(plugins))[e] == SumOf(plugins, CountOf(e))
  {
    if plugins != [] { FlatCount(plugins[1..], e); }
  }

  lemma FlatBag(a: seq<Plugin>, b: seq<Plugin>)
    requires multiset(a) == multiset(b)
    ensures multiset(Flat(a)) == multiset(Flat(b))
  {
    forall e ensures multiset(Flat(a))[e] == multiset(Flat(b))[e] {
      SumIgnoresOrder(a, b, CountOf(e));
      FlatCount(a, e);
      FlatCount(b, e);
    }
  }

  lemma {:induction false} FirstMatchFinds(result: seq<Policy>, httpMethod: string, path: string)
    ensures
      match FirstMatch(result, httpMethod, path)
      case Some(p) => p in result && Matches(p, httpMethod, path)
      case None => forall p :: p in result ==> !Matches(p, httpMethod, path)
  {
    if result != [] { FirstMatchFinds(result[1..], httpMethod, path); }
  }

  /** Two orders of the same plugins are both accepted or both refused, and route every request to the same policy. */
  lemma OrderDoesNotMatter(a: seq<Plugin>, b: seq<Plugin>, httpMethod: string, path: string)
    requires multiset(a) == multiset(b)
    ensures AddPlugins([], a).Ok? <==> AddPlugins([], b).Ok?
    ensures AddPlugins([], a).Ok? ==>
              FirstMatch(AddPlugins([], a).value, httpMethod, path) ==
                  FirstMatch(AddPlugins([], b).value, httpMethod, path)
  {
    FlatBag(a, b);
    Accepted(a);
    Accepted(b);
    SameElements(a, b);
    SameElements(Flat(a), Flat(b));
    if AllGood(Flat(a)) {
      SameNames(Flat(a), Flat(b));
      if AddPlugins([], a).Ok? { SameMatch(Flat(a), Flat(b), httpMethod, path); }
    }
  }

  lemma SameNames(x: seq<Entry>, y: seq<Entry>)
    requires AllGood(x) && AllGood(y) && multiset(x) == multiset(y)
    ensures Range(Names(Policies(x))) == Range(Names(Policies(y)))
  {
    forall n | n in Names(Policies(x)) ensures n in Names(Policies(y)) { NameOf(x, y, n); }
    forall n | n in Names(Policies(y)) ensures n in Names(Policies(x)) { NameOf(y, x, n); }
  }

  lemma NameOf(x: seq<Entry>, y: seq<Entry>, n: string)
    requires AllGood(x) && AllGood(y) && multiset(x) == multiset(y) && n in Names(Policies(x))
    ensures n in Names(Policies(y))
  {
    var i :| 0 <= i < |x| && Names(Policies(x))[i] == n;
    assert Policies(x)[i] in Policies(x);
    SamePolicies(x, y);
    var j :| 0 <= j < |y| && Policies(y)[j] == Policies(x)[i];
    assert Names(Policies(y))[j] == n;
  }

  lemma SameMatch(x: seq<Entry>, y: seq<Entry>, httpMethod: string, path: string)
    requires AllGood(x) && AllGood(y) && multiset(x) == multiset(y)
    requires Sound(Policies(x)) && Sound(Policies(y))
    ensures FirstMatch(Policies(x), httpMethod, path) == FirstMatch(Policies(y), httpMethod, path)
  {
    FirstMatchFinds(Policies(x), httpMethod, path);
    FirstMatchFinds(Policies(y), httpMethod, path);
    SamePolicies(x, y);
    SamePolicies(y, x);
    var f, g := FirstMatch(Policies(x), httpMethod, path), FirstMatch(Policies(y), httpMethod, path);
    if f.Some? && g.Some? { OnePrefix(f.value, g.value, httpMethod, path); }
  }

  lemma SamePolicies(x: seq<Entry>, y: seq<Entry>)
    requires AllGood(x) && AllGood(y) && multiset(x) == multiset(y)
    ensures forall p :: p in Policies(x) ==> p in Policies(y)
  {
    forall p | p in Policies(x) ensures p in Policies(y) {
      var i :| 0 <= i < |x| && Policies(x)[i] == p;
      assert x[i] in multiset(y);
      var j :| 0 <= j < |y| && y[j] == x[i];
      assert Policies(y)[j] == p;
    }
  }
}
