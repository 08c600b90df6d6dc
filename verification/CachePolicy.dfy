/**
 * The last word on a response's cache headers. Header names are lower case and repeated values joined; a response that
 * came straight from elsewhere has headers that cannot be changed and is rebuilt.
 */
module CachePolicy {
  import opened Wrappers
  import opened Text
  import opened CacheDirectives
  import opened CacheExceptions

  type Headers = map<string, string>

  datatype Response = Response(status: nat, headers: Headers, immutable: bool)

  datatype Request = Request(httpMethod: string, path: string, hasStoreSlug: bool, credentials: bool)

  /** The built-in exceptions, those registered for every app, and those of this app. */
  datatype Policy = Policy(rules: Rules, builtIn: seq<Entry>, registered: seq<Entry>, extra: seq<Entry>)

  const CDN_HEADERS := {"cdn-cache-control", "cloudflare-cdn-cache-control", "surrogate-control", "expires"}

  function CacheControl(h: Headers): Option<string> {
    if "cache-control" in h then Some(h["cache-control"]) else None
  }

  // ---------------------------------------------------------------- edits

  datatype Edit = DropTag | KeepVerbatim | ForceNoStore

  function Edited(h: Headers, e: Edit): Headers {
    match e
    case DropTag => h - {"cache-tag"}
    case KeepVerbatim => h - CDN_HEADERS - {"cache-tag"}
    case ForceNoStore => h["cache-control" := NO_STORE] - CDN_HEADERS - {"cache-tag"}
  }

  /** A replaced response gets the previous headers again, all but the content type. */
  function Replaced(previous: Headers, replacement: Headers): Headers {
    replacement + (previous - {"content-type"})
  }

  /** The edit in place, or on a rebuilt response and then once more. */
  function EditHeaders(r: Response, e: Edit): Response {
    if !r.immutable then r.(headers := Edited(r.headers, e))
    else
      var rebuilt := Replaced(r.headers, Edited(r.headers, e));
      Response(r.status, Edited(rebuilt, e), false)
  }

  // ---------------------------------------------------------------- the decision

  predicate Listed(rules: Rules, list: seq<Entry>, path: string) {
    exists i :: 0 <= i < |list| && Matches(rules, list[i], path)
  }

  predicate ByPlugin(p: Policy, path: string) {
    (Listed(p.rules, p.registered, path) || Listed(p.rules, p.extra, path)) && !p.rules.denied(path)
  }

  /** The only responses whose own permission to be stored survives. */
  predicate KeepsOwn(p: Policy, q: Request, r: Response) {
    && !q.hasStoreSlug && (q.httpMethod == "GET" || q.httpMethod == "HEAD") && r.status == 200
    && (|| Listed(p.rules, p.builtIn, q.path)
        || (ByPlugin(p, q.path) && !q.credentials && HandlerSetCacheable(CacheControl(r.headers))))
  }

  function EditFor(p: Policy, q: Request, r: Response): Edit {
    if q.hasStoreSlug then if NoStoreOnly(CacheControl(r.headers)) then KeepVerbatim else ForceNoStore
    else if KeepsOwn(p, q, r) then DropTag
    else if NoStoreOnly(CacheControl(r.headers)) then KeepVerbatim
    else ForceNoStore
  }

  function Finish(p: Policy, q: Request, r: Response): Response {
    EditHeaders(r, EditFor(p, q, r))
  }

  // ---------------------------------------------------------------- the response in place

  /** The context's current response, edited step by step. */
  class Context {
    var status: nat
    var headers: Headers
    var immutable: bool

    ghost function Res(): Response
      reads this
    {
      Response(status, headers, immutable)
    }

    constructor (r: Response)
      ensures Res() == r
    {
      status, headers, immutable := r.status, r.headers, r.immutable;
    }

    method DropCdnHeaders()
      modifies this`headers
      ensures headers == old(headers) - CDN_HEADERS
    {
      headers := headers - {"cdn-cache-control"};
      headers := headers - {"cloudflare-cdn-cache-control"};
      headers := headers - {"surrogate-control"};
      headers := headers - {"expires"};
    }

    /** Deletes and sets one header after another; refused as a whole on headers that cannot be changed. */
    method Edit(e: Edit) returns (ok: bool)
      modifies this
      ensures ok == !old(immutable) && Res() == if ok then old(Res()).(headers := Edited(old(headers), e))
          else old(Res())
    {
      if immutable { return false; }
      if e == ForceNoStore { headers := headers["cache-control" := NO_STORE]; }
      if e != DropTag { DropCdnHeaders(); }
      headers := headers - {"cache-tag"};
      return true;
    }

    method EditOrRebuild(e: Edit)
      modifies this
      ensures Res() == EditHeaders(old(Res()), e)
    {
      var ok := Edit(e);
      if ok { return; }
      var previous := headers;
      var copy := new Context(Response(status, headers, false));
      ok := copy.Edit(e);
      headers := Replaced(previous, copy.headers);
      immutable := false;
      ok := Edit(e);
    }

    method ApplyPolicy(p: Policy, q: Request)
      modifies this
      ensures Res() == Finish(p, q, old(Res()))
    {
      var value := CacheControl(headers);
      var noStoreOnly := IsNoStoreOnly(value);
      if q.hasStoreSlug {
        if noStoreOnly { EditOrRebuild(KeepVerbatim); } else { EditOrRebuild(ForceNoStore); }
        return;
      }
      if (q.httpMethod == "GET" || q.httpMethod == "HEAD") && status == 200 {
        var keep := Listed(p.rules, p.builtIn, q.path)
                    || (ByPlugin(p, q.path) && !q.credentials && HandlerSetCacheable(value));
        if keep {
          EditOrRebuild(DropTag);
          return;
        }
      }
      if noStoreOnly {
        EditOrRebuild(KeepVerbatim);
        return;
      }
      EditOrRebuild(ForceNoStore);
    }
  }

  // ---------------------------------------------------------------- what every response ends with

  lemma EditTwice(h: Headers, e: Edit)
    ensures Edited(Edited(h, e), e) == Edited(h, e)
    ensures Edited(Replaced(h, Edited(h, e)), e) == Edited(h, e)
  {
  }

  /** A rebuilt response ends with the headers of one edited in place. */
  lemma RebuiltIsTheSame(p: Policy, q: Request, r: Response)
    ensures Finish(p, q, r.(immutable := true)).headers == Finish(p, q, r.(immutable := false)).headers
    ensures EditHeaders(r, EditFor(p, q, r)).headers == Edited(r.headers, EditFor(p, q, r))
  {
    EditTwice(r.headers, EditFor(p, q, r));
  }

  /** A header the policy may touch. */
  predicate CacheHeader(name: string) {
    name == "cache-control" || name == "cache-tag" || name in CDN_HEADERS
  }

  /**
   * What the response to a request may keep its own permission to be stored for: no store selector, a GET or HEAD
   * answered 200, and a path on the reviewed list; or one on a plugin's list that is not denied, for a request without
   * credentials whose handler allowed storing itself.
   */
  predicate MayBeStored(p: Policy, q: Request, r: Response) {
    && !q.hasStoreSlug
    && q.httpMethod in {"GET", "HEAD"}
    && r.status == 200
    && (|| (exists e :: e in p.builtIn && Matches(p.rules, e, q.path))
        || (&& (exists e :: e in p.registered + p.extra && Matches(p.rules, e, q.path))
            && !p.rules.denied(q.path)
            && !q.credentials
            && HandlerSetCacheable(CacheControl(r.headers))))
  }

  lemma ListedMeans(rules: Rules, list: seq<Entry>, path: string)
    ensures Listed(rules, list, path) <==> exists e :: e in list && Matches(rules, e, path)
  {
    if e :| e in list && Matches(rules, e, path) {
      var i :| 0 <= i < |list| && list[i] == e;
      assert Matches(rules, list[i], path);
    }
  }

  /**
   * Exactly those responses keep their headers, all but the cache tag. Every other response ends with a value that only
   * forbids storing, its own bytes if they do so already, and with no CDN header. All other headers and the status
   * stay.
   */
  lemma PolicyOutcome(p: Policy, q: Request, r: Response)
    ensures
      var end := Finish(p, q, r);
      var before, after := CacheControl(r.headers), CacheControl(end.headers);
      && (MayBeStored(p, q, r) ==> end.headers == r.headers - {"cache-tag"})
      && (!MayBeStored(p, q, r) ==>
            && NoStoreOnly(after)
            && after == (if NoStoreOnly(before) then before else Some(NO_STORE))
            && forall name :: name in CDN_HEADERS ==> name !in end.headers)
      && end.status == r.status && "cache-tag" !in end.headers
      && (forall name :: !CacheHeader(name) ==>
            (name in end.headers <==> name in r.headers)
                && (name in r.headers ==> end.headers[name] == r.headers[name]))
  {
    ListedMeans(p.rules, p.builtIn, q.path);
    ListedMeans(p.rules, p.registered, q.path);
    ListedMeans(p.rules, p.extra, q.path);
    assert MayBeStored(p, q, r) <==> KeepsOwn(p, q, r);
    RebuiltIsTheSame(p, q, r);
    EditedHeaders(r.headers, EditFor(p, q, r));
    NoStoreForbids();
  }

  lemma EditedHeaders(h: Headers, e: Edit)
    ensures CacheControl(Edited(h, e)) == if e == ForceNoStore then Some(NO_STORE) else CacheControl(h)
    ensures "cache-tag" !in Edited(h, e)
    ensures e != DropTag ==> forall name :: name in CDN_HEADERS ==> name !in Edited(h, e)
    ensures forall name :: !CacheHeader(name) ==>
              (name in Edited(h, e) <==> name in h) && (name in h ==> Edited(h, e)[name] == h[name])
  {
    assert "cache-control" !in CDN_HEADERS;
  }

  predicate PlainName(name: string) {
    name != "" && forall i :: 0 <= i < |name| ==> 'a' <= name[i] <= 'z' || name[i] == '-'
  }

  lemma OnePiece(name: string)
    requires PlainName(name)
    ensures Split(name, ',') == [name]
  {
    assert ',' !in name;
    SplitAfter(name, ',', "");
  }

  lemma NothingToTrim(name: string)
    requires PlainName(name)
    ensures OwsTrim(name) == name
  {
    assert !IsOws(name[0]) && !IsOws(name[|name| - 1]);
  }

  lemma NoCase(name: string)
    requires PlainName(name)
    ensures Lower(name) == name
  {
  }

  /** One of the five names alone is a value that grants nothing. */
  lemma OneName(name: string)
    requires name in VALUELESS && PlainName(name)
    ensures AllAllowed(name) && (name == "no-store" ==> SaysNoStore(name))
  {
    OnePiece(name);
    NothingToTrim(name);
    NoCase(name);
    assert OwsTrim(Split(name, ',')[0]) == name;
  }

  /** The policy's own value only forbids storing. */
  lemma NoStoreForbids()
    ensures NoStoreOnly(Some(NO_STORE))
  {
    OneName("private");
    OneName("no-store");
    JoinedNoStoreOnly("private", "no-store");
  }

  /** A response forced to `private, no-store` has no permission left to keep. */
  lemma ForcedStays(p: Policy, q: Request, r: Response)
    requires EditFor(p, q, r) == ForceNoStore
    ensures EditFor(p, q, Finish(p, q, r)) == KeepVerbatim
  {
    RebuiltIsTheSame(p, q, r);
    EditedHeaders(r.headers, ForceNoStore);
    NoStoreForbids();
    NoStoreIsNotCacheable(Some(NO_STORE));
  }

  /** Applying the policy again changes no header. */
  lemma PolicyTwice(p: Policy, q: Request, r: Response)
    ensures Finish(p, q, Finish(p, q, r)).headers == Finish(p, q, r).headers
  {
    var once, e := Finish(p, q, r), EditFor(p, q, r);
    RebuiltIsTheSame(p, q, r);
    RebuiltIsTheSame(p, q, once);
    if e == ForceNoStore {
      ForcedStays(p, q, r);
      assert Edited(Edited(r.headers, ForceNoStore), KeepVerbatim) == Edited(r.headers, ForceNoStore);
    } else {
      EditedHeaders(r.headers, e);
      EditTwice(r.headers, e);
    }
  }
}
