/** What an invalidation drops, what it spares, and what no request is told after it. */
module HostInvalidation {
  import opened Wrappers
  import opened HostSelect
  import opened OrderedCache
  import opened HostCache
  import opened HostCacheBounds
  import opened HostCacheHistory

  // ---------------------------------------------------------------- dropped and spared

  predicate Names(slug: Option<string>, host: Option<string>, slot: Slot<Store>) {
    (slug.Some? && slot.value.slug == slug.value) || (host.Some? && slot.key == host.value)
  }

  /** The entries that belong neither to the store nor to the host, in their order. */
  function Spared(m: Slots<Store>, slug: Option<string>, host: Option<string>): Slots<Store> {
    if m == [] then []
    else (if Names(slug, host, m[0]) then [] else [m[0]]) + Spared(m[1..], slug, host)
  }

  /** The entries under other keys, in their order. */
  function OtherKeys<V>(m: Slots<V>, key: string): Slots<V> {
    if m == [] then [] else (if m[0].key == key then [] else [m[0]]) + OtherKeys(m[1..], key)
  }

  lemma {:induction false} AbsentKey<V>(m: Slots<V>, key: string)
    requires !Has(m, key)
    ensures OtherKeys(m, key) == m
  {
    if m != [] {
      assert m[0].key != key;
      forall i | 0 <= i < |m| - 1 ensures m[1..][i].key != key { assert m[i + 1].key != key; }
      AbsentKey(m[1..], key);
    }
  }

  lemma {:induction false} DropIsFilter<V>(m: Slots<V>, key: string)
    requires DistinctKeys(m)
    ensures Drop(m, key) == OtherKeys(m, key)
  {
    if m != [] {
      if m[0].key == key {
        forall i | 0 <= i < |m| - 1 ensures m[1..][i].key != key { assert m[0].key != m[i + 1].key; }
        AbsentKey(m[1..], key);
        assert m[..0] + m[1..] == m[1..];
      } else {
        DropIsFilter(m[1..], key);
        DropLater(m, key);
      }
    }
  }

  lemma DropLater<V>(m: Slots<V>, key: string)
    requires m != [] && m[0].key != key
    ensures Drop(m, key) == [m[0]] + Drop(m[1..], key)
  {
    var i := IndexOf(m[1..], key);
    if i < |m| - 1 { assert m[..i + 1] == [m[0]] + m[1..][..i] && m[i + 2..] == m[1..][i + 1..]; }
  }

  lemma {:induction false} SparedBySlug(m: Slots<Store>, slug: string)
    ensures WithoutSlug(m, slug) == Spared(m, Some(slug), None)
  {
    if m != [] { SparedBySlug(m[1..], slug); }
  }

  lemma {:induction false} SparedByKey(m: Slots<Store>, key: string)
    ensures OtherKeys(m, key) == Spared(m, None, Some(key))
  {
    if m != [] { SparedByKey(m[1..], key); }
  }

  lemma {:induction false} SparedTwice(m: Slots<Store>, slug: string, key: string)
    ensures OtherKeys(Spared(m, Some(slug), None), key) == Spared(m, Some(slug), Some(key))
  {
    if m != [] {
      var rest := Spared(m[1..], Some(slug), None);
      SparedTwice(m[1..], slug, key);
      assert [] + rest == rest && ([m[0]] + rest)[1..] == rest;
    }
  }

  lemma {:induction false} SparedMeans(m: Slots<Store>, slug: Option<string>, host: Option<string>, slot: Slot<Store>)
    ensures slot in Spared(m, slug, host) <==> slot in m && !Names(slug, host, slot)
  {
    if m != [] {
      assert m == [m[0]] + m[1..];
      SparedMeans(m[1..], slug, host, slot);
    }
  }

  lemma {:induction false} OtherKeysMean<V>(m: Slots<V>, key: string, slot: Slot<V>)
    ensures slot in OtherKeys(m, key) <==> slot in m && slot.key != key
  {
    if m != [] {
      assert m == [m[0]] + m[1..];
      OtherKeysMean(m[1..], key, slot);
    }
  }

  lemma HostsSpared(m: Slots<Store>, slug: Option<string>, host: Option<string>)
    requires DistinctKeys(m) && (slug.Some? || host.Some?)
    ensures InvalidatedHosts(m, slug, host) == Spared(m, slug, host)
  {
    if slug.Some? {
      SparedBySlug(m, slug.value);
      if host.Some? {
        WithoutSlugThins(m, slug.value);
        DropIsFilter(WithoutSlug(m, slug.value), host.value);
        SparedTwice(m, slug.value, host.value);
      }
    } else {
      DropIsFilter(m, host.value);
      SparedByKey(m, host.value);
    }
  }

  lemma SlugsSpared(m: Slots<Store>, slug: string, host: Option<string>)
    requires DistinctKeys(m)
    ensures InvalidatedSlugs(m, Some(slug), host) == OtherKeys(m, slug)
  {
    DropIsFilter(m, slug);
  }

  lemma RunSized(prefixes: seq<string>, now: int, registry: seq<Store>, events: seq<Event>)
    ensures Sized(Run(Initial(prefixes, now, registry), events))
  {
    CachesStaySmall(Initial(prefixes, now, registry), events);
  }

  /**
   * In every run an invalidation takes exactly what it names: the entries of the store, whatever host they are under,
   * the entry of the host and the store's own entry by slug go, and all others stay, in their order. Named nothing, it
   * takes everything; and every remembered miss goes.
   */
  lemma InvalidationIsExact(
      prefixes: seq<string>, now: int, registry: seq<Store>, events: seq<Event>,
      slug: Option<string>, host: Option<string>)
    ensures
      var s := Run(Initial(prefixes, now, registry), events);
      var t := Step(s, Invalidate(slug, host));
      && t.misses == [] && t.generation == s.generation + 1
      && t.hostCache == (if slug.Some? || host.Some? then Spared(s.hostCache, slug, host) else [])
      && t.slugCache ==
           (if slug.Some? then OtherKeys(s.slugCache, slug.value) else if host.Some? then s.slugCache else [])
  {
    RunSized(prefixes, now, registry, events);
    var s := Run(Initial(prefixes, now, registry), events);
    if slug.Some? || host.Some? { HostsSpared(s.hostCache, slug, host); }
    if slug.Some? { SlugsSpared(s.slugCache, slug.value, host); }
  }

  // ---------------------------------------------------------------- nothing older is told

  lemma {:induction false} StoreOfSlugGives(rows: seq<Store>, slug: string)
    ensures StoreOfSlug(rows, slug).Some? ==> StoreOfSlug(rows, slug).value.slug == slug
  {
    if rows != [] { StoreOfSlugGives(rows[1..], slug); }
  }

  /** Any answer at all. */
  function Anything(): Said {
    (key: string, answer: Option<Store>) => true
  }

  /** A row asked for by slug has that slug. */
  function OwnSlug(): Said {
    (slug: string, answer: Option<Store>) => answer.Some? ==> answer.value.slug == slug
  }

  lemma OwnSlugCovers(prefixes: seq<string>, rows: seq<Store>)
    ensures Covers(Anything(), OwnSlug(), prefixes, rows)
  {
    forall slug ensures OwnSlug()(slug, StoreOfSlug(rows, slug)) { StoreOfSlugGives(rows, slug); }
  }

  /** Rows cached or on their way under a slug are of that slug. */
  lemma RunOwnSlugs(prefixes: seq<string>, now: int, registry: seq<Store>, events: seq<Event>)
    ensures Known(Run(Initial(prefixes, now, registry), events), Anything(), OwnSlug())
  {
    forall rows: seq<Store> ensures Covers(Anything(), OwnSlug(), prefixes, rows) { OwnSlugCovers(prefixes, rows); }
    RunKnown(Initial(prefixes, now, registry), Anything(), OwnSlug(), (rows: seq<Store>) => true, events);
  }

  /** Everything cached or under way after a run is known, when it was at its start and every registry since counts. */
  lemma RunKnownSince(s: State, first: nat, said: Said, told: Said, events: seq<Event>)
    requires Rooted(s, first) && Known(s, said, told)
    requires forall v :: first <= v < |Run(s, events).history| ==>
        Covers(said, told, s.prefixes, Run(s, events).history[v])
    ensures Known(Run(s, events), said, told)
  {
    var past := Run(s, events).history;
    HistoryGrows(s, first, events);
    var covered := (rows: seq<Store>) => exists v :: first <= v < |past| && past[v] == rows;
    assert covered(s.registry) by { assert past[|s.history| - 1] == s.registry; }
    RunKnown(s, said, told, covered, events);
  }

  // ---------------------------------------------------------------- a store's invalidation

  /** No answer that gives this store is still to be handled. */
  predicate NoneOfStore(s: State, slug: string) {
    && (forall k :: 0 <= k < |s.scans| && s.scans[k].phase.Seen? ==>
          s.scans[k].phase.row == None || s.scans[k].phase.row.value.slug != slug)
    && (forall k :: 0 <= k < |s.lookups| && s.lookups[k].phase.Told? ==>
          s.lookups[k].phase.row == None || s.lookups[k].phase.row.value.slug != slug)
  }

  /** Rows of the store are those of registries from version `first` on. */
  function StoreFrom(past: History, first: nat, prefixes: seq<string>, slug: string): Said {
    (host: string, answer: Option<Store>) =>
      answer.Some? && answer.value.slug == slug ==> WasAnswer(past, first, prefixes, host, answer)
  }

  function SlugFrom(past: History, first: nat, slug: string): Said {
    (key: string, answer: Option<Store>) =>
      && OwnSlug()(key, answer)
      && (key == slug ==> answer == None || WasStore(past, first, slug, answer))
  }

  lemma StoreCovered(past: History, first: nat, prefixes: seq<string>, slug: string, v: nat)
    requires first <= v < |past|
    ensures Covers(StoreFrom(past, first, prefixes, slug), SlugFrom(past, first, slug), prefixes, past[v])
  {
    var rows := past[v];
    forall host ensures StoreFrom(past, first, prefixes, slug)(host, PickFor(rows, prefixes, host)) {
      assert WasAnswer(past, first, prefixes, host, PickFor(rows, prefixes, host));
    }
    forall key ensures SlugFrom(past, first, slug)(key, StoreOfSlug(rows, key)) {
      StoreOfSlugGives(rows, key);
      assert WasStore(past, first, key, StoreOfSlug(rows, key));
      assert OwnSlug()(key, StoreOfSlug(rows, key));
    }
  }

  lemma StoreDropped(s: State, slug: string, host: Option<string>, said: Said, told: Said)
    requires Sized(s) && NoneOfStore(s, slug) && Known(s, Anything(), OwnSlug())
    requires forall h, a: Option<Store> :: a == None || a.value.slug != slug ==> said(h, a)
    requires forall k, a: Option<Store> :: k != slug && OwnSlug()(k, a) ==> told(k, a)
    requires forall k :: told(k, None)
    ensures Known(Step(s, Invalidate(Some(slug), host)), said, told)
  {
    var t := Step(s, Invalidate(Some(slug), host));
    HostsSpared(s.hostCache, Some(slug), host);
    SlugsSpared(s.slugCache, slug, host);
    forall i | 0 <= i < |t.hostCache| ensures said(t.hostCache[i].key, Some(t.hostCache[i].value)) {
      SparedMeans(s.hostCache, Some(slug), host, t.hostCache[i]);
    }
    forall i | 0 <= i < |t.slugCache| ensures told(t.slugCache[i].key, Some(t.slugCache[i].value)) {
      OtherKeysMean(s.slugCache, slug, t.slugCache[i]);
      assert t.slugCache[i] in s.slugCache;
    }
    assert LookupsKnown(told, t.lookups);
  }

  /** A row of this store told from a cache, or by a scan or lookup that is shared, is at least this new. */
  predicate StoreIsSince(t: State, first: nat, slug: string, host: string) {
    && (match HostAnswer(t, host)
        case Found(store) => store.slug == slug ==> WasAnswer(t.history, first, t.prefixes, host, Some(store))
        case NotFound => true
        case Waits(id) =>
          id < |t.scans| && t.scans[id].phase.Seen? && t.scans[id].phase.row.Some?
              && t.scans[id].phase.row.value.slug == slug ==>
            WasAnswer(t.history, first, t.prefixes, t.scans[id].host, t.scans[id].phase.row))
    && (SlugReply(t, slug).Cached? ==> WasStore(t.history, first, slug, Some(SlugReply(t, slug).store)))
  }

  lemma KnownStore(t: State, first: nat, slug: string, host: string)
    requires Resolvable(host)
    requires Known(t, StoreFrom(t.history, first, t.prefixes, slug), SlugFrom(t.history, first, slug))
    ensures StoreIsSince(t, first, slug, host)
  {
    var said, told := StoreFrom(t.history, first, t.prefixes, slug), SlugFrom(t.history, first, slug);
    KnownTells(t, said, told, host);
    ReadSlots(told, t.slugCache, slug, t.now);
  }

  /**
   * After the invalidation of a store, with no answer that gives it still to be handled, no row of that store older
   * than the invalidation is told again, by host or by slug.
   */
  lemma InvalidationForgetsStore(
      prefixes: seq<string>, now: int, registry: seq<Store>, before: seq<Event>,
      slug: string, h: Option<string>, later: seq<Event>, host: string)
    requires Resolvable(host)
    ensures
      var s := Run(Initial(prefixes, now, registry), before);
      NoneOfStore(s, slug) ==>
        s.history != [] &&
        StoreIsSince(Run(Step(s, Invalidate(Some(slug), h)), later), |s.history| - 1, slug, host)
  {
    var s := Run(Initial(prefixes, now, registry), before);
    RunRooted(Initial(prefixes, now, registry), before);
    if NoneOfStore(s, slug) {
      RunSized(prefixes, now, registry, before);
      RunOwnSlugs(prefixes, now, registry, before);
      StoreForgotten(s, slug, h, later, host);
    }
  }

  lemma StoreForgotten(s: State, slug: string, h: Option<string>, later: seq<Event>, host: string)
    requires Resolvable(host) && Rooted(s, 0) && Sized(s) && Known(s, Anything(), OwnSlug()) && NoneOfStore(s, slug)
    ensures StoreIsSince(Run(Step(s, Invalidate(Some(slug), h)), later), |s.history| - 1, slug, host)
  {
    var first := |s.history| - 1;
    var t := Step(s, Invalidate(Some(slug), h));
    var past := Run(t, later).history;
    var said, told := StoreFrom(past, first, s.prefixes, slug), SlugFrom(past, first, slug);
    StoreDropped(s, slug, h, said, told);
    RunPrefixes(t, later);
    forall v | first <= v < |past| ensures Covers(said, told, s.prefixes, past[v]) {
      StoreCovered(past, first, s.prefixes, slug, v);
    }
    RunKnownSince(t, first, said, told, later);
    KnownStore(Run(t, later), first, slug, host);
  }

  // ---------------------------------------------------------------- a host's invalidation

  predicate NoneOfHost(s: State, host: string) {
    forall k :: 0 <= k < |s.scans| && s.scans[k].phase.Seen? ==> s.scans[k].host != host
  }

  function HostFrom(past: History, first: nat, prefixes: seq<string>, host: string): Said {
    (key: string, answer: Option<Store>) => key == host ==> WasAnswer(past, first, prefixes, host, answer)
  }

  lemma HostDropped(s: State, slug: Option<string>, host: string, said: Said)
    requires Sized(s) && NoneOfHost(s, host)
    requires forall key, a: Option<Store> :: key != host ==> said(key, a)
    ensures Known(Step(s, Invalidate(slug, Some(host))), said, Anything())
  {
    var t := Step(s, Invalidate(slug, Some(host)));
    HostsSpared(s.hostCache, slug, Some(host));
    forall i | 0 <= i < |t.hostCache| ensures said(t.hostCache[i].key, Some(t.hostCache[i].value)) {
      SparedMeans(s.hostCache, slug, Some(host), t.hostCache[i]);
    }
  }

  /** After the invalidation of a host, with no scan for it that is still to be handled, it is told nothing older. */
  lemma InvalidationForgetsHost(
      prefixes: seq<string>, now: int, registry: seq<Store>, before: seq<Event>,
      slug: Option<string>, host: string, later: seq<Event>)
    requires Resolvable(host)
    ensures
      var s := Run(Initial(prefixes, now, registry), before);
      var end := Run(Step(s, Invalidate(slug, Some(host))), later);
      NoneOfHost(s, host) ==>
        s.history != [] && Tells(end, HostFrom(end.history, |s.history| - 1, prefixes, host), host)
  {
    var s := Run(Initial(prefixes, now, registry), before);
    RunRooted(Initial(prefixes, now, registry), before);
    RunPrefixes(Initial(prefixes, now, registry), before);
    if NoneOfHost(s, host) {
      RunSized(prefixes, now, registry, before);
      HostForgotten(s, slug, host, later);
    }
  }

  lemma HostForgotten(s: State, slug: Option<string>, host: string, later: seq<Event>)
    requires Resolvable(host) && Rooted(s, 0) && Sized(s) && NoneOfHost(s, host)
    ensures
      var end := Run(Step(s, Invalidate(slug, Some(host))), later);
      Tells(end, HostFrom(end.history, |s.history| - 1, s.prefixes, host), host)
  {
    var first := |s.history| - 1;
    var t := Step(s, Invalidate(slug, Some(host)));
    var past := Run(t, later).history;
    var said := HostFrom(past, first, s.prefixes, host);
    HostDropped(s, slug, host, said);
    forall v | first <= v < |past| ensures Covers(said, Anything(), s.prefixes, past[v]) {
      assert WasAnswer(past, first, s.prefixes, host, PickFor(past[v], s.prefixes, host));
    }
    RunKnownSince(t, first, said, Anything(), later);
    KnownTells(Run(t, later), said, Anything(), host);
  }
}
