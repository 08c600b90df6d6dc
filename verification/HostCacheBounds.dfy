/** How large the store caches grow, and the order in which their entries expire. */
module HostCacheBounds {
  import opened Wrappers
  import opened HostSelect
  import opened OrderedCache
  import opened HostCache

  // ---------------------------------------------------------------- taking entries out

  /** `m` keeps some of the entries of `n`, in their order. */
  ghost predicate Thins<V>(m: Slots<V>, n: Slots<V>) {
    && Within(m, n) && |m| <= |n|
    && (DistinctKeys(n) ==> DistinctKeys(m)) && (InExpiryOrder(n) ==> InExpiryOrder(m))
  }

  lemma DropThins<V>(m: Slots<V>, key: string)
    ensures Thins(Drop(m, key), m)
  {
    DropMeans(m, key);
    DropKeepsOrder(m, key);
  }

  lemma ReadThins<V>(m: Slots<V>, key: string, now: int)
    ensures Thins(AfterRead(m, key, now), m)
    ensures DistinctKeys(m) && Live(m, key, now) == None ==> !Has(AfterRead(m, key, now), key)
  {
    DropThins(m, key);
    DropKeepsOrder(m, key);
  }

  lemma NewestThins<V>(m: Slots<V>, limit: nat)
    ensures Thins(Newest(m, limit), m) && |Newest(m, limit)| <= limit
  {
    NewestMeans(m, limit);
  }

  lemma StartAt<V>(first: Slot<V>, m: Slots<V>, i: nat)
    requires i <= |m|
    ensures ([first] + m)[i] == if i == 0 then first else m[i - 1]
  {
  }

  /** One entry more on both sides. */
  lemma ThinsStart<V>(first: Slot<V>, m: Slots<V>, n: Slots<V>)
    requires Thins(m, n)
    ensures Thins([first] + m, [first] + n)
  {
    TailThins(first, n);
    assert Within([first] + m, [first] + n) by { WithinStart(first, m, n); }
    if DistinctKeys([first] + n) { DistinctStart(first, m, n); }
    if InExpiryOrder([first] + n) { OrderStart(first, m, n); }
  }

  lemma TailThins<V>(first: Slot<V>, n: Slots<V>)
    ensures Thins(n, [first] + n)
  {
    var w := [first] + n;
    forall j | 0 <= j < |n| ensures w[j + 1] == n[j] { StartAt(first, n, j + 1); }
    forall i, j | 0 <= i < j < |n| && DistinctKeys(w) ensures n[i].key != n[j].key {
      assert w[i + 1].key != w[j + 1].key;
    }
    forall i, j | 0 <= i < j < |n| && InExpiryOrder(w) ensures n[i].expiresAt <= n[j].expiresAt {
      assert w[i + 1].expiresAt <= w[j + 1].expiresAt;
    }
  }

  lemma WithinStart<V>(first: Slot<V>, m: Slots<V>, n: Slots<V>)
    requires Within(m, n)
    ensures Within([first] + m, [first] + n)
  {
    forall i | 0 <= i <= |m| ensures ([first] + m)[i] in [first] + n {
      StartAt(first, m, i);
      if i > 0 { assert m[i - 1] in n; }
    }
  }

  lemma DistinctStart<V>(first: Slot<V>, m: Slots<V>, n: Slots<V>)
    requires Within(m, n) && DistinctKeys(m) && DistinctKeys([first] + n)
    ensures DistinctKeys([first] + m)
  {
    var w := [first] + n;
    forall i | 0 <= i < |m| ensures m[i].key != first.key {
      assert m[i] in n;
      var j :| 0 <= j < |n| && n[j] == m[i];
      StartAt(first, n, j + 1);
      assert w[0].key != w[j + 1].key;
    }
  }

  lemma OrderStart<V>(first: Slot<V>, m: Slots<V>, n: Slots<V>)
    requires Within(m, n) && InExpiryOrder(m) && InExpiryOrder([first] + n)
    ensures InExpiryOrder([first] + m)
  {
    var w := [first] + n;
    forall i | 0 <= i < |m| ensures first.expiresAt <= m[i].expiresAt {
      assert m[i] in n;
      var j :| 0 <= j < |n| && n[j] == m[i];
      StartAt(first, n, j + 1);
      assert w[0].expiresAt <= w[j + 1].expiresAt;
    }
  }

  lemma {:induction false} WithoutSlugThins(m: Slots<Store>, slug: string)
    ensures Thins(WithoutSlug(m, slug), m)
  {
    if m != [] {
      var rest := WithoutSlug(m[1..], slug);
      WithoutSlugThins(m[1..], slug);
      assert [m[0]] + m[1..] == m;
      if m[0].value.slug == slug {
        TailThins(m[0], m[1..]);
        ThinsTwice(rest, m[1..], m);
        assert [] + rest == rest;
      } else {
        ThinsStart(m[0], rest, m[1..]);
      }
    }
  }

  lemma ThinsTwice<V>(a: Slots<V>, b: Slots<V>, c: Slots<V>)
    requires Thins(a, b) && Thins(b, c)
    ensures Thins(a, c)
  {
    WithinTwice(a, b, c);
  }

  lemma InvalidatedHostsThins(m: Slots<Store>, slug: Option<string>, host: Option<string>)
    ensures Thins(InvalidatedHosts(m, slug, host), m)
  {
    if slug.Some? || host.Some? {
      var kept := if slug.Some? then WithoutSlug(m, slug.value) else m;
      assert Thins(kept, m) by { if slug.Some? { WithoutSlugThins(m, slug.value); } }
      if host.Some? {
        DropThins(kept, host.value);
        ThinsTwice(Drop(kept, host.value), kept, m);
      }
    }
  }

  lemma InvalidatedSlugsThins(m: Slots<Store>, slug: Option<string>, host: Option<string>)
    ensures Thins(InvalidatedSlugs(m, slug, host), m)
  {
    if slug.Some? { DropThins(m, slug.value); }
  }

  lemma ThinsHas<V>(m: Slots<V>, n: Slots<V>, key: string)
    requires Within(m, n) && !Has(n, key)
    ensures !Has(m, key)
  {
    forall i | 0 <= i < |m| ensures m[i].key != key { assert m[i] in n; }
  }

  // ---------------------------------------------------------------- sizes

  predicate Bounded<V>(m: Slots<V>, limit: nat) {
    DistinctKeys(m) && |m| <= limit
  }

  predicate Sized(s: State) {
    && Bounded(s.slugCache, MAX_ENTRIES) && Bounded(s.hostCache, MAX_ENTRIES) && Bounded(s.misses, NEGATIVE_MAX_ENTRIES)
  }

  lemma ThinsBounded<V>(m: Slots<V>, n: Slots<V>, limit: nat)
    requires Thins(m, n) && Bounded(n, limit)
    ensures Bounded(m, limit)
  {
  }

  lemma ReadBounded<V>(m: Slots<V>, key: string, now: int, limit: nat)
    requires Bounded(m, limit)
    ensures Bounded(AfterRead(m, key, now), limit)
  {
    ReadThins(m, key, now);
    ThinsBounded(AfterRead(m, key, now), m, limit);
  }

  lemma InvalidatedBounded(m: Slots<Store>, slug: Option<string>, host: Option<string>, limit: nat)
    requires Bounded(m, limit)
    ensures Bounded(InvalidatedHosts(m, slug, host), limit) && Bounded(InvalidatedSlugs(m, slug, host), limit)
  {
    InvalidatedHostsThins(m, slug, host);
    InvalidatedSlugsThins(m, slug, host);
    ThinsBounded(InvalidatedHosts(m, slug, host), m, limit);
    ThinsBounded(InvalidatedSlugs(m, slug, host), m, limit);
  }

  lemma WrittenBounded(m: Slots<Store>, key: string, value: Store, now: int)
    requires DistinctKeys(m)
    ensures Bounded(Written(m, key, value, now), MAX_ENTRIES)
  {
    PutMeans(m, Slot(key, value, now + CACHE_TTL_MS));
    NewestMeans(Put(m, Slot(key, value, now + CACHE_TTL_MS)), MAX_ENTRIES);
  }

  lemma RememberedBounded(m: Slots<Missed>, host: string, now: int)
    requires DistinctKeys(m)
    ensures Bounded(Remembered(m, host, now), NEGATIVE_MAX_ENTRIES)
  {
    DropKeepsOrder(m, host);
    NewestMeans(Drop(m, host) + [Slot(host, Missed, now + NEGATIVE_TTL_MS)], NEGATIVE_MAX_ENTRIES);
  }

  lemma StepKeepsSized(s: State, e: Event)
    requires Sized(s)
    ensures Sized(Step(s, e))
  {
    match e
    case Invalidate(slug, host) =>
      InvalidatedBounded(s.hostCache, slug, host, MAX_ENTRIES);
      InvalidatedBounded(s.slugCache, slug, host, MAX_ENTRIES);
    case ResolveHost(host) =>
      ReadBounded(s.hostCache, host, s.now, MAX_ENTRIES);
      ReadBounded(s.misses, host, s.now, NEGATIVE_MAX_ENTRIES);
    case ScanThen(id) =>
      if id < |s.scans| && s.scans[id].phase.Seen? {
        var scan := s.scans[id];
        if scan.phase.row.Some? { WrittenBounded(s.hostCache, scan.host, scan.phase.row.value, s.now); }
        RememberedBounded(s.misses, scan.host, s.now);
      }
    case ResolveSlug(slug) => ReadBounded(s.slugCache, slug, s.now, MAX_ENTRIES);
    case LookupEnds(id) =>
      if id < |s.lookups| && s.lookups[id].phase.Told? && s.lookups[id].phase.row.Some? {
        WrittenBounded(s.slugCache, s.lookups[id].slug, s.lookups[id].phase.row.value, s.now);
      }
    case _ =>
  }

  /**
   * Both positive caches stay at or under 1000 entries and the miss cache at or under 2000, each with one entry a
   * key.
   */
  lemma {:induction false} CachesStaySmall(s: State, events: seq<Event>)
    requires Sized(s)
    ensures Sized(Run(s, events))
    decreases |events|
  {
    if events != [] {
      StepKeepsSized(s, events[0]);
      CachesStaySmall(Step(s, events[0]), events[1..]);
    }
  }

  // ---------------------------------------------------------------- expiry order

  predicate ClockGoesForward(events: seq<Event>) {
    forall i :: 0 <= i < |events| && events[i].Tick? ==> events[i].ms >= 0
  }

  /** The host of a scan that was not handled yet has no cache entry. */
  predicate Gaps(scans: seq<Scan>, hostCache: Slots<Store>) {
    forall k :: 0 <= k < |scans| && (scans[k].phase.Reading? || scans[k].phase.Seen?) ==> !Has(hostCache, scans[k].host)
  }

  predicate Expiring<V>(m: Slots<V>, now: int, ttl: nat) {
    InExpiryOrder(m) && ExpireBy(m, now + ttl)
  }

  predicate Ordered(s: State) {
    && Sized(s) && SingleFlight(s) && Gaps(s.scans, s.hostCache)
    && Expiring(s.misses, s.now, NEGATIVE_TTL_MS) && Expiring(s.hostCache, s.now, CACHE_TTL_MS)
  }

  lemma ThinsExpiring<V>(m: Slots<V>, n: Slots<V>, now: int, ttl: nat)
    requires Thins(m, n) && Expiring(n, now, ttl)
    ensures Expiring(m, now, ttl)
  {
    forall i | 0 <= i < |m| ensures m[i].expiresAt <= now + ttl { assert m[i] in n; }
  }

  lemma ThinsGaps(scans: seq<Scan>, m: Slots<Store>, n: Slots<Store>)
    requires Gaps(scans, n) && Within(m, n)
    ensures Gaps(scans, m)
  {
    forall k | 0 <= k < |scans| && (scans[k].phase.Reading? || scans[k].phase.Seen?) ensures !Has(m, scans[k].host) {
      ThinsHas(m, n, scans[k].host);
    }
  }

  lemma AppendExpiring<V>(m: Slots<V>, key: string, value: V, now: int, ttl: nat, limit: nat)
    requires Expiring(m, now, ttl)
    ensures Expiring(Newest(m + [Slot(key, value, now + ttl)], limit), now, ttl)
  {
    var next := m + [Slot(key, value, now + ttl)];
    AppendOrdered(m, Slot(key, value, now + ttl));
    NewestThins(next, limit);
    ThinsExpiring(Newest(next, limit), next, now, ttl);
  }

  /** A found row goes to the end of the host cache, since its host had no entry. */
  lemma WrittenExpiring(m: Slots<Store>, host: string, row: Store, now: int)
    requires Expiring(m, now, CACHE_TTL_MS) && !Has(m, host)
    ensures Expiring(Written(m, host, row, now), now, CACHE_TTL_MS)
  {
    PutMeans(m, Slot(host, row, now + CACHE_TTL_MS));
    AppendExpiring(m, host, row, now, CACHE_TTL_MS, MAX_ENTRIES);
  }

  lemma WrittenHas(m: Slots<Store>, host: string, row: Store, now: int, other: string)
    requires !Has(m, other) && other != host
    ensures !Has(Written(m, host, row, now), other)
  {
    var slot := Slot(host, row, now + CACHE_TTL_MS);
    PutMeans(m, slot);
    NewestMeans(Put(m, slot), MAX_ENTRIES);
    ThinsHas(Put(m, slot), m + [slot], other);
    ThinsHas(Newest(Put(m, slot), MAX_ENTRIES), Put(m, slot), other);
  }

  lemma FoundKeepsGaps(scans: seq<Scan>, inflight: map<string, nat>, m: Slots<Store>, id: nat, row: Store, now: int)
    requires Flights(scans, inflight) && Gaps(scans, m) && id < |scans| && Running(scans[id])
    ensures Gaps(scans[id := scans[id].(phase := Handled)], Written(m, scans[id].host, row, now))
  {
    forall k | 0 <= k < |scans| && k != id && (scans[k].phase.Reading? || scans[k].phase.Seen?)
      ensures !Has(Written(m, scans[id].host, row, now), scans[k].host)
    {
      assert scans[k].host != scans[id].host;
      WrittenHas(m, scans[id].host, row, now, scans[k].host);
    }
  }

  lemma FoundKeepsOrdered(s: State, id: nat, row: Store)
    requires Ordered(s) && id < |s.scans| && s.scans[id].phase == Seen(Some(row))
    ensures Ordered(Handle(s, id))
  {
    var host := s.scans[id].host;
    FlightsPhase(s.scans, s.inflight, id, Handled);
    WrittenBounded(s.hostCache, host, row, s.now);
    WrittenExpiring(s.hostCache, host, row, s.now);
    FoundKeepsGaps(s.scans, s.inflight, s.hostCache, id, row, s.now);
  }

  lemma RememberedExpiring(m: Slots<Missed>, host: string, now: int)
    requires Expiring(m, now, NEGATIVE_TTL_MS)
    ensures Expiring(Remembered(m, host, now), now, NEGATIVE_TTL_MS)
  {
    DropThins(m, host);
    ThinsExpiring(Drop(m, host), m, now, NEGATIVE_TTL_MS);
    AppendExpiring(Drop(m, host), host, Missed, now, NEGATIVE_TTL_MS, NEGATIVE_MAX_ENTRIES);
  }

  lemma MissKeepsOrdered(s: State, id: nat)
    requires Ordered(s) && id < |s.scans| && s.scans[id].phase == Seen(None)
    ensures Ordered(Handle(s, id))
  {
    var host := s.scans[id].host;
    RememberedExpiring(s.misses, host, s.now);
    RememberedBounded(s.misses, host, s.now);
    FlightsPhase(s.scans, s.inflight, id, Handled);
  }

  lemma ResolveKeepsOrdered(s: State, host: string)
    requires Ordered(s)
    ensures Ordered(HostResolved(s, host))
  {
    StepKeepsSingleFlight(s, ResolveHost(host));
    StepKeepsSized(s, ResolveHost(host));
    ReadKeepsExpiring(s.hostCache, host, s.now, CACHE_TTL_MS);
    ReadKeepsExpiring(s.misses, host, s.now, NEGATIVE_TTL_MS);
    ReadKeepsGaps(s.scans, s.hostCache, host, s.now);
  }

  lemma ReadKeepsExpiring<V>(m: Slots<V>, key: string, now: int, ttl: nat)
    requires Expiring(m, now, ttl)
    ensures Expiring(AfterRead(m, key, now), now, ttl)
  {
    ReadThins(m, key, now);
    ThinsExpiring(AfterRead(m, key, now), m, now, ttl);
  }

  /** A host that is not found leaves a gap its scan can fill. */
  lemma ReadKeepsGaps(scans: seq<Scan>, m: Slots<Store>, host: string, now: int)
    requires Gaps(scans, m) && DistinctKeys(m)
    ensures Gaps(scans, AfterRead(m, host, now))
    ensures Live(m, host, now) == None ==> forall g :: Gaps(scans + [Scan(host, g, Reading)], AfterRead(m, host, now))
  {
    ReadThins(m, host, now);
    ThinsGaps(scans, AfterRead(m, host, now), m);
  }

  lemma StepKeepsOrdered(s: State, e: Event)
    requires Ordered(s) && (e.Tick? ==> e.ms >= 0)
    ensures Ordered(Step(s, e))
  {
    StepKeepsSingleFlight(s, e);
    StepKeepsSized(s, e);
    match e
    case Invalidate(slug, host) =>
      InvalidatedHostsThins(s.hostCache, slug, host);
      ThinsExpiring(InvalidatedHosts(s.hostCache, slug, host), s.hostCache, s.now, CACHE_TTL_MS);
      ThinsGaps(s.scans, InvalidatedHosts(s.hostCache, slug, host), s.hostCache);
    case ResolveHost(host) => ResolveKeepsOrdered(s, host);
    case ScanThen(id) =>
      if id < |s.scans| && s.scans[id].phase.Seen? {
        if s.scans[id].phase.row == None {
          MissKeepsOrdered(s, id);
        } else {
          FoundKeepsOrdered(s, id, s.scans[id].phase.row.value);
        }
      }
    case _ =>
  }

  lemma {:induction false} RunKeepsOrdered(s: State, events: seq<Event>)
    requires Ordered(s) && ClockGoesForward(events)
    ensures Ordered(Run(s, events))
    decreases |events|
  {
    if events != [] {
      StepKeepsOrdered(s, events[0]);
      RunKeepsOrdered(Step(s, events[0]), events[1..]);
    }
  }

  /**
   * While the clock does not go back, the miss cache and the host cache list their entries in expiry order, so what a
   * full cache gives up always expires no later than what it keeps.
   */
  lemma EvictionDropsTheNearestToExpiry(
      prefixes: seq<string>, now: int, registry: seq<Store>, events: seq<Event>, i: nat, j: nat)
    requires ClockGoesForward(events)
    ensures
      var s := Run(Initial(prefixes, now, registry), events);
      && (i < j < |s.misses| ==> s.misses[i].expiresAt <= s.misses[j].expiresAt)
      && (i < j < |s.hostCache| ==> s.hostCache[i].expiresAt <= s.hostCache[j].expiresAt)
  {
    RunKeepsOrdered(Initial(prefixes, now, registry), events);
  }

  // ---------------------------------------------------------------- when the slug cache keeps its order

  /** No entry after the one that a write of this key renews expires earlier than the write will. */
  predicate LastToExpire<V>(m: Slots<V>, key: string, expiry: int) {
    forall j :: IndexOf(m, key) < j < |m| ==> m[j].expiresAt == expiry
  }

  lemma RenewedInPlace<V>(m: Slots<V>, slot: Slot<V>)
    requires InExpiryOrder(m) && ExpireBy(m, slot.expiresAt) && IndexOf(m, slot.key) < |m|
    ensures InExpiryOrder(Put(m, slot)) <==> LastToExpire(m, slot.key, slot.expiresAt)
  {
    var i := IndexOf(m, slot.key);
    var next := m[i := slot];
    if InExpiryOrder(next) {
      forall j | i < j < |m| ensures m[j].expiresAt == slot.expiresAt {
        assert next[i].expiresAt <= next[j].expiresAt && next[j] == m[j];
      }
    }
  }

  /**
   * A write keeps a map in expiry order exactly when its key is absent or nothing after it expires earlier than the
   * write does.
   */
  lemma WriteKeepsOrder(m: Slots<Store>, key: string, row: Store, now: int)
    requires Bounded(m, MAX_ENTRIES) && Expiring(m, now, CACHE_TTL_MS)
    ensures InExpiryOrder(Written(m, key, row, now)) <==> LastToExpire(m, key, now + CACHE_TTL_MS)
  {
    var slot := Slot(key, row, now + CACHE_TTL_MS);
    if IndexOf(m, key) < |m| {
      RenewedInPlace(m, slot);
    } else {
      assert !Has(m, key);
      WrittenExpiring(m, key, row, now);
    }
  }

  /** The caller's guard of a step: the entry that a lookup is about to renew is the last to expire. */
  predicate KeepsSlugOrder(s: State, e: Event) {
    e.LookupEnds? && e.lookup < |s.lookups| && s.lookups[e.lookup].phase.Told?
        && s.lookups[e.lookup].phase.row.Some? ==>
      LastToExpire(s.slugCache, s.lookups[e.lookup].slug, s.now + CACHE_TTL_MS)
  }

  predicate SlugsSound(s: State) {
    Bounded(s.slugCache, MAX_ENTRIES) && ExpireBy(s.slugCache, s.now + CACHE_TTL_MS)
  }

  lemma ThinsExpireBy<V>(m: Slots<V>, n: Slots<V>, limit: int)
    requires Within(m, n) && ExpireBy(n, limit)
    ensures ExpireBy(m, limit)
  {
    forall i | 0 <= i < |m| ensures m[i].expiresAt <= limit { assert m[i] in n; }
  }

  lemma WrittenExpireBy(m: Slots<Store>, key: string, row: Store, now: int)
    requires ExpireBy(m, now + CACHE_TTL_MS)
    ensures ExpireBy(Written(m, key, row, now), now + CACHE_TTL_MS)
  {
    var slot := Slot(key, row, now + CACHE_TTL_MS);
    PutMeans(m, slot);
    NewestMeans(Put(m, slot), MAX_ENTRIES);
    ThinsExpireBy(Put(m, slot), m + [slot], now + CACHE_TTL_MS);
    ThinsExpireBy(Newest(Put(m, slot), MAX_ENTRIES), Put(m, slot), now + CACHE_TTL_MS);
  }

  /** Taking entries out, as time goes on, keeps everything. */
  lemma ThinnedSlugs(m: Slots<Store>, n: Slots<Store>, before: int, now: int)
    requires Thins(m, n) && Bounded(n, MAX_ENTRIES) && ExpireBy(n, before + CACHE_TTL_MS) && before <= now
    ensures Bounded(m, MAX_ENTRIES) && ExpireBy(m, now + CACHE_TTL_MS) && (InExpiryOrder(n) ==> InExpiryOrder(m))
  {
    ThinsExpireBy(m, n, before + CACHE_TTL_MS);
  }

  /** Only invalidations and the two ends of a lookup touch the slug cache. */
  lemma SlugsUntouched(s: State, e: Event)
    requires !e.Invalidate? && !e.ResolveSlug? && !e.LookupEnds?
    ensures Step(s, e).slugCache == s.slugCache && Step(s, e).now == s.now + (if e.Tick? then e.ms else 0)
  {
  }

  /** The step keeps what it should, and the order exactly under its guard. */
  predicate SlugStep(s: State, e: Event) {
    && SlugsSound(Step(s, e))
    && (InExpiryOrder(s.slugCache) ==> (InExpiryOrder(Step(s, e).slugCache) <==> KeepsSlugOrder(s, e)))
  }

  lemma InvalidationSlugStep(s: State, slug: Option<string>, host: Option<string>)
    requires SlugsSound(s)
    ensures SlugStep(s, Invalidate(slug, host))
  {
    InvalidatedSlugsThins(s.slugCache, slug, host);
    ThinnedSlugs(InvalidatedSlugs(s.slugCache, slug, host), s.slugCache, s.now, s.now);
  }

  lemma ReadSlugStep(s: State, slug: string)
    requires SlugsSound(s)
    ensures SlugStep(s, ResolveSlug(slug))
  {
    ReadThins(s.slugCache, slug, s.now);
    ThinnedSlugs(AfterRead(s.slugCache, slug, s.now), s.slugCache, s.now, s.now);
  }

  lemma UntouchedSlugStep(s: State, e: Event)
    requires SlugsSound(s) && (e.Tick? ==> e.ms >= 0) && !e.Invalidate? && !e.ResolveSlug? && !e.LookupEnds?
    ensures SlugStep(s, e)
  {
    SlugsUntouched(s, e);
  }

  lemma StepSlugs(s: State, e: Event)
    requires SlugsSound(s) && (e.Tick? ==> e.ms >= 0)
    ensures SlugStep(s, e)
  {
    match e
    case Invalidate(slug, host) => InvalidationSlugStep(s, slug, host);
    case ResolveSlug(slug) => ReadSlugStep(s, slug);
    case LookupEnds(id) => EndedSlugStep(s, id);
    case _ => UntouchedSlugStep(s, e);
  }

  lemma EndedSlugStep(s: State, id: nat)
    requires SlugsSound(s)
    ensures SlugStep(s, LookupEnds(id))
  {
    if id < |s.lookups| && s.lookups[id].phase.Told? && s.lookups[id].phase.row.Some? {
      var slug, row := s.lookups[id].slug, s.lookups[id].phase.row.value;
      WrittenBounded(s.slugCache, slug, row, s.now);
      WrittenExpireBy(s.slugCache, slug, row, s.now);
      if InExpiryOrder(s.slugCache) { WriteKeepsOrder(s.slugCache, slug, row, s.now); }
    }
  }

  /** The slug cache is in expiry order from here on, after every step. */
  predicate SlugsStayOrdered(s: State, events: seq<Event>)
    decreases |events|
  {
    InExpiryOrder(s.slugCache) && (events == [] || SlugsStayOrdered(Step(s, events[0]), events[1..]))
  }

  /** Every lookup that ends meets the guard. */
  predicate EveryStepKeepsSlugOrder(s: State, events: seq<Event>)
    decreases |events|
  {
    events == [] || (KeepsSlugOrder(s, events[0]) && EveryStepKeepsSlugOrder(Step(s, events[0]), events[1..]))
  }

  lemma {:induction false} SlugOrderFrom(s: State, events: seq<Event>)
    requires SlugsSound(s) && InExpiryOrder(s.slugCache) && ClockGoesForward(events)
    ensures SlugsStayOrdered(s, events) <==> EveryStepKeepsSlugOrder(s, events)
    decreases |events|
  {
    if events != [] {
      var t := Step(s, events[0]);
      StepSlugs(s, events[0]);
      if KeepsSlugOrder(s, events[0]) {
        SlugOrderFrom(t, events[1..]);
      } else {
        assert !SlugsStayOrdered(t, events[1..]);
      }
    }
  }

  /**
   * While the clock does not go back, the slug cache lists its entries in expiry order throughout a run exactly when
   * every lookup that ends finds its slug absent or followed by no entry that expires earlier than its own write.
   */
  lemma SlugCacheOrder(prefixes: seq<string>, now: int, registry: seq<Store>, events: seq<Event>)
    requires ClockGoesForward(events)
    ensures
      var s := Initial(prefixes, now, registry);
      SlugsStayOrdered(s, events) <==> EveryStepKeepsSlugOrder(s, events)
  {
    SlugOrderFrom(Initial(prefixes, now, registry), events);
  }

  /** The first lookup to miss the guard breaks the order at once. */
  lemma FirstMissBreaksTheOrder(prefixes: seq<string>, now: int, registry: seq<Store>, events: seq<Event>, e: Event)
    requires ClockGoesForward(events) && (e.Tick? ==> e.ms >= 0)
    requires EveryStepKeepsSlugOrder(Initial(prefixes, now, registry), events)
    ensures
      var m := Run(Initial(prefixes, now, registry), events);
      InExpiryOrder(m.slugCache) && (InExpiryOrder(Step(m, e).slugCache) <==> KeepsSlugOrder(m, e))
  {
    OrderedUntil(Initial(prefixes, now, registry), events);
    StepSlugs(Run(Initial(prefixes, now, registry), events), e);
  }

  lemma {:induction false} OrderedUntil(s: State, events: seq<Event>)
    requires SlugsSound(s) && InExpiryOrder(s.slugCache) && ClockGoesForward(events)
        && EveryStepKeepsSlugOrder(s, events)
    ensures SlugsSound(Run(s, events)) && InExpiryOrder(Run(s, events).slugCache)
    decreases |events|
  {
    if events != [] {
      StepSlugs(s, events[0]);
      OrderedUntil(Step(s, events[0]), events[1..]);
    }
  }

  // ---------------------------------------------------------------- a run that breaks it

  const A := Store("1", "a", None)
  const B := Store("2", "b", None)

  /** Two lookups of one slug run at once; the later one renews the entry in its old place. */
  const LOOKUPS: seq<Event> := [ResolveSlug("a"), ResolveSlug("a"), ResolveSlug("b")]
  const ANSWERS: seq<Event> := [LookupReads(0), LookupReads(1), LookupReads(2)]
  const WRITES: seq<Event> := [LookupEnds(0), Tick(1), LookupEnds(2), Tick(1), LookupEnds(1)]

  const FRESH := Initial([], 0, [A, B])
  const ASKED := FRESH.(lookups := [Lookup("a", Asking), Lookup("a", Asking), Lookup("b", Asking)])
  const ANSWERED := FRESH.(lookups := [Lookup("a", Told(Some(A))), Lookup("a", Told(Some(A))),
      Lookup("b", Told(Some(B)))])

  lemma {:induction false} RunJoin(s: State, a: seq<Event>, b: seq<Event>)
    ensures Run(s, a + b) == Run(Run(s, a), b)
    decreases |a|
  {
    if a == [] {
      assert [] + b == b;
    } else {
      assert (a + b)[1..] == a[1..] + b;
      RunJoin(Step(s, a[0]), a[1..], b);
    }
  }

  lemma Steps(s: State, events: seq<Event>)
    requires |events| >= 3
    ensures Run(s, events) == Run(Step(Step(Step(s, events[0]), events[1]), events[2]), events[3..])
  {
    assert events[1..][0] == events[1] && events[1..][1..] == events[2..];
    assert events[2..][0] == events[2] && events[2..][1..] == events[3..];
    var one := Step(s, events[0]);
    var two := Step(one, events[1]);
    assert Run(s, events) == Run(one, events[1..]) == Run(two, events[2..]) == Run(Step(two, events[2]), events[3..]);
  }

  lemma LookupsAsk()
    ensures Run(FRESH, LOOKUPS) == ASKED
  {
    Steps(FRESH, LOOKUPS);
    assert ValidSlug("a") && ValidSlug("b");
    var one := Step(FRESH, LOOKUPS[0]);
    assert one == FRESH.(lookups := [Lookup("a", Asking)]);
    var two := Step(one, LOOKUPS[1]);
    assert two == FRESH.(lookups := [Lookup("a", Asking), Lookup("a", Asking)]);
  }

  lemma LookupsAnswered()
    ensures Run(ASKED, ANSWERS) == ANSWERED
  {
    Steps(ASKED, ANSWERS);
    assert StoreOfSlug([A, B], "a") == Some(A);
    assert [A, B][1..] == [B] && StoreOfSlug([B], "b") == Some(B);
    var one := Step(ASKED, ANSWERS[0]);
    assert one.lookups == [Lookup("a", Told(Some(A))), Lookup("a", Asking), Lookup("b", Asking)];
    var two := Step(one, ANSWERS[1]);
    assert two.lookups == [Lookup("a", Told(Some(A))), Lookup("a", Told(Some(A))), Lookup("b", Asking)];
  }

  lemma LookupsWrite()
    ensures Run(ANSWERED, WRITES).slugCache == [Slot("a", A, 60002), Slot("b", B, 60001)]
  {
    Steps(ANSWERED, WRITES);
    var one := Step(ANSWERED, WRITES[0]);
    assert one.slugCache == [Slot("a", A, 60000)];
    assert one.lookups == [Lookup("a", Ended), Lookup("a", Told(Some(A))), Lookup("b", Told(Some(B)))];
    var three := Step(one.(now := 1), WRITES[2]);
    assert IndexOf(one.slugCache, "b") == 1;
    assert three.slugCache == [Slot("a", A, 60000), Slot("b", B, 60001)];
    assert three.lookups == [Lookup("a", Ended), Lookup("a", Told(Some(A))), Lookup("b", Ended)];
    assert three.now == 1;
    assert WRITES[3..] == [Tick(1), LookupEnds(1)] && [Tick(1), LookupEnds(1)][1..] == [LookupEnds(1)];
    var last := Step(three.(now := 2), LookupEnds(1));
    assert last.slugCache == [Slot("a", A, 60002), Slot("b", B, 60001)];
    assert Run(three, WRITES[3..]) == Run(three.(now := 2), [LookupEnds(1)]);
    assert [LookupEnds(1)][1..] == [] && Run(last, []) == last;
  }

  /** The slug cache has no single flight, so its first entry can be the one that expires last. */
  lemma SlugCacheBreaksTheOrder()
    ensures
      var events := LOOKUPS + ANSWERS + WRITES;
      ClockGoesForward(events) && !InExpiryOrder(Run(FRESH, events).slugCache)
  {
    LookupsAsk();
    LookupsAnswered();
    LookupsWrite();
    RunJoin(FRESH, LOOKUPS, ANSWERS);
    RunJoin(FRESH, LOOKUPS + ANSWERS, WRITES);
    var m := Run(FRESH, LOOKUPS + ANSWERS + WRITES).slugCache;
    assert m[0].expiresAt > m[1].expiresAt;
  }
}
