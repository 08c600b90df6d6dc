/** The store caches of one process, updated in place between the awaits of a request. */
module StoreCaches {
  import opened Wrappers
  import opened HostSelect
  import opened OrderedCache
  import opened HostCache

  class Caches {
    const slugCache: TtlCache<Store>
    const hostCache: TtlCache<Store>
    const hostMissCache: TtlCache<Missed>
    var inflightHost: map<string, nat>
    var hostGeneration: nat
    var scans: seq<Scan>
    var lookups: seq<Lookup>

    ghost predicate Valid()
      reads this, slugCache, hostCache, hostMissCache
    {
      && slugCache != hostCache
      && hostCache.ttl == CACHE_TTL_MS && slugCache.ttl == CACHE_TTL_MS && hostMissCache.ttl == NEGATIVE_TTL_MS
      && hostCache.limit == MAX_ENTRIES && slugCache.limit == MAX_ENTRIES && hostMissCache.limit == NEGATIVE_MAX_ENTRIES
      && DistinctKeys(slugCache.slots) && DistinctKeys(hostCache.slots) && DistinctKeys(hostMissCache.slots)
    }

    /** The state of the whole system when its caches are these. */
    ghost function In(world: State): State
      reads this, slugCache, hostCache, hostMissCache
    {
      world.(slugCache := slugCache.slots, hostCache := hostCache.slots, misses := hostMissCache.slots,
             inflight := inflightHost, generation := hostGeneration, scans := scans, lookups := lookups)
    }

    constructor ()
      ensures Valid() && fresh(slugCache) && fresh(hostCache) && fresh(hostMissCache)
      ensures forall prefixes, now, rows :: In(Initial(prefixes, now, rows)) == Initial(prefixes, now, rows)
    {
      slugCache := new TtlCache(CACHE_TTL_MS, MAX_ENTRIES);
      hostCache := new TtlCache(CACHE_TTL_MS, MAX_ENTRIES);
      hostMissCache := new TtlCache(NEGATIVE_TTL_MS, NEGATIVE_MAX_ENTRIES);
      inflightHost, hostGeneration, scans, lookups := map[], 0, [], [];
    }

    /** Entries of a changed store go, one by one. */
    method DropSlug(slug: string)
      requires Valid()
      modifies hostCache
      ensures Valid() && hostCache.slots == WithoutSlug(old(hostCache.slots), slug)
    {
      ghost var was := hostCache.slots;
      var i := 0;
      while i < |hostCache.slots|
        invariant i <= |hostCache.slots| && DistinctKeys(hostCache.slots)
        invariant WithoutSlug(was, slug) == hostCache.slots[..i] + WithoutSlug(hostCache.slots[i..], slug)
        decreases |hostCache.slots| - i
      {
        var m := hostCache.slots;
        DropOne(m, i, slug);
        if m[i].value.slug == slug { hostCache.Delete(m[i].key); } else { i := i + 1; }
      }
    }

    method InvalidateStoreCache(slug: Option<string>, host: Option<string>, ghost world: State)
      requires Valid()
      modifies this, slugCache, hostCache, hostMissCache
      ensures Valid() && In(world.(unsettled := false)) == Invalidated(old(In(world)), slug, host)
    {
      hostMissCache.Clear();
      hostGeneration := hostGeneration + 1;
      if slug == None && host == None {
        slugCache.Clear();
        hostCache.Clear();
        return;
      }
      InvalidateEntries(slug, host);
    }

    method InvalidateEntries(slug: Option<string>, host: Option<string>)
      requires Valid() && (slug.Some? || host.Some?)
      modifies slugCache, hostCache
      ensures Valid() && slugCache.slots == InvalidatedSlugs(old(slugCache.slots), slug, host)
      ensures hostCache.slots == InvalidatedHosts(old(hostCache.slots), slug, host)
    {
      if slug.Some? {
        DropKeepsOrder(slugCache.slots, slug.value);
        slugCache.Delete(slug.value);
        DropSlug(slug.value);
      }
      if host.Some? {
        DropKeepsOrder(hostCache.slots, host.value);
        hostCache.Delete(host.value);
      }
    }

    /** A request up to its first wait: answered from a cache, sharing a scan under way, or starting one. */
    method ResolveStoreByHost(host: string, now: int, ghost world: State) returns (answer: Answer)
      requires Valid() && world.now == now
      modifies this, hostCache, hostMissCache
      ensures Valid()
      ensures In(world) == HostResolved(old(In(world)), host) && answer == HostAnswer(old(In(world)), host)
    {
      if host == "" || |host| > MAX_HOST_LENGTH { return NotFound; }
      DropKeepsOrder(hostCache.slots, host);
      var cached := hostCache.Read(host, now);
      if cached.Some? { return Found(cached.value); }
      DropKeepsOrder(hostMissCache.slots, host);
      var missed := hostMissCache.Read(host, now);
      if missed.Some? { return NotFound; }
      if host in inflightHost { return Waits(inflightHost[host]); }
      answer := Waits(|scans|);
      inflightHost := inflightHost[host := |scans|];
      scans := scans + [Scan(host, hostGeneration, Reading)];
    }

    method RememberFound(host: string, row: Store, now: int)
      requires Valid()
      modifies hostCache
      ensures Valid() && hostCache.slots == Written(old(hostCache.slots), host, row, now)
    {
      hostCache.Write(host, row, now);
    }

    method RememberHostMiss(host: string, now: int)
      requires Valid()
      modifies hostMissCache
      ensures Valid() && hostMissCache.slots == Remembered(old(hostMissCache.slots), host, now)
    {
      hostMissCache.Renew(host, Missed, now);
    }

    /** The scan has its row: cache it, or remember a miss that no invalidation has overtaken. */
    method ScanAnswered(id: nat, now: int, ghost world: State) returns (row: Option<Store>)
      requires Valid() && world.now == now && id < |scans| && scans[id].phase.Seen?
      modifies this`scans, hostCache, hostMissCache
      ensures Valid() && In(world) == Handle(old(In(world)), id) && row == old(scans[id].phase.row)
    {
      var scan := scans[id];
      row := scan.phase.row;
      HandleFields(In(world), id);
      if row.Some? {
        RememberFound(scan.host, row.value, now);
      } else if scan.generation == hostGeneration {
        RememberHostMiss(scan.host, now);
      }
      scans := scans[id := scan.(phase := Handled)];
    }

    /** A request by slug up to its query: refused, answered from the cache, or asking the registry. */
    method ResolveStore(slug: string, now: int, ghost world: State) returns (reply: Reply)
      requires Valid() && world.now == now
      modifies this`lookups, slugCache
      ensures Valid()
      ensures In(world) == SlugResolved(old(In(world)), slug) && reply == SlugReply(old(In(world)), slug)
    {
      if !ValidSlug(slug) { return Refused; }
      DropKeepsOrder(slugCache.slots, slug);
      var cached := slugCache.Read(slug, now);
      if cached.Some? { return Cached(cached.value); }
      reply := Asks(|lookups|);
      lookups := lookups + [Lookup(slug, Asking)];
    }

    /** The query's row, if there is one, is cached under the slug. */
    method LookupAnswered(id: nat, now: int, ghost world: State) returns (row: Option<Store>)
      requires Valid() && world.now == now && id < |lookups| && lookups[id].phase.Told?
      modifies this`lookups, slugCache
      ensures Valid() && In(world) == LookupEnded(old(In(world)), id) && row == old(lookups[id].phase.row)
    {
      var found := lookups[id];
      row := found.phase.row;
      if row.Some? { slugCache.Write(found.slug, row.value, now); }
      lookups := lookups[id := found.(phase := Ended)];
    }

    method ScanSettled(id: nat, ghost world: State)
      requires Valid() && id < |scans| && scans[id].phase.Handled?
      modifies this
      ensures Valid() && In(world) == Step(old(In(world)), ScanFinally(id))
    {
      inflightHost := inflightHost - {scans[id].host};
      scans := scans[id := scans[id].(phase := Over)];
    }
  }

  /** One step of dropping a store's entries: the entry at `i` goes, or the step moves past it. */
  lemma DropOne(m: Slots<Store>, i: nat, slug: string)
    requires DistinctKeys(m) && i < |m|
    ensures var d := Drop(m, m[i].key); |d| == |m| - 1 && d[..i] == m[..i] && d[i..] == m[i + 1..] && DistinctKeys(d)
    ensures
      m[..i] + WithoutSlug(m[i..], slug) ==
        if m[i].value.slug == slug then m[..i] + WithoutSlug(m[i + 1..], slug)
        else m[..i + 1] + WithoutSlug(m[i + 1..], slug)
  {
    assert DistinctKeys(Drop(m, m[i].key)) by { DropKeepsOrder(m, m[i].key); }
    DropFrom(m, i);
    WithoutSlugFrom(m, i, slug);
  }

  lemma DropFrom<V>(m: Slots<V>, i: nat)
    requires DistinctKeys(m) && i < |m|
    ensures var d := Drop(m, m[i].key); |d| == |m| - 1 && d[..i] == m[..i] && d[i..] == m[i + 1..]
  {
    FirstOfKey(m, i);
    var front, back := m[..i], m[i + 1..];
    assert Drop(m, m[i].key) == front + back;
    assert (front + back)[..i] == front && (front + back)[i..] == back;
  }

  lemma WithoutSlugFrom(m: Slots<Store>, i: nat, slug: string)
    requires i < |m|
    ensures
      m[..i] + WithoutSlug(m[i..], slug) ==
        if m[i].value.slug == slug then m[..i] + WithoutSlug(m[i + 1..], slug)
        else m[..i + 1] + WithoutSlug(m[i + 1..], slug)
  {
    var front, rest := m[..i], WithoutSlug(m[i + 1..], slug);
    assert m[i..][0] == m[i] && m[i..][1..] == m[i + 1..];
    assert m[..i + 1] == front + [m[i]];
    assert front + ([m[i]] + rest) == (front + [m[i]]) + rest;
    assert [] + rest == rest;
  }

  lemma FirstOfKey<V>(m: Slots<V>, i: nat)
    requires DistinctKeys(m) && i < |m|
    ensures IndexOf(m, m[i].key) == i
  {
  }
}
