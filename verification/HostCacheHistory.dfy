/** Where cached answers come from: every one was the simple scan's answer for some registry of the past. */
module HostCacheHistory {
  import opened Wrappers
  import opened HostSelect
  import opened OrderedCache
  import opened HostCache
  import opened HostCacheBounds

  /** Which answers count as known, for hosts or for slugs. */
  type Said = (string, Option<Store>) -> bool

  predicate SlotsKnown(said: Said, m: Slots<Store>) {
    forall i :: 0 <= i < |m| ==> said(m[i].key, Some(m[i].value))
  }

  predicate MissesKnown(said: Said, m: Slots<Missed>) {
    forall i :: 0 <= i < |m| ==> said(m[i].key, None)
  }

  predicate ScansKnown(said: Said, scans: seq<Scan>) {
    forall k :: 0 <= k < |scans| && scans[k].phase.Seen? ==> said(scans[k].host, scans[k].phase.row)
  }

  predicate LookupsKnown(told: Said, lookups: seq<Lookup>) {
    forall k :: 0 <= k < |lookups| && lookups[k].phase.Told? ==> told(lookups[k].slug, lookups[k].phase.row)
  }

  /** Everything cached or under way is a known answer. */
  predicate Known(s: State, said: Said, told: Said) {
    && SlotsKnown(said, s.hostCache) && MissesKnown(said, s.misses) && ScansKnown(said, s.scans)
    && SlotsKnown(told, s.slugCache) && LookupsKnown(told, s.lookups)
  }

  /** The answers of this registry are known. */
  ghost predicate Covers(said: Said, told: Said, prefixes: seq<string>, rows: seq<Store>) {
    && (forall host :: said(host, PickFor(rows, prefixes, host)))
    && (forall slug :: told(slug, StoreOfSlug(rows, slug)))
  }

  // ---------------------------------------------------------------- entries taken out or added

  lemma SlotsWithin(said: Said, m: Slots<Store>, n: Slots<Store>)
    requires SlotsKnown(said, n) && Within(m, n)
    ensures SlotsKnown(said, m)
  {
    forall i | 0 <= i < |m| ensures said(m[i].key, Some(m[i].value)) { assert m[i] in n; }
  }

  lemma MissesWithin(said: Said, m: Slots<Missed>, n: Slots<Missed>)
    requires MissesKnown(said, n) && Within(m, n)
    ensures MissesKnown(said, m)
  {
    forall i | 0 <= i < |m| ensures said(m[i].key, None) { assert m[i] in n; }
  }

  ghost predicate AddsOne<V>(next: Slots<V>, m: Slots<V>, slot: Slot<V>) {
    Within(next, m + [slot])
  }

  lemma WrittenAdds(m: Slots<Store>, key: string, value: Store, now: int)
    ensures AddsOne(Written(m, key, value, now), m, Slot(key, value, now + CACHE_TTL_MS))
  {
    var slot := Slot(key, value, now + CACHE_TTL_MS);
    PutMeans(m, slot);
    NewestMeans(Put(m, slot), MAX_ENTRIES);
    WithinTwice(Written(m, key, value, now), Put(m, slot), m + [slot]);
  }

  lemma RememberedAdds(m: Slots<Missed>, host: string, now: int)
    ensures AddsOne(Remembered(m, host, now), m, Slot(host, Missed, now + NEGATIVE_TTL_MS))
  {
    var slot := Slot(host, Missed, now + NEGATIVE_TTL_MS);
    DropMeans(m, host);
    NewestMeans(Drop(m, host) + [slot], NEGATIVE_MAX_ENTRIES);
    forall i | 0 <= i < |Drop(m, host) + [slot]| ensures (Drop(m, host) + [slot])[i] in m + [slot] {
      if i < |Drop(m, host)| { assert Drop(m, host)[i] in m; }
    }
    WithinTwice(Remembered(m, host, now), Drop(m, host) + [slot], m + [slot]);
  }

  // ---------------------------------------------------------------- every step

  lemma InvalidatedSlots(said: Said, m: Slots<Store>, slug: Option<string>, host: Option<string>)
    requires SlotsKnown(said, m)
    ensures SlotsKnown(said, InvalidatedHosts(m, slug, host)) && SlotsKnown(said, InvalidatedSlugs(m, slug, host))
  {
    InvalidatedHostsThins(m, slug, host);
    InvalidatedSlugsThins(m, slug, host);
    SlotsWithin(said, InvalidatedHosts(m, slug, host), m);
    SlotsWithin(said, InvalidatedSlugs(m, slug, host), m);
  }

  lemma ReadSlots(said: Said, m: Slots<Store>, key: string, now: int)
    requires SlotsKnown(said, m)
    ensures SlotsKnown(said, AfterRead(m, key, now))
    ensures Live(m, key, now).Some? ==> said(key, Live(m, key, now))
  {
    DropMeans(m, key);
    SlotsWithin(said, AfterRead(m, key, now), m);
    var i := IndexOf(m, key);
    if i < |m| { assert said(m[i].key, Some(m[i].value)); }
  }

  lemma ReadMisses(said: Said, m: Slots<Missed>, host: string, now: int)
    requires MissesKnown(said, m)
    ensures MissesKnown(said, AfterRead(m, host, now))
    ensures Live(m, host, now).Some? ==> said(host, None)
  {
    DropMeans(m, host);
    MissesWithin(said, AfterRead(m, host, now), m);
    var i := IndexOf(m, host);
    if i < |m| { assert said(m[i].key, None); }
  }

  lemma WrittenSlots(said: Said, m: Slots<Store>, key: string, row: Store, now: int)
    requires SlotsKnown(said, m) && said(key, Some(row))
    ensures SlotsKnown(said, Written(m, key, row, now))
  {
    WrittenAdds(m, key, row, now);
    SlotsWithin(said, Written(m, key, row, now), m + [Slot(key, row, now + CACHE_TTL_MS)]);
  }

  lemma RememberedMisses(said: Said, m: Slots<Missed>, host: string, now: int)
    requires MissesKnown(said, m) && said(host, None)
    ensures MissesKnown(said, Remembered(m, host, now))
  {
    RememberedAdds(m, host, now);
    MissesWithin(said, Remembered(m, host, now), m + [Slot(host, Missed, now + NEGATIVE_TTL_MS)]);
  }

  lemma ScanPhase(said: Said, scans: seq<Scan>, id: nat, phase: ScanPhase)
    requires ScansKnown(said, scans) && id < |scans| && (phase.Seen? ==> said(scans[id].host, phase.row))
    ensures ScansKnown(said, scans[id := scans[id].(phase := phase)])
  {
  }

  lemma LookupPhases(told: Said, lookups: seq<Lookup>, id: nat, phase: LookupPhase)
    requires LookupsKnown(told, lookups) && id < |lookups| && (phase.Told? ==> told(lookups[id].slug, phase.row))
    ensures LookupsKnown(told, lookups[id := lookups[id].(phase := phase)])
  {
  }

  lemma HandleKnown(s: State, said: Said, told: Said, id: nat)
    requires Known(s, said, told) && id < |s.scans| && s.scans[id].phase.Seen?
    ensures Known(Handle(s, id), said, told)
  {
    var host, row := s.scans[id].host, s.scans[id].phase.row;
    ScanPhase(said, s.scans, id, Handled);
    if row.Some? {
      WrittenSlots(said, s.hostCache, host, row.value, s.now);
    } else {
      RememberedMisses(said, s.misses, host, s.now);
    }
  }

  lemma ResolveKnown(s: State, said: Said, told: Said, host: string)
    requires Known(s, said, told)
    ensures Known(HostResolved(s, host), said, told)
  {
    ReadSlots(said, s.hostCache, host, s.now);
    ReadMisses(said, s.misses, host, s.now);
  }

  lemma LookupToldKnown(s: State, said: Said, told: Said, id: nat)
    requires Known(s, said, told) && Covers(said, told, s.prefixes, s.registry) && id < |s.lookups|
    ensures
      var row := StoreOfSlug(s.registry, s.lookups[id].slug);
      Known(s.(lookups := s.lookups[id := s.lookups[id].(phase := Told(row))]), said, told)
  {
    LookupPhases(told, s.lookups, id, Told(StoreOfSlug(s.registry, s.lookups[id].slug)));
  }

  lemma LookupEndedKnown(s: State, said: Said, told: Said, id: nat)
    requires Known(s, said, told) && id < |s.lookups| && s.lookups[id].phase.Told?
    ensures Known(LookupEnded(s, id), said, told)
  {
    var slug, row := s.lookups[id].slug, s.lookups[id].phase.row;
    LookupPhases(told, s.lookups, id, Ended);
    if row.Some? { WrittenSlots(told, s.slugCache, slug, row.value, s.now); }
  }

  lemma StepKnown(s: State, said: Said, told: Said, e: Event)
    requires Known(s, said, told) && Covers(said, told, s.prefixes, s.registry)
    ensures Known(Step(s, e), said, told)
  {
    match e
    case Invalidate(slug, host) =>
      InvalidatedSlots(said, s.hostCache, slug, host);
      InvalidatedSlots(told, s.slugCache, slug, host);
    case ResolveHost(host) => ResolveKnown(s, said, told, host);
    case ScanReads(id) =>
      if id < |s.scans| { ScanPhase(said, s.scans, id, Seen(PickFor(s.registry, s.prefixes, s.scans[id].host))); }
    case ScanThen(id) => if id < |s.scans| && s.scans[id].phase.Seen? { HandleKnown(s, said, told, id); }
    case ScanFails(id) => if id < |s.scans| { ScanPhase(said, s.scans, id, Handled); }
    case ScanFinally(id) => if id < |s.scans| { ScanPhase(said, s.scans, id, Over); }
    case ResolveSlug(slug) => ReadSlots(told, s.slugCache, slug, s.now);
    case LookupReads(id) => if id < |s.lookups| && s.lookups[id].phase.Asking? { LookupToldKnown(s, said, told, id); }
    case LookupEnds(id) => if id < |s.lookups| && s.lookups[id].phase.Told? { LookupEndedKnown(s, said, told, id); }
    case _ =>
  }

  predicate Changes(events: seq<Event>, rows: seq<Store>) {
    exists i :: 0 <= i < |events| && events[i] == ChangeRegistry(rows)
  }

  lemma ChangesLater(events: seq<Event>, rows: seq<Store>)
    requires events != [] && Changes(events[1..], rows)
    ensures Changes(events, rows)
  {
    var i :| 0 <= i < |events| - 1 && events[1..][i] == ChangeRegistry(rows);
    assert events[i + 1] == ChangeRegistry(rows);
  }

  /** While every registry of the run has known answers, everything cached stays a known answer. */
  lemma {:induction false} RunKnown(s: State, said: Said, told: Said, covered: seq<Store> -> bool, events: seq<Event>)
    requires Known(s, said, told) && covered(s.registry)
    requires forall rows :: covered(rows) ==> Covers(said, told, s.prefixes, rows)
    requires forall rows :: Changes(events, rows) ==> covered(rows)
    ensures Known(Run(s, events), said, told)
    decreases |events|
  {
    if events != [] {
      var t := Step(s, events[0]);
      assert Known(t, said, told) by { StepKnown(s, said, told, events[0]); }
      RegistryAfter(s, events[0]);
      if events[0].ChangeRegistry? { assert Changes(events, events[0].rows); }
      forall rows | Changes(events[1..], rows) ensures Changes(events, rows) { ChangesLater(events, rows); }
      RunKnown(t, said, told, covered, events[1..]);
    }
  }

  lemma RegistryAfter(s: State, e: Event)
    ensures Step(s, e).prefixes == s.prefixes
    ensures Step(s, e).registry == if e.ChangeRegistry? then e.rows else s.registry
  {
  }

  // ---------------------------------------------------------------- the registries of a run

  type History = seq<seq<Store>>

  /** Some registry from version `first` on gave this answer for the host. */
  predicate WasAnswer(past: History, first: nat, prefixes: seq<string>, host: string, answer: Option<Store>) {
    exists v :: first <= v < |past| && PickFor(past[v], prefixes, host) == answer
  }

  predicate WasStore(past: History, first: nat, slug: string, answer: Option<Store>) {
    exists v :: first <= v < |past| && StoreOfSlug(past[v], slug) == answer
  }

  predicate Rooted(s: State, first: nat) {
    first < |s.history| && s.history[|s.history| - 1] == s.registry
  }

  /** The history only grows, and every registry of a run is in it. */
  lemma {:induction false} HistoryGrows(s: State, first: nat, events: seq<Event>)
    requires Rooted(s, first)
    ensures
      var past := Run(s, events).history;
      && |s.history| <= |past| && (forall v :: 0 <= v < |s.history| ==> past[v] == s.history[v])
      && forall rows :: Changes(events, rows) ==> exists v :: first <= v < |past| && past[v] == rows
    decreases |events|
  {
    if events != [] {
      HistoryGrows(Step(s, events[0]), first, events[1..]);
      var past := Run(s, events).history;
      forall rows | Changes(events, rows) ensures exists v :: first <= v < |past| && past[v] == rows {
        var i :| 0 <= i < |events| && events[i] == ChangeRegistry(rows);
        if i == 0 {
          assert past[|s.history|] == rows;
        } else {
          assert Changes(events[1..], rows) by { assert events[1..][i - 1] == events[i]; }
        }
      }
    }
  }

  lemma PastCovers(past: History, first: nat, prefixes: seq<string>, said: Said, told: Said, v: nat)
    requires first <= v < |past|
    requires forall h, a :: WasAnswer(past, first, prefixes, h, a) ==> said(h, a)
    requires forall slug, a :: WasStore(past, first, slug, a) ==> told(slug, a)
    ensures Covers(said, told, prefixes, past[v])
  {
    forall host ensures said(host, PickFor(past[v], prefixes, host)) {
      assert WasAnswer(past, first, prefixes, host, PickFor(past[v], prefixes, host));
    }
    forall slug ensures told(slug, StoreOfSlug(past[v], slug)) {
      assert WasStore(past, first, slug, StoreOfSlug(past[v], slug));
    }
  }

  /** What a request is told, from a cache or from a scan that has read. */
  predicate Tells(s: State, said: Said, host: string) {
    match HostAnswer(s, host)
    case Found(store) => said(host, Some(store))
    case NotFound => said(host, None)
    case Waits(id) => id < |s.scans| && s.scans[id].phase.Seen? ==> said(s.scans[id].host, s.scans[id].phase.row)
  }

  lemma KnownTells(s: State, said: Said, told: Said, host: string)
    requires Known(s, said, told) && Resolvable(host)
    ensures Tells(s, said, host)
  {
    ReadSlots(said, s.hostCache, host, s.now);
    ReadMisses(said, s.misses, host, s.now);
  }

  // ---------------------------------------------------------------- what requests are told

  /** The answers of the registries from version `first` on. */
  function AnswersOf(past: History, first: nat, prefixes: seq<string>): Said {
    (host: string, answer: Option<Store>) => WasAnswer(past, first, prefixes, host, answer)
  }

  function StoresOf(past: History, first: nat): Said {
    (slug: string, answer: Option<Store>) => WasStore(past, first, slug, answer)
  }

  /** A request's answer was the simple scan's answer for some registry from version `first` on. */
  predicate ToldFrom(s: State, first: nat, host: string) {
    Tells(s, AnswersOf(s.history, first, s.prefixes), host)
  }

  /** Everything cached or under way after a run is an answer of the registries from version `first` on. */
  lemma RunKnownByHistory(s: State, first: nat, events: seq<Event>)
    requires Rooted(s, first) && forall said: Said, told: Said :: Known(s, said, told)
    ensures
      var past := Run(s, events).history;
      Known(Run(s, events), AnswersOf(past, first, s.prefixes), StoresOf(past, first))
  {
    var past := Run(s, events).history;
    var said, told := AnswersOf(past, first, s.prefixes), StoresOf(past, first);
    HistoryGrows(s, first, events);
    var covered := (rows: seq<Store>) => exists v :: first <= v < |past| && past[v] == rows;
    assert covered(s.registry) by { assert past[|s.history| - 1] == s.registry; }
    forall rows | covered(rows) ensures Covers(said, told, s.prefixes, rows) {
      var v :| first <= v < |past| && past[v] == rows;
      PastCovers(past, first, s.prefixes, said, told, v);
    }
    RunKnown(s, said, told, covered, events);
  }

  /** With nothing cached or waiting that is older than version `first`, no request is told anything older. */
  lemma TellsNothingOlder(s: State, first: nat, events: seq<Event>, host: string)
    requires Rooted(s, first) && Resolvable(host)
    requires forall said: Said, told: Said :: Known(s, said, told)
    ensures ToldFrom(Run(s, events), first, host)
  {
    var past := Run(s, events).history;
    RunPrefixes(s, events);
    RunKnownByHistory(s, first, events);
    KnownTells(Run(s, events), AnswersOf(past, first, s.prefixes), StoresOf(past, first), host);
  }

  /** Every answer of every run was the right one for some registry there has been. */
  lemma AnswersHaveBeenTrue(prefixes: seq<string>, now: int, registry: seq<Store>, events: seq<Event>, host: string)
    requires Resolvable(host)
    ensures ToldFrom(Run(Initial(prefixes, now, registry), events), 0, host)
  {
    TellsNothingOlder(Initial(prefixes, now, registry), 0, events, host);
  }

  /** No scan or lookup has an answer that is still to be handled. */
  predicate NothingUnderWay(s: State) {
    && (forall k :: 0 <= k < |s.scans| ==> !s.scans[k].phase.Seen?)
    && (forall k :: 0 <= k < |s.lookups| ==> !s.lookups[k].phase.Told?)
  }

  /** After a full flush with no answer under way, nothing older than the flush is ever told again. */
  lemma FlushForgetsThePast(
      prefixes: seq<string>, now: int, registry: seq<Store>, before: seq<Event>, later: seq<Event>, host: string)
    requires Resolvable(host)
    ensures
      var s := Run(Initial(prefixes, now, registry), before);
      NothingUnderWay(s) ==>
          s.history != [] && ToldFrom(Run(Step(s, Invalidate(None, None)), later), |s.history| - 1, host)
  {
    RunRooted(Initial(prefixes, now, registry), before);
    FlushedFrom(Run(Initial(prefixes, now, registry), before), later, host);
  }

  lemma {:induction false} RunRooted(s: State, events: seq<Event>)
    requires Rooted(s, 0)
    ensures Rooted(Run(s, events), 0)
    decreases |events|
  {
    if events != [] { RunRooted(Step(s, events[0]), events[1..]); }
  }

  lemma FlushedFrom(s: State, later: seq<Event>, host: string)
    requires Resolvable(host) && Rooted(s, 0)
    ensures NothingUnderWay(s) ==> ToldFrom(Run(Step(s, Invalidate(None, None)), later), |s.history| - 1, host)
  {
    if NothingUnderWay(s) { TellsNothingOlder(Step(s, Invalidate(None, None)), |s.history| - 1, later, host); }
  }

  // ---------------------------------------------------------------- how old a cached answer can be

  lemma {:induction false} RunLast(s: State, events: seq<Event>, e: Event)
    ensures Run(s, events + [e]) == Step(Run(s, events), e)
    decreases |events|
  {
    if events == [] {
      assert [] + [e] == [e] && [e][1..] == [];
    } else {
      assert (events + [e])[1..] == events[1..] + [e];
      RunLast(Step(s, events[0]), events[1..], e);
    }
  }

  /** This step handles a scan of the host that has read this store, at the time that gives the entry its expiry. */
  predicate Caches(m: State, e: Event, slot: Slot<Store>) {
    && e.ScanThen? && e.scan < |m.scans| && m.scans[e.scan].host == slot.key
    && m.scans[e.scan].phase == Seen(Some(slot.value)) && slot.expiresAt == m.now + CACHE_TTL_MS
  }

  predicate CachedBy(s: State, events: seq<Event>, slot: Slot<Store>) {
    exists i :: 0 <= i < |events| && Caches(Run(s, events[..i]), events[i], slot)
  }

  /** The host cache after a step that handles no scan. */
  lemma UncachedHosts(m: State, e: Event)
    requires !e.ScanThen?
    ensures Within(Step(m, e).hostCache, m.hostCache)
  {
    match e
    case Invalidate(slug, host) => InvalidatedHostsThins(m.hostCache, slug, host);
    case ResolveHost(host) => DropMeans(m.hostCache, host);
    case _ =>
  }

  lemma HandledEntry(m: State, id: nat, slot: Slot<Store>)
    requires id < |m.scans| && m.scans[id].phase.Seen? && slot in Handle(m, id).hostCache
    ensures slot in m.hostCache || Caches(m, ScanThen(id), slot)
  {
    var scan := m.scans[id];
    if scan.phase.row.Some? {
      var added := Slot(scan.host, scan.phase.row.value, m.now + CACHE_TTL_MS);
      WrittenAdds(m.hostCache, scan.host, scan.phase.row.value, m.now);
      assert slot in m.hostCache + [added];
    }
  }

  /** Every host entry after a step was there before or is the one the step caches. */
  lemma EntriesOfStep(m: State, e: Event, slot: Slot<Store>)
    requires slot in Step(m, e).hostCache
    ensures slot in m.hostCache || Caches(m, e, slot)
  {
    if !e.ScanThen? {
      UncachedHosts(m, e);
      var i :| 0 <= i < |Step(m, e).hostCache| && Step(m, e).hostCache[i] == slot;
    } else if e.scan < |m.scans| && m.scans[e.scan].phase.Seen? {
      HandledEntry(m, e.scan, slot);
    }
  }

  lemma CachedLater(s: State, events: seq<Event>, e: Event, slot: Slot<Store>)
    requires CachedBy(s, events, slot) || Caches(Run(s, events), e, slot)
    ensures CachedBy(s, events + [e], slot)
  {
    var all := events + [e];
    if CachedBy(s, events, slot) {
      var i :| 0 <= i < |events| && Caches(Run(s, events[..i]), events[i], slot);
      assert all[..i] == events[..i] && all[i] == events[i];
    } else {
      assert all[..|events|] == events && all[|events|] == e;
    }
  }

  lemma {:induction false} EntriesWereCached(s: State, events: seq<Event>, slot: Slot<Store>)
    requires s.hostCache == [] && slot in Run(s, events).hostCache
    ensures CachedBy(s, events, slot)
    decreases |events|
  {
    if events != [] {
      var n := |events| - 1;
      var m := Run(s, events[..n]);
      assert events == events[..n] + [events[n]];
      RunLast(s, events[..n], events[n]);
      EntriesOfStep(m, events[n], slot);
      if slot in m.hostCache { EntriesWereCached(s, events[..n], slot); }
      CachedLater(s, events[..n], events[n], slot);
    }
  }

  /**
   * A scan of the host handled at step `i`, less than a minute of the clock ago, had read this store from some
   * registry.
   */
  predicate RecentScan(s: State, events: seq<Event>, i: nat, host: string, store: Store) {
    && i < |events|
    && var m := Run(s, events[..i]);
       && events[i].ScanThen? && events[i].scan < |m.scans|
       && m.scans[events[i].scan].host == host && m.scans[events[i].scan].phase == Seen(Some(store))
       && Run(s, events).now < m.now + CACHE_TTL_MS
       && WasAnswer(m.history, 0, m.prefixes, host, Some(store))
  }

  /** An answer under way is the right one for some registry there has been. */
  lemma SeenWasAnswer(s: State, events: seq<Event>, id: nat)
    requires Rooted(s, 0) && forall said: Said, told: Said :: Known(s, said, told)
    requires id < |Run(s, events).scans| && Run(s, events).scans[id].phase.Seen?
    ensures
      var m := Run(s, events);
      WasAnswer(m.history, 0, m.prefixes, m.scans[id].host, m.scans[id].phase.row)
  {
    var m := Run(s, events);
    RunPrefixes(s, events);
    RunKnownByHistory(s, 0, events);
    assert ScansKnown(AnswersOf(m.history, 0, s.prefixes), m.scans);
  }

  /**
   * Drift ends within a minute: every store told from the cache was read from some registry by a scan that was handled
   * less than 60000 ms ago.
   */
  lemma FoundIsRecent(prefixes: seq<string>, now: int, registry: seq<Store>, events: seq<Event>, host: string)
    requires HostAnswer(Run(Initial(prefixes, now, registry), events), host).Found?
    ensures
      var s := Initial(prefixes, now, registry);
      exists i: nat :: RecentScan(s, events, i, host, HostAnswer(Run(s, events), host).store)
  {
    FoundRecently(Initial(prefixes, now, registry), events, host);
  }

  lemma FoundRecently(s: State, events: seq<Event>, host: string)
    requires s.hostCache == [] && Rooted(s, 0) && forall said: Said, told: Said :: Known(s, said, told)
    requires HostAnswer(Run(s, events), host).Found?
    ensures exists i: nat :: RecentScan(s, events, i, host, HostAnswer(Run(s, events), host).store)
  {
    var slot := FoundSlot(Run(s, events), host);
    EntriesWereCached(s, events, slot);
    var i :| 0 <= i < |events| && Caches(Run(s, events[..i]), events[i], slot);
    assert WasAnswer(Run(s, events[..i]).history, 0, Run(s, events[..i]).prefixes, host, Some(slot.value)) by {
      SeenWasAnswer(s, events[..i], events[i].scan);
    }
    assert RecentScan(s, events, i, host, slot.value);
  }

  /** The entry behind a store told from the cache. */
  lemma FoundSlot(m: State, host: string) returns (slot: Slot<Store>)
    requires HostAnswer(m, host).Found?
    ensures slot in m.hostCache && slot.key == host && slot.value == HostAnswer(m, host).store && slot.expiresAt > m.now
  {
    slot := m.hostCache[IndexOf(m.hostCache, host)];
  }

  // ---------------------------------------------------------------- an unchanged registry

  lemma {:induction false} RunWithoutChange(s: State, events: seq<Event>)
    requires forall i :: 0 <= i < |events| ==> !events[i].ChangeRegistry?
    ensures Run(s, events).history == s.history && Run(s, events).registry == s.registry
    decreases |events|
  {
    if events != [] { RunWithoutChange(Step(s, events[0]), events[1..]); }
  }

  /** While the registry does not change, the caches say exactly what the simple scan says. */
  lemma CachesAgreeWithScan(prefixes: seq<string>, now: int, registry: seq<Store>, events: seq<Event>, host: string)
    requires Resolvable(host) && forall i :: 0 <= i < |events| ==> !events[i].ChangeRegistry?
    ensures
      match HostAnswer(Run(Initial(prefixes, now, registry), events), host)
      case Found(store) => PickFor(registry, prefixes, host) == Some(store)
      case NotFound => PickFor(registry, prefixes, host) == None
      case Waits(_) => true
  {
    AnswersHaveBeenTrue(prefixes, now, registry, events, host);
    RunWithoutChange(Initial(prefixes, now, registry), events);
    RunPrefixes(Initial(prefixes, now, registry), events);
  }
}
