/** The store caches do their work: a scan's answer is told at once from then on, until it expires. */
module HostCaching {
  import opened Wrappers
  import opened HostSelect
  import opened OrderedCache
  import opened HostCache
  import opened HostCacheBounds

  // ---------------------------------------------------------------- an entry and those after it

  /** The entry is there, with fewer than `n` entries after it. */
  predicate Held<V(==)>(m: Slots<V>, slot: Slot<V>, n: nat) {
    exists i :: 0 <= i < |m| && m[i] == slot && |m| - i <= n
  }

  lemma NotThere<V>(m: Slots<V>, key: string, now: int)
    requires !Has(m, key)
    ensures Live(m, key, now) == None
  {
    assert IndexOf(m, key) == |m|;
  }

  lemma HeldMore<V>(m: Slots<V>, slot: Slot<V>, n: nat)
    requires Held(m, slot, n)
    ensures Held(m, slot, n + 1)
  {
    var i :| 0 <= i < |m| && m[i] == slot && |m| - i <= n;
  }

  lemma HeldHas<V>(m: Slots<V>, slot: Slot<V>, n: nat)
    requires Held(m, slot, n)
    ensures Has(m, slot.key)
  {
    var i :| 0 <= i < |m| && m[i] == slot && |m| - i <= n;
  }

  lemma HeldLive<V>(m: Slots<V>, slot: Slot<V>, n: nat, now: int)
    requires DistinctKeys(m) && Held(m, slot, n) && now < slot.expiresAt
    ensures Live(m, slot.key, now) == Some(slot.value) && AfterRead(m, slot.key, now) == m && Has(m, slot.key)
  {
    var i :| 0 <= i < |m| && m[i] == slot && |m| - i <= n;
    assert IndexOf(m, slot.key) == i;
  }

  lemma HeldDrop<V>(m: Slots<V>, slot: Slot<V>, n: nat, key: string)
    requires Held(m, slot, n) && key != slot.key
    ensures Held(Drop(m, key), slot, n)
  {
    var i :| 0 <= i < |m| && m[i] == slot && |m| - i <= n;
    var j := DropMoves(m, key, i);
  }

  /** An entry moves up when one before it is dropped. */
  lemma DropMoves<V>(m: Slots<V>, key: string, i: nat) returns (j: nat)
    requires i < |m| && m[i].key != key
    ensures j < |Drop(m, key)| && Drop(m, key)[j] == m[i] && |Drop(m, key)| - j <= |m| - i
  {
    var d := IndexOf(m, key);
    j := if d < i then i - 1 else i;
    if d < |m| { DropAt(m, key, j); }
  }

  lemma HeldRead<V>(m: Slots<V>, slot: Slot<V>, n: nat, key: string, now: int)
    requires DistinctKeys(m) && Held(m, slot, n) && now < slot.expiresAt
    ensures Held(AfterRead(m, key, now), slot, n)
  {
    HeldLive(m, slot, n, now);
    if key != slot.key { HeldDrop(m, slot, n, key); }
  }

  lemma HeldAppend<V>(m: Slots<V>, slot: Slot<V>, n: nat, next: Slot<V>)
    requires Held(m, slot, n)
    ensures Held(m + [next], slot, n + 1)
  {
    var i :| 0 <= i < |m| && m[i] == slot && |m| - i <= n;
    assert (m + [next])[i] == slot;
  }

  lemma HeldPut<V>(m: Slots<V>, slot: Slot<V>, n: nat, next: Slot<V>)
    requires Held(m, slot, n) && next.key != slot.key
    ensures Held(Put(m, next), slot, n + 1)
  {
    var i :| 0 <= i < |m| && m[i] == slot && |m| - i <= n;
    if IndexOf(m, next.key) < |m| {
      assert Put(m, next)[i] == slot;
    } else {
      HeldAppend(m, slot, n, next);
    }
  }

  lemma HeldNewest<V>(m: Slots<V>, slot: Slot<V>, n: nat, limit: nat)
    requires Held(m, slot, n) && n <= limit
    ensures Held(Newest(m, limit), slot, n)
  {
    var i :| 0 <= i < |m| && m[i] == slot && |m| - i <= n;
    if |m| > limit { assert Newest(m, limit)[i - (|m| - limit)] == slot; }
  }

  // ---------------------------------------------------------------- runs

  /** How many scans are handled. */
  function Handles(events: seq<Event>): nat {
    if events == [] then 0 else (if events[0].ScanThen? then 1 else 0) + Handles(events[1..])
  }

  predicate NothingInvalidated(events: seq<Event>) {
    forall i :: 0 <= i < |events| ==> !events[i].Invalidate?
  }

  lemma {:induction false} ClockOnlyGrows(s: State, events: seq<Event>)
    requires ClockGoesForward(events)
    ensures s.now <= Run(s, events).now
    decreases |events|
  {
    if events != [] { ClockOnlyGrows(Step(s, events[0]), events[1..]); }
  }

  predicate Searchable(scans: seq<Scan>) {
    forall k :: 0 <= k < |scans| ==> Resolvable(scans[k].host)
  }

  lemma SearchableMore(scans: seq<Scan>, scan: Scan)
    requires Searchable(scans) && Resolvable(scan.host)
    ensures Searchable(scans + [scan])
  {
  }

  lemma SearchableStill(scans: seq<Scan>, id: nat, phase: ScanPhase)
    requires Searchable(scans) && id < |scans|
    ensures Searchable(scans[id := scans[id].(phase := phase)])
  {
  }

  lemma StepSearchable(s: State, e: Event)
    requires Searchable(s.scans)
    ensures Searchable(Step(s, e).scans)
  {
    match e
    case ResolveHost(host) => if Resolvable(host) { SearchableMore(s.scans, Scan(host, s.generation, Reading)); }
    case ScanReads(id) =>
      if id < |s.scans| { SearchableStill(s.scans, id, Seen(PickFor(s.registry, s.prefixes, s.scans[id].host))); }
    case ScanThen(id) =>
      if id < |s.scans| && s.scans[id].phase.Seen? {
        HandleFields(s, id);
        SearchableStill(s.scans, id, Handled);
      }
    case ScanFails(id) => if id < |s.scans| { SearchableStill(s.scans, id, Handled); }
    case ScanFinally(id) => if id < |s.scans| { SearchableStill(s.scans, id, Over); }
    case _ =>
  }

  lemma {:induction false} RunSearchable(s: State, events: seq<Event>)
    requires Searchable(s.scans)
    ensures Searchable(Run(s, events).scans)
    decreases |events|
  {
    if events != [] {
      StepSearchable(s, events[0]);
      RunSearchable(Step(s, events[0]), events[1..]);
    }
  }

  function One(e: Event): nat {
    if e.ScanThen? then 1 else 0
  }

  // ---------------------------------------------------------------- found stores

  lemma WrittenKeepsHeld(m: Slots<Store>, slot: Slot<Store>, n: nat, key: string, row: Store, now: int)
    requires Held(m, slot, n) && n < MAX_ENTRIES && key != slot.key
    ensures Held(Written(m, key, row, now), slot, n + 1)
  {
    var next := Slot(key, row, now + CACHE_TTL_MS);
    HeldPut(m, slot, n, next);
    HeldNewest(Put(m, next), slot, n + 1, MAX_ENTRIES);
  }

  lemma FoundKeepsHeld(s: State, id: nat, slot: Slot<Store>, n: nat)
    requires Ordered(s) && Held(s.hostCache, slot, n) && n < MAX_ENTRIES
    requires id < |s.scans| && s.scans[id].phase.Seen?
    ensures Held(Handle(s, id).hostCache, slot, n + 1)
  {
    var scan := s.scans[id];
    HandleFields(s, id);
    HeldMore(s.hostCache, slot, n);
    assert scan.host != slot.key by { assert !Has(s.hostCache, scan.host); HeldHas(s.hostCache, slot, n); }
    if scan.phase.row.Some? { WrittenKeepsHeld(s.hostCache, slot, n, scan.host, scan.phase.row.value, s.now); }
  }

  lemma HostsUntouched(s: State, e: Event)
    requires !e.Invalidate? && !e.ResolveHost? && !e.ScanThen?
    ensures Step(s, e).hostCache == s.hostCache && Step(s, e).misses == s.misses
  {
  }

  lemma ResolveReads(s: State, host: string)
    ensures
      var t := HostResolved(s, host);
      t.hostCache == s.hostCache || t.hostCache == AfterRead(s.hostCache, host, s.now)
  {
  }

  lemma StepKeepsHeld(s: State, e: Event, slot: Slot<Store>, n: nat)
    requires Ordered(s) && Held(s.hostCache, slot, n) && s.now < slot.expiresAt
    requires !e.Invalidate? && n + One(e) <= MAX_ENTRIES
    ensures Held(Step(s, e).hostCache, slot, n + One(e))
  {
    match e
    case ResolveHost(host) =>
      ResolveReads(s, host);
      HeldRead(s.hostCache, slot, n, host, s.now);
    case ScanThen(id) =>
      HeldMore(s.hostCache, slot, n);
      if id < |s.scans| && s.scans[id].phase.Seen? { FoundKeepsHeld(s, id, slot, n); }
    case _ => HostsUntouched(s, e);
  }

  lemma {:induction false} RunKeepsHeld(s: State, events: seq<Event>, slot: Slot<Store>, n: nat)
    requires Ordered(s) && ClockGoesForward(events) && NothingInvalidated(events)
    requires Held(s.hostCache, slot, n) && n + Handles(events) <= MAX_ENTRIES && Run(s, events).now < slot.expiresAt
    ensures Held(Run(s, events).hostCache, slot, n + Handles(events)) && Ordered(Run(s, events))
    decreases |events|
  {
    if events != [] {
      ClockOnlyGrows(s, events);
      StepKeepsHeld(s, events[0], slot, n);
      StepKeepsOrdered(s, events[0]);
      RunKeepsHeld(Step(s, events[0]), events[1..], slot, n + One(events[0]));
    }
  }

  lemma WrittenIsHeld(m: Slots<Store>, key: string, row: Store, now: int)
    requires !Has(m, key)
    ensures Held(Written(m, key, row, now), Slot(key, row, now + CACHE_TTL_MS), 1)
  {
    var slot := Slot(key, row, now + CACHE_TTL_MS);
    PutMeans(m, slot);
    assert Put(m, slot)[|m|] == slot;
    HeldNewest(Put(m, slot), slot, 1, MAX_ENTRIES);
  }

  /**
   * Once a scan has found a store, every request for its host is told that store at once for sixty seconds, until an
   * invalidation or a thousand more scans, while the clock does not go back.
   */
  lemma CachedUntilExpiry(
      prefixes: seq<string>, now: int, registry: seq<Store>, before: seq<Event>, id: nat, later: seq<Event>)
    requires ClockGoesForward(before) && ClockGoesForward(later)
    requires NothingInvalidated(later) && Handles(later) < 1000
    ensures
      var s := Run(Initial(prefixes, now, registry), before);
      id < |s.scans| && s.scans[id].phase.Seen? && s.scans[id].phase.row.Some? ==>
        var t := Run(Step(s, ScanThen(id)), later);
        t.now < s.now + 60000 ==> HostAnswer(t, s.scans[id].host) == Found(s.scans[id].phase.row.value)
  {
    var s := Run(Initial(prefixes, now, registry), before);
    RunKeepsOrdered(Initial(prefixes, now, registry), before);
    RunSearchable(Initial(prefixes, now, registry), before);
    if id < |s.scans| && s.scans[id].phase.Seen? && s.scans[id].phase.row.Some? {
      HandledOrdered(s, id);
      FoundIsTold(s, id, later);
    }
  }

  lemma HandledOrdered(s: State, id: nat)
    requires Ordered(s) && id < |s.scans| && s.scans[id].phase.Seen?
    ensures Step(s, ScanThen(id)) == Handle(s, id) && Ordered(Handle(s, id))
  {
    StepKeepsOrdered(s, ScanThen(id));
  }

  lemma FoundIsTold(s: State, id: nat, later: seq<Event>)
    requires Ordered(s) && Searchable(s.scans) && ClockGoesForward(later)
    requires NothingInvalidated(later) && Handles(later) < MAX_ENTRIES
    requires id < |s.scans| && s.scans[id].phase.Seen? && s.scans[id].phase.row.Some?
    ensures
      var t := Run(Handle(s, id), later);
      t.now < s.now + CACHE_TTL_MS ==> HostAnswer(t, s.scans[id].host) == Found(s.scans[id].phase.row.value)
  {
    HandleFields(s, id);
    WrittenIsHeld(s.hostCache, s.scans[id].host, s.scans[id].phase.row.value, s.now);
    HandledOrdered(s, id);
    HeldIsTold(Handle(s, id), Slot(s.scans[id].host, s.scans[id].phase.row.value, s.now + CACHE_TTL_MS), later);
  }

  lemma HeldIsTold(m: State, slot: Slot<Store>, later: seq<Event>)
    requires Ordered(m) && Held(m.hostCache, slot, 1) && Resolvable(slot.key) && ClockGoesForward(later)
    requires NothingInvalidated(later) && Handles(later) < MAX_ENTRIES
    ensures Run(m, later).now < slot.expiresAt ==> HostAnswer(Run(m, later), slot.key) == Found(slot.value)
  {
    if Run(m, later).now < slot.expiresAt {
      RunKeepsHeld(m, later, slot, 1);
      HeldLive(Run(m, later).hostCache, slot, 1 + Handles(later), Run(m, later).now);
    }
  }

  // ---------------------------------------------------------------- remembered misses

  /** The host has a live miss, no entry, and no scan that could give it one. */
  predicate MissHeld(s: State, slot: Slot<Missed>, n: nat) {
    && Held(s.misses, slot, n) && !Has(s.hostCache, slot.key)
    && forall k :: 0 <= k < |s.scans| && s.scans[k].host == slot.key ==>
         !s.scans[k].phase.Reading? && !s.scans[k].phase.Seen?
  }

  lemma ResolveKeepsMiss(s: State, host: string, slot: Slot<Missed>, n: nat)
    requires Sized(s) && MissHeld(s, slot, n) && s.now < slot.expiresAt
    ensures MissHeld(HostResolved(s, host), slot, n)
  {
    HeldLive(s.misses, slot, n, s.now);
    HeldRead(s.misses, slot, n, host, s.now);
    ReadThins(s.hostCache, host, s.now);
    ThinsHas(AfterRead(s.hostCache, host, s.now), s.hostCache, slot.key);
    ResolveFrame(s, host);
  }

  lemma RememberedKeepsHeld(m: Slots<Missed>, slot: Slot<Missed>, n: nat, host: string, now: int)
    requires Held(m, slot, n) && n < NEGATIVE_MAX_ENTRIES && host != slot.key
    ensures Held(Remembered(m, host, now), slot, n + 1)
  {
    var next := Slot(host, Missed, now + NEGATIVE_TTL_MS);
    HeldDrop(m, slot, n, host);
    HeldAppend(Drop(m, host), slot, n, next);
    HeldNewest(Drop(m, host) + [next], slot, n + 1, NEGATIVE_MAX_ENTRIES);
  }

  lemma HandleKeepsMiss(s: State, id: nat, slot: Slot<Missed>, n: nat)
    requires MissHeld(s, slot, n) && n < NEGATIVE_MAX_ENTRIES && id < |s.scans| && s.scans[id].phase.Seen?
    ensures MissHeld(Handle(s, id), slot, n + 1)
  {
    var scan := s.scans[id];
    HandleFields(s, id);
    HeldMore(s.misses, slot, n);
    RememberedKeepsHeld(s.misses, slot, n, scan.host, s.now);
    if scan.phase.row.Some? { WrittenHas(s.hostCache, scan.host, scan.phase.row.value, s.now, slot.key); }
  }

  lemma MissUntouched(s: State, e: Event, slot: Slot<Missed>, n: nat)
    requires MissHeld(s, slot, n) && !e.Invalidate? && !e.ResolveHost? && !e.ScanThen?
    ensures MissHeld(Step(s, e), slot, n)
  {
    HostsUntouched(s, e);
  }

  lemma StepKeepsMiss(s: State, e: Event, slot: Slot<Missed>, n: nat)
    requires Sized(s) && MissHeld(s, slot, n) && s.now < slot.expiresAt
    requires !e.Invalidate? && n + One(e) <= NEGATIVE_MAX_ENTRIES
    ensures MissHeld(Step(s, e), slot, n + One(e))
  {
    match e
    case ResolveHost(host) => ResolveKeepsMiss(s, host, slot, n);
    case ScanThen(id) =>
      HeldMore(s.misses, slot, n);
      if id < |s.scans| && s.scans[id].phase.Seen? { HandleKeepsMiss(s, id, slot, n); }
    case _ => MissUntouched(s, e, slot, n);
  }

  lemma {:induction false} RunKeepsMiss(s: State, events: seq<Event>, slot: Slot<Missed>, n: nat)
    requires Sized(s) && ClockGoesForward(events) && NothingInvalidated(events)
    requires MissHeld(s, slot, n) && n + Handles(events) <= NEGATIVE_MAX_ENTRIES
    requires Run(s, events).now < slot.expiresAt
    ensures MissHeld(Run(s, events), slot, n + Handles(events)) && Sized(Run(s, events))
    decreases |events|
  {
    if events != [] {
      ClockOnlyGrows(s, events);
      StepKeepsMiss(s, events[0], slot, n);
      StepKeepsSized(s, events[0]);
      RunKeepsMiss(Step(s, events[0]), events[1..], slot, n + One(events[0]));
    }
  }

  /**
   * Once a scan of the current generation has found no store, every request for its host is told so at once for fifteen
   * seconds, until an invalidation or two thousand more scans, while the clock does not go back.
   */
  lemma MissedUntilExpiry(
      prefixes: seq<string>, now: int, registry: seq<Store>, before: seq<Event>, id: nat, later: seq<Event>)
    requires ClockGoesForward(before) && ClockGoesForward(later)
    requires NothingInvalidated(later) && Handles(later) < 2000
    ensures
      var s := Run(Initial(prefixes, now, registry), before);
      id < |s.scans| && s.scans[id].phase == Seen(None) && s.scans[id].generation == s.generation ==>
        var t := Run(Step(s, ScanThen(id)), later);
        t.now < s.now + 15000 ==> HostAnswer(t, s.scans[id].host) == NotFound
  {
    var s := Run(Initial(prefixes, now, registry), before);
    RunKeepsOrdered(Initial(prefixes, now, registry), before);
    if id < |s.scans| && s.scans[id].phase == Seen(None) && s.scans[id].generation == s.generation {
      HandledOrdered(s, id);
      MissIsTold(s, id, later);
    }
  }

  lemma MissIsHeld(s: State, id: nat)
    requires Ordered(s) && id < |s.scans| && s.scans[id].phase == Seen(None) && s.scans[id].generation == s.generation
    ensures MissHeld(Handle(s, id), Slot(s.scans[id].host, Missed, s.now + NEGATIVE_TTL_MS), 1)
  {
    var host := s.scans[id].host;
    var slot := Slot(host, Missed, s.now + NEGATIVE_TTL_MS);
    var next := Drop(s.misses, host) + [slot];
    assert next[|next| - 1] == slot && Held(next, slot, 1);
    HeldNewest(next, slot, 1, NEGATIVE_MAX_ENTRIES);
    assert Running(s.scans[id]) && s.inflight[host] == id;
  }

  lemma MissIsTold(s: State, id: nat, later: seq<Event>)
    requires Ordered(s) && ClockGoesForward(later) && NothingInvalidated(later) && Handles(later) < NEGATIVE_MAX_ENTRIES
    requires id < |s.scans| && s.scans[id].phase == Seen(None) && s.scans[id].generation == s.generation
    ensures
      var t := Run(Handle(s, id), later);
      t.now < s.now + NEGATIVE_TTL_MS ==> HostAnswer(t, s.scans[id].host) == NotFound
  {
    MissIsHeld(s, id);
    HandledOrdered(s, id);
    HeldMissIsTold(Handle(s, id), Slot(s.scans[id].host, Missed, s.now + NEGATIVE_TTL_MS), later);
  }

  lemma HeldMissIsTold(m: State, slot: Slot<Missed>, later: seq<Event>)
    requires Sized(m) && MissHeld(m, slot, 1) && ClockGoesForward(later)
    requires NothingInvalidated(later) && Handles(later) < NEGATIVE_MAX_ENTRIES
    ensures Run(m, later).now < slot.expiresAt ==> HostAnswer(Run(m, later), slot.key) == NotFound
  {
    var t := Run(m, later);
    if t.now < slot.expiresAt {
      RunKeepsMiss(m, later, slot, 1);
      HeldLive(t.misses, slot, 1 + Handles(later), t.now);
      NotThere(t.hostCache, slot.key, t.now);
    }
  }

  // ---------------------------------------------------------------- requests that wait

  /** A request that is not answered at once waits for a scan of its own host that is under way. */
  lemma WaitsForItsHost(prefixes: seq<string>, now: int, registry: seq<Store>, events: seq<Event>, host: string)
    ensures
      var s := Run(Initial(prefixes, now, registry), events);
      var t := Step(s, ResolveHost(host));
      match HostAnswer(s, host)
      case Waits(id) => id < |t.scans| && t.scans[id].host == host && Running(t.scans[id])
      case _ => t.scans == s.scans
  {
    RunKeepsSingleFlight(Initial(prefixes, now, registry), events);
  }
}
