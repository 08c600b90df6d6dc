/**
 * Finding the store of a request: positive caches by slug and by host, a cache of misses, and scans of a registry that
 * changes under them.
 *
 * A scan sees the registry at one moment and its answer is handled later; between any two steps the clock may move, the
 * registry may change and invalidations may arrive. An event that cannot happen in a state leaves it unchanged.
 */
module HostCache {
  import opened Wrappers
  import opened HostSelect
  import opened OrderedCache

  const CACHE_TTL_MS: nat := 60000
  const MAX_ENTRIES: nat := 1000
  const NEGATIVE_TTL_MS: nat := 15000
  const NEGATIVE_MAX_ENTRIES: nat := 2000

  datatype Missed = Missed

  datatype ScanPhase = Reading | Seen(row: Option<Store>) | Handled | Over

  datatype Scan = Scan(host: string, generation: nat, phase: ScanPhase)

  datatype LookupPhase = Asking | Told(row: Option<Store>) | Ended

  datatype Lookup = Lookup(slug: string, phase: LookupPhase)

  /** `history` holds every registry there has been; `unsettled` says that the last change was not yet invalidated. */
  datatype State = State(
    prefixes: seq<string>, now: int, registry: seq<Store>, history: seq<seq<Store>>, unsettled: bool,
    slugCache: Slots<Store>, hostCache: Slots<Store>, misses: Slots<Missed>,
    inflight: map<string, nat>, generation: nat, scans: seq<Scan>, lookups: seq<Lookup>)

  function Initial(prefixes: seq<string>, now: int, registry: seq<Store>): State {
    State(prefixes, now, registry, [registry], false, [], [], [], map[], 0, [], [])
  }

  datatype Event =
    | Tick(ms: int)
    | ChangeRegistry(rows: seq<Store>)
    | Invalidate(ofSlug: Option<string>, ofHost: Option<string>)
    | ResolveHost(host: string)
    | ScanReads(scan: nat)
    | ScanThen(scan: nat)
    | ScanFails(scan: nat)
    | ScanFinally(scan: nat)
    | ResolveSlug(slug: string)
    | LookupReads(lookup: nat)
    | LookupEnds(lookup: nat)

  // ---------------------------------------------------------------- the operations

  function PickFor(registry: seq<Store>, prefixes: seq<string>, host: string): Option<Store> {
    Pick(registry, host, StripHostPrefix(host, prefixes))
  }

  function WithoutSlug(m: Slots<Store>, slug: string): Slots<Store> {
    if m == [] then []
    else (if m[0].value.slug == slug then [] else [m[0]]) + WithoutSlug(m[1..], slug)
  }

  function InvalidatedHosts(m: Slots<Store>, slug: Option<string>, host: Option<string>): Slots<Store> {
    if slug == None && host == None then []
    else
      var kept := if slug.Some? then WithoutSlug(m, slug.value) else m;
      if host.Some? then Drop(kept, host.value) else kept
  }

  function InvalidatedSlugs(m: Slots<Store>, slug: Option<string>, host: Option<string>): Slots<Store> {
    if slug == None && host == None then [] else if slug.Some? then Drop(m, slug.value) else m
  }

  function Invalidated(s: State, slug: Option<string>, host: Option<string>): State {
    s.(unsettled := false, misses := [], generation := s.generation + 1,
       slugCache := InvalidatedSlugs(s.slugCache, slug, host), hostCache := InvalidatedHosts(s.hostCache, slug, host))
  }

  datatype Answer = Found(store: Store) | NotFound | Waits(scan: nat)

  predicate Resolvable(host: string) {
    0 < |host| <= MAX_HOST_LENGTH
  }

  function HostAnswer(s: State, host: string): Answer {
    if !Resolvable(host) then NotFound
    else if Live(s.hostCache, host, s.now).Some? then Found(Live(s.hostCache, host, s.now).value)
    else if Live(s.misses, host, s.now).Some? then NotFound
    else if host in s.inflight then Waits(s.inflight[host])
    else Waits(|s.scans|)
  }

  function HostResolved(s: State, host: string): State {
    if !Resolvable(host) then s
    else
      var t := s.(hostCache := AfterRead(s.hostCache, host, s.now));
      if Live(s.hostCache, host, s.now).Some? then t
      else
        var u := t.(misses := AfterRead(s.misses, host, s.now));
        if Live(s.misses, host, s.now).Some? || host in s.inflight then u
        else StartScan(u, host)
  }

  function StartScan(s: State, host: string): State {
    s.(scans := s.scans + [Scan(host, s.generation, Reading)], inflight := s.inflight[host := |s.scans|])
  }

  function Written<V>(m: Slots<V>, key: string, value: V, now: int): Slots<V> {
    Newest(Put(m, Slot(key, value, now + CACHE_TTL_MS)), MAX_ENTRIES)
  }

  function Remembered(m: Slots<Missed>, host: string, now: int): Slots<Missed> {
    Newest(Drop(m, host) + [Slot(host, Missed, now + NEGATIVE_TTL_MS)], NEGATIVE_MAX_ENTRIES)
  }

  /** A found row is cached; a miss is remembered only when nothing was invalidated since the scan began. */
  function Handle(s: State, id: nat): State
    requires id < |s.scans| && s.scans[id].phase.Seen?
  {
    var scan := s.scans[id];
    var t := s.(scans := s.scans[id := scan.(phase := Handled)]);
    match scan.phase.row
    case Some(row) => t.(hostCache := Written(s.hostCache, scan.host, row, s.now))
    case None => if scan.generation == s.generation then t.(misses := Remembered(s.misses, scan.host, s.now)) else t
  }

  predicate SlugChar(c: char) {
    'a' <= c <= 'z' || '0' <= c <= '9'
  }

  predicate ValidSlug(slug: string) {
    && 0 < |slug| <= 64 && SlugChar(slug[0]) && SlugChar(slug[|slug| - 1])
    && forall i :: 0 <= i < |slug| ==> SlugChar(slug[i]) || slug[i] in "_-"
  }

  function StoreOfSlug(registry: seq<Store>, slug: string): Option<Store> {
    if registry == [] then None
    else if registry[0].slug == slug then Some(registry[0])
    else StoreOfSlug(registry[1..], slug)
  }

  /** What a request by slug is told before it waits; a malformed slug is refused. */
  datatype Reply = Refused | Cached(store: Store) | Asks(lookup: nat)

  function SlugReply(s: State, slug: string): Reply {
    if !ValidSlug(slug) then Refused
    else if Live(s.slugCache, slug, s.now).Some? then Cached(Live(s.slugCache, slug, s.now).value)
    else Asks(|s.lookups|)
  }

  function SlugResolved(s: State, slug: string): State {
    if !ValidSlug(slug) then s
    else
      var t := s.(slugCache := AfterRead(s.slugCache, slug, s.now));
      if Live(s.slugCache, slug, s.now).Some? then t else t.(lookups := s.lookups + [Lookup(slug, Asking)])
  }

  function LookupEnded(s: State, id: nat): State
    requires id < |s.lookups| && s.lookups[id].phase.Told?
  {
    var found := s.lookups[id];
    var t := s.(lookups := s.lookups[id := found.(phase := Ended)]);
    if found.phase.row.Some? then t.(slugCache := Written(s.slugCache, found.slug, found.phase.row.value, s.now)) else t
  }

  function SetPhase(s: State, id: nat, phase: ScanPhase): State
    requires id < |s.scans|
  {
    s.(scans := s.scans[id := s.scans[id].(phase := phase)])
  }

  function Step(s: State, e: Event): State {
    match e
    case Tick(ms) => s.(now := s.now + ms)
    case ChangeRegistry(rows) => s.(registry := rows, history := s.history + [rows], unsettled := true)
    case Invalidate(slug, host) => Invalidated(s, slug, host)
    case ResolveHost(host) => HostResolved(s, host)
    case ScanReads(id) =>
      if id < |s.scans| && s.scans[id].phase.Reading?
      then SetPhase(s, id, Seen(PickFor(s.registry, s.prefixes, s.scans[id].host))) else s
    case ScanThen(id) => if id < |s.scans| && s.scans[id].phase.Seen? then Handle(s, id) else s
    case ScanFails(id) =>
      if id < |s.scans| && (s.scans[id].phase.Reading? || s.scans[id].phase.Seen?) then SetPhase(s, id, Handled) else s
    case ScanFinally(id) =>
      if id < |s.scans| && s.scans[id].phase.Handled?
      then SetPhase(s.(inflight := s.inflight - {s.scans[id].host}), id, Over) else s
    case ResolveSlug(slug) => SlugResolved(s, slug)
    case LookupReads(id) =>
      if id < |s.lookups| && s.lookups[id].phase.Asking?
      then s.(lookups := s.lookups[id := s.lookups[id].(phase := Told(StoreOfSlug(s.registry, s.lookups[id].slug)))])
      else s
    case LookupEnds(id) => if id < |s.lookups| && s.lookups[id].phase.Told? then LookupEnded(s, id) else s
  }

  function Run(s: State, events: seq<Event>): State
    decreases |events|
  {
    if events == [] then s else Run(Step(s, events[0]), events[1..])
  }

  /** What handling a scan's answer changes. */
  lemma HandleFields(s: State, id: nat)
    requires id < |s.scans| && s.scans[id].phase.Seen?
    ensures
      var scan := s.scans[id];
      Handle(s, id) == s.(
        scans := s.scans[id := scan.(phase := Handled)],
        hostCache := if scan.phase.row.Some? then Written(s.hostCache, scan.host, scan.phase.row.value, s.now)
            else s.hostCache,
        misses := if scan.phase.row == None && scan.generation == s.generation
            then Remembered(s.misses, scan.host, s.now) else s.misses)
  {
  }

  // ---------------------------------------------------------------- remembered misses are true

  predicate NoStoreFor(rows: seq<Store>, prefixes: seq<string>, host: string) {
    PickFor(rows, prefixes, host) == None
  }

  predicate TrueMisses(rows: seq<Store>, prefixes: seq<string>, misses: Slots<Missed>) {
    forall i :: 0 <= i < |misses| ==> NoStoreFor(rows, prefixes, misses[i].key)
  }

  /** No scan of this generation is about to remember a wrong miss. */
  predicate TrueScans(rows: seq<Store>, prefixes: seq<string>, generation: nat, scans: seq<Scan>) {
    forall k :: 0 <= k < |scans| && scans[k].generation == generation && scans[k].phase == Seen(None) ==>
      NoStoreFor(rows, prefixes, scans[k].host)
  }

  predicate Begun(generation: nat, scans: seq<Scan>) {
    forall k :: 0 <= k < |scans| ==> scans[k].generation <= generation
  }

  predicate MissesTrue(s: State) {
    && Begun(s.generation, s.scans)
    && (!s.unsettled ==>
      && TrueMisses(s.registry, s.prefixes, s.misses)
      && TrueScans(s.registry, s.prefixes, s.generation, s.scans))
  }

  lemma WithinIsTrue(rows: seq<Store>, prefixes: seq<string>, m: Slots<Missed>, n: Slots<Missed>)
    requires TrueMisses(rows, prefixes, n) && Within(m, n)
    ensures TrueMisses(rows, prefixes, m)
  {
    forall i | 0 <= i < |m| ensures NoStoreFor(rows, prefixes, m[i].key) { assert m[i] in n; }
  }

  lemma RememberedIsTrue(rows: seq<Store>, prefixes: seq<string>, m: Slots<Missed>, host: string, now: int)
    requires TrueMisses(rows, prefixes, m) && NoStoreFor(rows, prefixes, host)
    ensures TrueMisses(rows, prefixes, Remembered(m, host, now))
  {
    var next := Drop(m, host) + [Slot(host, Missed, now + NEGATIVE_TTL_MS)];
    DropMeans(m, host);
    WithinIsTrue(rows, prefixes, Drop(m, host), m);
    NewestMeans(next, NEGATIVE_MAX_ENTRIES);
    WithinIsTrue(rows, prefixes, Newest(next, NEGATIVE_MAX_ENTRIES), next);
  }

  lemma ReadIsTrue(rows: seq<Store>, prefixes: seq<string>, m: Slots<Missed>, host: string, now: int)
    requires TrueMisses(rows, prefixes, m)
    ensures TrueMisses(rows, prefixes, AfterRead(m, host, now))
  {
    DropMeans(m, host);
    WithinIsTrue(rows, prefixes, Drop(m, host), m);
  }

  lemma PhaseIsTrue(
      rows: seq<Store>, prefixes: seq<string>, generation: nat, scans: seq<Scan>, id: nat, phase: ScanPhase)
    requires id < |scans| && Begun(generation, scans)
    ensures Begun(generation, scans[id := scans[id].(phase := phase)])
    ensures
      TrueScans(rows, prefixes, generation, scans)
          && (phase == Seen(None) ==> NoStoreFor(rows, prefixes, scans[id].host)) ==>
        TrueScans(rows, prefixes, generation, scans[id := scans[id].(phase := phase)])
  {
  }

  lemma StartIsTrue(rows: seq<Store>, prefixes: seq<string>, generation: nat, scans: seq<Scan>, host: string)
    requires Begun(generation, scans)
    ensures Begun(generation, scans + [Scan(host, generation, Reading)])
    ensures
      TrueScans(rows, prefixes, generation, scans) ==>
        TrueScans(rows, prefixes, generation, scans + [Scan(host, generation, Reading)])
  {
  }

  /** All a request may change before it waits. */
  lemma ResolveFrame(s: State, host: string)
    ensures
      var t := HostResolved(s, host);
      && t == s.(hostCache := t.hostCache, misses := t.misses, scans := t.scans, inflight := t.inflight)
      && (t.misses == s.misses || t.misses == AfterRead(s.misses, host, s.now))
      && (t.scans == s.scans || t.scans == s.scans + [Scan(host, s.generation, Reading)])
  {
  }

  lemma ResolveKeepsMissesTrue(s: State, host: string)
    requires MissesTrue(s)
    ensures MissesTrue(HostResolved(s, host))
  {
    ResolveFrame(s, host);
    StartIsTrue(s.registry, s.prefixes, s.generation, s.scans, host);
    if !s.unsettled { ReadIsTrue(s.registry, s.prefixes, s.misses, host, s.now); }
  }

  lemma ScanKeepsMissesTrue(s: State, id: nat, phase: ScanPhase)
    requires MissesTrue(s) && id < |s.scans|
    requires phase == Seen(None) ==> NoStoreFor(s.registry, s.prefixes, s.scans[id].host)
    ensures MissesTrue(SetPhase(s, id, phase))
  {
    PhaseIsTrue(s.registry, s.prefixes, s.generation, s.scans, id, phase);
  }

  lemma HandleKeepsMissesTrue(s: State, id: nat)
    requires MissesTrue(s) && id < |s.scans| && s.scans[id].phase.Seen?
    ensures MissesTrue(Handle(s, id))
  {
    var scan := s.scans[id];
    ScanKeepsMissesTrue(s, id, Handled);
    if !s.unsettled && scan.phase.row == None && scan.generation == s.generation {
      RememberedIsTrue(s.registry, s.prefixes, s.misses, scan.host, s.now);
    }
  }

  /** No scan belongs to the new generation yet, and no miss is left. */
  lemma InvalidateKeepsMissesTrue(s: State, slug: Option<string>, host: Option<string>)
    requires MissesTrue(s)
    ensures MissesTrue(Invalidated(s, slug, host))
  {
  }

  lemma StepKeepsMissesTrue(s: State, e: Event)
    requires MissesTrue(s)
    ensures MissesTrue(Step(s, e))
  {
    match e
    case Invalidate(slug, host) => InvalidateKeepsMissesTrue(s, slug, host);
    case ResolveHost(host) => ResolveKeepsMissesTrue(s, host);
    case ScanThen(id) => if id < |s.scans| && s.scans[id].phase.Seen? { HandleKeepsMissesTrue(s, id); }
    case ScanReads(id) =>
      if id < |s.scans| { ScanKeepsMissesTrue(s, id, Seen(PickFor(s.registry, s.prefixes, s.scans[id].host))); }
    case ScanFails(id) => if id < |s.scans| { ScanKeepsMissesTrue(s, id, Handled); }
    case ScanFinally(id) => if id < |s.scans| { ScanKeepsMissesTrue(s, id, Over); }
    case _ =>
  }

  lemma {:induction false} RunKeepsMissesTrue(s: State, events: seq<Event>)
    requires MissesTrue(s)
    ensures MissesTrue(Run(s, events))
    decreases |events|
  {
    if events != [] {
      StepKeepsMissesTrue(s, events[0]);
      RunKeepsMissesTrue(Step(s, events[0]), events[1..]);
    }
  }

  /** Prefixes are set once, and the last of the history is the registry. */
  lemma {:induction false} RunPrefixes(s: State, events: seq<Event>)
    ensures Run(s, events).prefixes == s.prefixes
    decreases |events|
  {
    if events != [] { RunPrefixes(Step(s, events[0]), events[1..]); }
  }

  /** No store of the registry matches the host, as it is or stripped. */
  predicate NobodyMatches(s: State, host: string) {
    forall row :: row in s.registry ==> Total(row, host, StripHostPrefix(host, s.prefixes)) == 0
  }

  lemma NoStoreMeansNobody(s: State, host: string)
    ensures NoStoreFor(s.registry, s.prefixes, host) <==> NobodyMatches(s, host)
  {
    PickWins(s.registry, host, StripHostPrefix(host, s.prefixes));
  }

  /**
   * Once every registry change has been followed by an invalidation, each remembered miss is for a host no store of the
   * registry matches, and a request told at once that its host has no store is told the truth.
   */
  lemma NegativeTruth(prefixes: seq<string>, now: int, registry: seq<Store>, events: seq<Event>, host: string)
    ensures
      var s := Run(Initial(prefixes, now, registry), events);
      !s.unsettled && (Has(s.misses, host) || (Resolvable(host) && HostAnswer(s, host) == NotFound)) ==>
        NobodyMatches(s, host)
  {
    RunKeepsMissesTrue(Initial(prefixes, now, registry), events);
    var s := Run(Initial(prefixes, now, registry), events);
    NoStoreMeansNobody(s, host);
    var i := IndexOf(s.misses, host);
    if i < |s.misses| { assert s.misses[i].key == host; }
  }

  /**
   * The same for a request that waits: a scan begun since the last invalidation that has seen no store tells the truth
   * once the registry is settled.
   */
  lemma WaitingTruth(prefixes: seq<string>, now: int, registry: seq<Store>, events: seq<Event>, k: nat)
    ensures
      var s := Run(Initial(prefixes, now, registry), events);
      !s.unsettled && k < |s.scans| && s.scans[k].phase == Seen(None) && s.scans[k].generation == s.generation ==>
        NobodyMatches(s, s.scans[k].host)
  {
    RunKeepsMissesTrue(Initial(prefixes, now, registry), events);
    var s := Run(Initial(prefixes, now, registry), events);
    if k < |s.scans| { NoStoreMeansNobody(s, s.scans[k].host); }
  }

  /** A store for the host is added while a scan that has not seen it is under way, and the change is invalidated. */
  function MissedChange(host: string, rows: seq<Store>): seq<Event> {
    [ResolveHost(host), ScanReads(0), ChangeRegistry(rows), Invalidate(None, None)]
  }

  lemma RunFirst(s: State, events: seq<Event>)
    requires events != []
    ensures Run(s, events) == Run(Step(s, events[0]), events[1..])
  {
  }

  lemma AfterMissedChange(s: State, host: string, rows: seq<Store>)
    ensures
      var m := Step(Step(s, ResolveHost(host)), ScanReads(0));
      Run(s, MissedChange(host, rows)) == Step(Step(m, ChangeRegistry(rows)), Invalidate(None, None))
  {
    var events := MissedChange(host, rows);
    var s1 := Step(s, ResolveHost(host));
    var s2 := Step(s1, ScanReads(0));
    var s3 := Step(s2, ChangeRegistry(rows));
    var s4 := Step(s3, Invalidate(None, None));
    RunFirst(s, events);
    RunFirst(s1, events[1..]);
    RunFirst(s2, events[1..][1..]);
    RunFirst(s3, events[1..][1..][1..]);
    assert Run(s4, events[1..][1..][1..][1..]) == s4;
  }

  function MissedState(prefixes: seq<string>, now: int, host: string, rows: seq<Store>): State {
    State(prefixes, now, rows, [[], rows], false, [], [], [], map[host := 0], 1, [Scan(host, 0, Seen(None))], [])
  }

  /** The first request scans the empty registry, and its scan is under way still. */
  lemma MissedChangeMeans(prefixes: seq<string>, now: int, host: string, rows: seq<Store>)
    requires Resolvable(host)
    ensures Run(Initial(prefixes, now, []), MissedChange(host, rows)) == MissedState(prefixes, now, host, rows)
  {
    var s := Initial(prefixes, now, []);
    assert Step(s, ResolveHost(host)) == s.(scans := [Scan(host, 0, Reading)], inflight := map[host := 0]);
    assert PickFor([], prefixes, host) == None;
    AfterMissedChange(s, host, rows);
  }

  /**
   * The registry is settled and has a store for the host, but a request shares a scan of an earlier generation that has
   * seen none. That answer is not remembered.
   */
  predicate ToldThePast(s: State, host: string) {
    && !s.unsettled && !NobodyMatches(s, host) && HostAnswer(s, host) == Waits(0)
    && |s.scans| == 1 && s.scans[0] == Scan(host, 0, Seen(None)) && s.generation == 1
    && Step(s, ScanThen(0)).misses == []
  }

  lemma MissedStateTellsThePast(prefixes: seq<string>, now: int, host: string, rows: seq<Store>)
    requires Resolvable(host) && PickFor(rows, prefixes, host).Some?
    ensures ToldThePast(MissedState(prefixes, now, host, rows), host)
  {
    NoStoreMeansNobody(MissedState(prefixes, now, host, rows), host);
  }

  /** An older scan does not, whichever store is added. */
  lemma SharedScanTellsThePast(prefixes: seq<string>, now: int, host: string, rows: seq<Store>)
    requires Resolvable(host) && PickFor(rows, prefixes, host).Some?
    ensures ToldThePast(Run(Initial(prefixes, now, []), MissedChange(host, rows)), host)
  {
    MissedChangeMeans(prefixes, now, host, rows);
    MissedStateTellsThePast(prefixes, now, host, rows);
  }

  // ---------------------------------------------------------------- one scan per host

  predicate Running(scan: Scan) {
    !scan.phase.Over?
  }

  predicate Flights(scans: seq<Scan>, inflight: map<string, nat>) {
    && (forall k :: 0 <= k < |scans| && Running(scans[k]) ==> scans[k].host in inflight && inflight[scans[k].host] == k)
    && (forall h :: h in inflight ==>
        inflight[h] < |scans| && scans[inflight[h]].host == h && Running(scans[inflight[h]]))
  }

  predicate SingleFlight(s: State) {
    Flights(s.scans, s.inflight)
  }

  lemma FlightsPhase(scans: seq<Scan>, inflight: map<string, nat>, id: nat, phase: ScanPhase)
    requires Flights(scans, inflight) && id < |scans| && Running(scans[id]) && phase != Over
    ensures Flights(scans[id := scans[id].(phase := phase)], inflight)
  {
  }

  lemma FlightLands(scans: seq<Scan>, inflight: map<string, nat>, id: nat)
    requires Flights(scans, inflight) && id < |scans| && Running(scans[id])
    ensures Flights(scans[id := scans[id].(phase := Over)], inflight - {scans[id].host})
  {
  }

  lemma FlightStarts(scans: seq<Scan>, inflight: map<string, nat>, scan: Scan)
    requires Flights(scans, inflight) && scan.phase.Reading? && scan.host !in inflight
    ensures Flights(scans + [scan], inflight[scan.host := |scans|])
  {
  }

  lemma StepKeepsSingleFlight(s: State, e: Event)
    requires SingleFlight(s)
    ensures SingleFlight(Step(s, e))
  {
    match e
    case ResolveHost(host) =>
      if host !in s.inflight { FlightStarts(s.scans, s.inflight, Scan(host, s.generation, Reading)); }
    case ScanReads(id) =>
      if id < |s.scans| && Running(s.scans[id]) {
        FlightsPhase(s.scans, s.inflight, id, Seen(PickFor(s.registry, s.prefixes, s.scans[id].host)));
      }
    case ScanThen(id) => if id < |s.scans| && Running(s.scans[id]) { FlightsPhase(s.scans, s.inflight, id, Handled); }
    case ScanFails(id) => if id < |s.scans| && Running(s.scans[id]) { FlightsPhase(s.scans, s.inflight, id, Handled); }
    case ScanFinally(id) => if id < |s.scans| && Running(s.scans[id]) { FlightLands(s.scans, s.inflight, id); }
    case _ =>
  }

  lemma {:induction false} RunKeepsSingleFlight(s: State, events: seq<Event>)
    requires SingleFlight(s)
    ensures SingleFlight(Run(s, events))
    decreases |events|
  {
    if events != [] {
      StepKeepsSingleFlight(s, events[0]);
      RunKeepsSingleFlight(Step(s, events[0]), events[1..]);
    }
  }

  /** No two scans for one host run at the same time. */
  lemma AtMostOneScan(s: State, events: seq<Event>, j: nat, k: nat)
    requires SingleFlight(s)
    requires
      var scans := Run(s, events).scans;
      j < |scans| && k < |scans| && Running(scans[j]) && Running(scans[k]) && scans[j].host == scans[k].host
    ensures j == k
  {
    RunKeepsSingleFlight(s, events);
  }
}
