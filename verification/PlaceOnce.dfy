/**
 * Where the data blocks go in a streamed page: early in the body for reads that come back in time, at its end for the
 * others. The rewriter runs one handler at a time and waits for it.
 */
module PlaceOnce {

  datatype Race = Undecided | ReadsWon | HoldWon

  datatype Handler = Idle | Early(race: Race) | Ending

  /** `settled`: all reads are back. `early` and `late` count the insertions at the two places. */
  datatype State = State(
    settled: bool, got: bool, placed: bool, tried: bool, handler: Handler, ended: bool, early: nat, late: nat)

  const START := State(false, false, false, false, Idle, false, 0, 0)

  datatype Event = BodyElement | ReadsSettle | HoldExpires | EarlyGoesOn | BodyEnds | EndGoesOn

  function Step(s: State, e: Event): State {
    match e
    case BodyElement =>
      if s.handler != Idle || s.ended || s.tried then s
      else s.(tried := true, handler := Early(if s.settled then ReadsWon else Undecided))
    case ReadsSettle =>
      s.(settled := true, handler := if s.handler == Early(Undecided) then Early(ReadsWon) else s.handler)
    case HoldExpires => if s.handler == Early(Undecided) then s.(handler := Early(HoldWon)) else s
    case EarlyGoesOn =>
      if s.handler == Early(ReadsWon) then s.(got := true, placed := true, early := s.early + 1, handler := Idle)
      else if s.handler == Early(HoldWon) then s.(handler := Idle)
      else s
    case BodyEnds =>
      if s.handler != Idle || s.ended then s
      else s.(ended := true, handler := if s.placed then Idle else Ending)
    case EndGoesOn =>
      if s.handler != Ending || !s.settled then s
      else s.(got := true, placed := true, late := s.late + 1, handler := Idle)
  }

  function Run(s: State, events: seq<Event>): State
    decreases |events|
  {
    if events == [] then s else Run(Step(s, events[0]), events[1..])
  }

  predicate Inv(s: State) {
    && s.early + s.late == (if s.placed then 1 else 0)
    && (s.placed ==> s.got && s.settled)
    && (s.handler != Idle ==> !s.placed)
    && (s.handler == Early(ReadsWon) ==> s.settled)
    && (s.handler == Ending ==> s.ended) && (s.handler.Early? ==> s.tried && !s.ended)
    && (s.placed ==> s.tried || s.ended)
    && (s.ended && s.handler == Idle ==> s.placed)
  }

  lemma {:induction false} RunKeepsInv(s: State, events: seq<Event>)
    requires Inv(s)
    ensures Inv(Run(s, events))
    decreases |events|
  {
    if events != [] { RunKeepsInv(Step(s, events[0]), events[1..]); }
  }

  /**
   * The blocks are placed at most once and never before all reads are back; a page whose body has ended has them
   * exactly once, as soon as the reads are in.
   */
  lemma BlocksPlacedOnce(events: seq<Event>)
    ensures
      var s := Run(START, events);
      && s.early + s.late <= 1 && (s.early + s.late == 1 ==> s.got && s.settled)
      && (s.ended && s.settled ==> Step(s, EndGoesOn).early + Step(s, EndGoesOn).late == 1)
  {
    RunKeepsInv(START, events);
  }

  predicate Races(events: seq<Event>) {
    forall i :: 0 <= i < |events| ==> events[i] == ReadsSettle || events[i] == HoldExpires
  }

  /** Once decided, the race stays decided. */
  lemma {:induction false} RaceStays(s: State, events: seq<Event>)
    requires Races(events) && (s.handler == Early(ReadsWon) || s.handler == Early(HoldWon))
    ensures
      var t := Run(s, events);
      && t.handler == s.handler && t.early == s.early && t.late == s.late
      && t.placed == s.placed && t.ended == s.ended
    decreases |events|
  {
    if events != [] { RaceStays(Step(s, events[0]), events[1..]); }
  }

  lemma RaceDecides(s: State, race: seq<Event>)
    requires Inv(s) && s.handler == Idle && !s.ended && !s.tried && Races(race) && (race == [] ==> s.settled)
    ensures
      var t := Run(Step(s, BodyElement), race);
      && t.handler == Early(if s.settled || race[0] == ReadsSettle then ReadsWon else HoldWon)
      && t.early == 0 && t.late == 0 && !t.ended && !t.placed
  {
    var b := Step(s, BodyElement);
    if s.settled {
      RaceStays(b, race);
    } else {
      RaceStays(Step(b, race[0]), race[1..]);
    }
  }

  lemma ReachableInv(events: seq<Event>)
    ensures Inv(Run(START, events))
  {
    RunKeepsInv(START, events);
  }

  /**
   * The first body element decides: the blocks go in before it when all reads are back by then, or come back before the
   * hold expires; otherwise the page goes on without them and they go in at its end.
   */
  lemma EarlyExactlyInTime(s: State, events: seq<Event>, race: seq<Event>)
    requires s == Run(START, events) && s.handler == Idle && !s.ended && !s.tried
    requires Races(race) && (race == [] ==> s.settled)
    ensures
      var t := Step(Run(Step(s, BodyElement), race), EarlyGoesOn);
      && t.handler == Idle && t.late == 0
      && t.early == (if s.settled || race[0] == ReadsSettle then 1 else 0)
      && (t.early == 0 ==> Step(t, BodyEnds).handler == Ending)
  {
    ReachableInv(events);
    EarlyFrom(s, race);
  }

  lemma EarlyFrom(s: State, race: seq<Event>)
    requires Inv(s) && s.handler == Idle && !s.ended && !s.tried && Races(race) && (race == [] ==> s.settled)
    ensures
      var t := Step(Run(Step(s, BodyElement), race), EarlyGoesOn);
      && t.handler == Idle && t.late == 0
      && t.early == (if s.settled || race[0] == ReadsSettle then 1 else 0)
      && (t.early == 0 ==> Step(t, BodyEnds).handler == Ending)
  {
    RaceDecides(s, race);
    var won := s.settled || race[0] == ReadsSettle;
    GoesOn(Run(Step(s, BodyElement), race), won);
  }

  lemma GoesOn(s: State, won: bool)
    requires s.handler == Early(if won then ReadsWon else HoldWon)
    requires s.early == 0 && s.late == 0 && !s.ended && !s.placed
    ensures
      var t := Step(s, EarlyGoesOn);
      && t.handler == Idle && t.late == 0 && t.early == (if won then 1 else 0)
      && (t.early == 0 ==> Step(t, BodyEnds).handler == Ending)
  {
  }
}
