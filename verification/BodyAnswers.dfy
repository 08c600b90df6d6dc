/**
 * Which answer the client gets: said of the events and the input, the handler's own answer stands exactly when nothing
 * failed and a success had read everything. And how little is read: nothing the handler did not ask for.
 */
module BodyAnswers {
  import opened Wrappers
  import opened BodyLimit
  import opened BodySafety

  // ---------------------------------------------------------------- what can go wrong

  /** What an event says about the upload. */
  datatype Note = Nothing | TooMuch | WrongEnd | Aborted | AllRead

  /** Read off the event, the input up to here and whether a read is under way. */
  function NoteOf(c: Config, s: State, e: Event): Note
    requires s.position <= |Input(c)|
  {
    var reading := s.pulling && !s.stopped;
    match e
    case Aborts => if s.phase == Handling then Aborted else Nothing
    case ReadChunk =>
      if reading && s.position < |Input(c)| && |Whole(Input(c)[..s.position + 1])| > c.maxBytes then TooMuch
      else Nothing
    case ReadEnd =>
      if !reading || s.position < |Input(c)| then Nothing
      else if c.header.Some? && !Says(c.header.value, |Whole(Input(c))|) then WrongEnd
      else AllRead
    case _ => Nothing
  }

  function FailureOf(note: Note): Option<Failure> {
    match note
    case TooMuch => Some(TooLarge)
    case WrongEnd => Some(BadRequest)
    case Aborted => Some(BadRequest)
    case _ => None
  }

  /** The note of event `i` of a run. */
  function NoteAt(c: Config, s: State, events: seq<Event>, i: nat): Note
    requires i < |events|
  {
    var m := Run(c, s, events[..i]);
    if m.position <= |Input(c)| then NoteOf(c, m, events[i]) else Nothing
  }

  predicate NothingFails(c: Config, s: State, events: seq<Event>) {
    forall i :: 0 <= i < |events| ==> FailureOf(NoteAt(c, s, events, i)) == None
  }

  predicate ReadToEnd(c: Config, s: State, events: seq<Event>) {
    c.input == None || exists i :: 0 <= i < |events| && NoteAt(c, s, events, i) == AllRead
  }

  /** The latest failure of a run. */
  function LastFailure(c: Config, s: State, events: seq<Event>): Option<Failure> {
    if events == [] then None
    else
      var n := |events| - 1;
      var last := FailureOf(NoteAt(c, s, events, n));
      if last.Some? then last else LastFailure(c, s, events[..n])
  }

  // ---------------------------------------------------------------- one step

  lemma DeclaredMeans(c: Config, n: nat)
    requires Admit(c, false).Admitted?
    ensures c.header.Some? && c.Declares().Length? ==> (Says(c.header.value, n) <==> c.Declares().n == n)
    ensures c.header.Some? <==> c.Declares().Length?
  {
  }

  /** A note is what the step does to the failure and to the completion. */
  lemma StepNotes(c: Config, s: State, e: Event)
    requires Inv(c, s) && Admit(c, false).Admitted? && s.phase == Handling && Step(c, s, e).phase == Handling
    ensures
      var t, note := Step(c, s, e), NoteOf(c, s, e);
      && t.failure == (if FailureOf(note).Some? then FailureOf(note) else s.failure)
      && t.complete == (s.complete || note == AllRead)
  {
    DeclaredMeans(c, |Whole(Input(c))|);
    match e
    case ReadChunk => if c.input.Some? && s.position < |Input(c)| { SoFarGrows(c, s); }
    case ReadEnd => assert s.position == |Input(c)| ==> Input(c)[..s.position] == Input(c);
    case _ =>
  }

  lemma FinishedStays(c: Config, s: State, e: Event)
    requires s.phase == Finished
    ensures Step(c, s, e).phase == Finished && Step(c, s, e).response == s.response
  {
  }

  lemma {:induction false} RunLast(c: Config, s: State, events: seq<Event>, e: Event)
    ensures Run(c, s, events + [e]) == Step(c, Run(c, s, events), e)
    decreases |events|
  {
    if events == [] {
      assert [] + [e] == [e] && [e][1..] == [];
    } else {
      assert (events + [e])[1..] == events[1..] + [e];
      RunLast(c, Step(c, s, events[0]), events[1..], e);
    }
  }

  lemma SplitLast(c: Config, s: State, events: seq<Event>)
    requires events != []
    ensures
      var n := |events| - 1;
      Run(c, s, events) == Step(c, Run(c, s, events[..n]), events[n])
  {
    var n := |events| - 1;
    assert events == events[..n] + [events[n]];
    RunLast(c, s, events[..n], events[n]);
  }

  lemma EarlierNotes(c: Config, s: State, events: seq<Event>, i: nat)
    requires i < |events| - 1
    ensures NoteAt(c, s, events[..|events| - 1], i) == NoteAt(c, s, events, i)
  {
    assert events[..|events| - 1][..i] == events[..i];
  }

  // ---------------------------------------------------------------- every run

  lemma {:induction false} RunNotes(c: Config, s: State, events: seq<Event>)
    requires Inv(c, s) && Admit(c, false).Admitted? && s.phase == Handling && s.failure == None
    requires s.complete == (c.input == None) && Run(c, s, events).phase == Handling
    ensures Run(c, s, events).failure == LastFailure(c, s, events)
    ensures Run(c, s, events).complete == ReadToEnd(c, s, events)
    decreases |events|
  {
    if events != [] {
      var n := |events| - 1;
      var m := Run(c, s, events[..n]);
      SplitLast(c, s, events);
      if m.phase == Finished { FinishedStays(c, m, events[n]); }
      RunNotes(c, s, events[..n]);
      RunKeepsInv(c, s, events[..n]);
      StepNotes(c, m, events[n]);
      LaterEnd(c, s, events);
    }
  }

  lemma LaterEnd(c: Config, s: State, events: seq<Event>)
    requires events != []
    ensures
      var n := |events| - 1;
      ReadToEnd(c, s, events) <==> ReadToEnd(c, s, events[..n]) || NoteAt(c, s, events, n) == AllRead
  {
    var n := |events| - 1;
    forall i | 0 <= i < n ensures NoteAt(c, s, events[..n], i) == NoteAt(c, s, events, i) {
      EarlierNotes(c, s, events, i);
    }
  }

  lemma {:induction false} LastFailureMeans(c: Config, s: State, events: seq<Event>)
    ensures LastFailure(c, s, events) == None <==> NothingFails(c, s, events)
    decreases |events|
  {
    if events != [] {
      var n := |events| - 1;
      LastFailureMeans(c, s, events[..n]);
      forall i | 0 <= i < n ensures NoteAt(c, s, events[..n], i) == NoteAt(c, s, events, i) {
        EarlierNotes(c, s, events, i);
      }
    }
  }

  predicate IsSuccess(status: nat) {
    200 <= status < 300
  }

  /**
   * The answer of a request whose handler finishes: the latest failure, if anything failed; else the limit's own 400
   * for a success that did not read the input to its end; else the handler's own, whatever was left unread.
   */
  lemma AnswerMeans(c: Config, events: seq<Event>, status: nat)
    requires Admit(c, false).Admitted? && Run(c, Admit(c, false).state, events).phase == Handling
    ensures
      var s := Admit(c, false).state;
      Step(c, Run(c, s, events), HandlerFinishes(status)).response == Some(
        match LastFailure(c, s, events)
        case Some(f) => Limit(f)
        case None => if IsSuccess(status) && !ReadToEnd(c, s, events) then Limit(BadRequest) else Own(status))
  {
    AdmittedInv(c, false);
    RunNotes(c, Admit(c, false).state, events);
  }

  /**
   * The handler's own answer stands exactly when no chunk went over the cap, the input did not end at a wrong length,
   * the client did not abort, and a success had read the input to its end.
   */
  lemma OwnAnswerStands(c: Config, events: seq<Event>, status: nat)
    requires Admit(c, false).Admitted? && Run(c, Admit(c, false).state, events).phase == Handling
    ensures
      var s := Admit(c, false).state;
      Step(c, Run(c, s, events), HandlerFinishes(status)).response == Some(Own(status)) <==>
        NothingFails(c, s, events) && (!IsSuccess(status) || ReadToEnd(c, s, events))
  {
    AnswerMeans(c, events, status);
    LastFailureMeans(c, Admit(c, false).state, events);
  }

  /** The first answer is the last. */
  lemma {:induction false} AnswerIsFinal(c: Config, s: State, events: seq<Event>)
    requires s.phase == Finished
    ensures Run(c, s, events).phase == Finished && Run(c, s, events).response == s.response
    decreases |events|
  {
    if events != [] {
      FinishedStays(c, s, events[0]);
      AnswerIsFinal(c, Step(c, s, events[0]), events[1..]);
    }
  }

  // ---------------------------------------------------------------- before the handler

  /** The header's text is a number that JavaScript holds exactly. */
  predicate SaysSafely(header: string, n: nat) {
    Says(header, n) && n <= MAX_SAFE_INTEGER
  }

  /**
   * A request gets as far as its handler exactly when a Content-Length is a safe number within the cap and is zero
   * without a body; one over the cap is answered 413 and any other refusal 400; and no refused body is read.
   */
  lemma AdmissionMeans(c: Config)
    ensures
      Admit(c, false).Admitted? <==>
        (c.header == None || exists n: nat ::
          SaysSafely(c.header.value, n) && n <= c.maxBytes && (c.input == None ==> n == 0))
    ensures
      Admit(c, false) == Refused(TooLarge, c.input.Some?) <==>
        c.header.Some? && exists n: nat :: SaysSafely(c.header.value, n) && n > c.maxBytes
    ensures
      Admit(c, false).Refused? ==> Admit(c, false).inputCancelled == c.input.Some?
  {
    if c.header.Some? && c.header.value != "" && IsDigits(c.header.value) {
      var n := Decimal(c.header.value);
      assert SaysSafely(c.header.value, n) <==> n <= MAX_SAFE_INTEGER;
    }
  }

  /** A client gone before the handler ran is answered 400, and its body is given up unread whatever happens next. */
  lemma AbortedAtOnce(c: Config, events: seq<Event>)
    requires Admit(c, true).Admitted?
    ensures
      var s := Run(c, Admit(c, true).state, events);
      && s.phase == Finished && s.response == Some(Limit(BadRequest)) && s.readCalls == 0 && s.taken == []
      && (c.input.Some? ==> s.inputCancelled)
  {
    var s := Admit(c, true).state;
    AdmittedInv(c, true);
    AnswerIsFinal(c, s, events);
    NothingTaken(c, s, events);
  }

  lemma {:induction false} NothingTaken(c: Config, s: State, events: seq<Event>)
    requires s.stream != Open && s.readCalls == 0 && s.taken == [] && (c.input.Some? ==> s.inputCancelled)
    ensures
      var t := Run(c, s, events);
      t.readCalls == 0 && t.taken == [] && (c.input.Some? ==> t.inputCancelled)
    decreases |events|
  {
    if events != [] { NothingTaken(c, Step(c, s, events[0]), events[1..]); }
  }

  // ---------------------------------------------------------------- reading on demand

  function Asked(events: seq<Event>): nat {
    if events == [] then 0 else (if events[0] == HandlerReads then 1 else 0) + Asked(events[1..])
  }

  /** The reads made, and those the stream may still make without being asked again. */
  function Owed(s: State): nat {
    s.readCalls + (if s.stopped then 0 else if s.pulling && s.demand > 0 then s.demand - 1 else s.demand)
  }

  lemma OwedStep(c: Config, s: State, e: Event)
    requires Inv(c, s)
    ensures Owed(Step(c, s, e)) <= Owed(s) + (if e == HandlerReads then 1 else 0)
  {
  }

  lemma {:induction false} OwedRun(c: Config, s: State, events: seq<Event>)
    requires Inv(c, s)
    ensures Owed(Run(c, s, events)) <= Owed(s) + Asked(events)
    decreases |events|
  {
    if events != [] {
      OwedStep(c, s, events[0]);
      StepKeepsInv(c, s, events[0]);
      OwedRun(c, Step(c, s, events[0]), events[1..]);
    }
  }

  /** No byte is read before the handler asks: there are never more reads of the input than reads of the handler. */
  lemma NothingReadUnasked(c: Config, aborted: bool, events: seq<Event>)
    requires Admit(c, aborted).Admitted?
    ensures Run(c, Admit(c, aborted).state, events).readCalls <= Asked(events)
  {
    AdmittedInv(c, aborted);
    OwedRun(c, Admit(c, aborted).state, events);
  }
}
