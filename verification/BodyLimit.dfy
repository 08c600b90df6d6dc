/**
 * The demand-driven body cap put in front of a route: a counted stream between the client's input and the handler.
 *
 * The input is a list of chunks. A read delivers the next chunk, reports the end only after the last one (or once the
 * input was cancelled), or fails at any time. The handler reads, lets pending reads go, cancels its stream or
 * finishes with a status whenever it likes, a reader it left behind may go on after that, and the client may abort at
 * any time. An event that cannot happen in a state leaves it unchanged.
 */
module BodyLimit {
  import opened Wrappers

  type Byte = n: nat | n < 256
  type Chunk = seq<Byte>

  // ---------------------------------------------------------------- Content-Length

  predicate IsDigits(s: string) {
    forall i :: 0 <= i < |s| ==> '0' <= s[i] <= '9'
  }

  function Decimal(s: string): nat
    requires IsDigits(s)
  {
    if s == "" then 0 else Decimal(s[..|s| - 1]) * 10 + (s[|s| - 1] as int - '0' as int)
  }

  /** The header's text says this length in digits. */
  predicate Says(header: string, n: nat) {
    header != "" && IsDigits(header) && Decimal(header) == n
  }

  /** The declared length: absent, a safe integer written in digits, or malformed. */
  datatype Declared = Absent | Length(n: nat) | Malformed

  function ParseLength(header: Option<string>): Declared {
    match header
    case None => Absent
    case Some(s) =>
      if s == "" || !IsDigits(s) then Malformed
      else if Decimal(s) > MAX_SAFE_INTEGER then Malformed
      else Length(Decimal(s))
  }

  // ---------------------------------------------------------------- the stream

  /** The handler's side of the counted stream. */
  datatype Stream = Open | Closed | Errored | Cancelled

  datatype Phase = Handling | Finished

  datatype Failure = BadRequest | TooLarge

  /** What the client gets: the handler's own status, or the limit's answer. */
  datatype Response = Own(status: nat) | Limit(failure: Failure)

  datatype State = State(
    bytes: nat, stopped: bool, complete: bool, failure: Option<Failure>,
    stream: Stream, queued: seq<Chunk>, demand: nat, pulling: bool,
    position: nat, readCalls: nat, inputCancelled: bool,
    taken: seq<Byte>, phase: Phase, response: Option<Response>)

  /** The cap, the Content-Length header and the body. */
  datatype Config = Config(maxBytes: nat, header: Option<string>, input: Option<seq<Chunk>>) {
    function Declares(): Declared {
      ParseLength(header)
    }
  }

  function Whole(chunks: seq<Chunk>): seq<Byte> {
    if chunks == [] then [] else chunks[0] + Whole(chunks[1..])
  }

  /** Cancellation stops the reads and cancels the input, once. */
  function Cancel(s: State): State {
    if s.stopped || s.complete then s else s.(stopped := true, inputCancelled := true)
  }

  /** Erroring a stream that is no longer open changes nothing. */
  function ErrorStream(s: State): State {
    if s.stream == Open then s.(stream := Errored, queued := [], demand := 0) else s
  }

  function Reject(s: State, f: Failure): State {
    ErrorStream(Cancel(s.(failure := Some(f))))
  }

  // ---------------------------------------------------------------- before the handler

  datatype Admission = Refused(failure: Failure, inputCancelled: bool) | Admitted(state: State)

  const FRESH := State(0, false, false, None, Open, [], 0, false, 0, 0, false, [], Handling, None)

  function Admit(c: Config, alreadyAborted: bool): Admission {
    if c.Declares() == Malformed then Refused(BadRequest, c.input.Some?)
    else if c.Declares().Length? && c.Declares().n > c.maxBytes then Refused(TooLarge, c.input.Some?)
    else if c.input == None && c.Declares().Length? && c.Declares().n != 0 then Refused(BadRequest, false)
    else
      var s := FRESH.(complete := c.input == None, stream := if c.input == None then Closed else Open);
      if alreadyAborted then
        var r := Reject(s, BadRequest);
        Admitted(Cancel(r.(phase := Finished, response := Some(Limit(BadRequest)))))
      else Admitted(s)
  }

  // ---------------------------------------------------------------- events

  datatype Event =
    | HandlerReads
    | HandlerLetsGo
    | HandlerCancels
    | Pull
    | ReadChunk
    | ReadEnd
    | ReadFails
    | Aborts
    | HandlerFinishes(status: nat)
    | HandlerThrows

  /** A read of the handler, or of whoever it left the stream to: a queued chunk at once, else one more pending read. */
  function HandlerRead(s: State): State {
    if s.stream != Open then s
    else if s.queued != [] then s.(taken := s.taken + s.queued[0], queued := s.queued[1..])
    else s.(demand := s.demand + 1)
  }

  /** The stream asks for data only while the handler has a read pending and no earlier pull is running. */
  function PullStep(s: State): State {
    if s.stream != Open || s.pulling || s.demand == 0 || s.stopped then s
    else s.(pulling := true, readCalls := s.readCalls + 1)
  }

  /** A chunk for the handler: it answers a pending read, or waits in the stream when the handler let that read go. */
  function Enqueue(s: State, chunk: Chunk): State {
    if s.stream != Open then s
    else if s.demand > 0 then s.(taken := s.taken + chunk, demand := s.demand - 1)
    else s.(queued := s.queued + [chunk])
  }

  function ChunkArrives(c: Config, s: State, chunk: Chunk): State {
    var t := s.(pulling := false);
    if s.stopped then t
    else
      var u := t.(bytes := s.bytes + |chunk|);
      if u.bytes > c.maxBytes then Reject(u, TooLarge) else Enqueue(u, chunk)
  }

  function EndArrives(c: Config, s: State): State {
    var t := s.(pulling := false);
    if s.stopped then t
    else if c.Declares().Length? && c.Declares().n != s.bytes then Reject(t, BadRequest)
    else t.(complete := true, stream := if s.stream == Open then Closed else s.stream, demand := 0)
  }

  function ReadError(s: State): State {
    ErrorStream(Cancel(s.(pulling := false)))
  }

  /** The handler's stream ends when it cancels it. */
  function HandlerCancel(s: State): State {
    if s.stream != Open then s else Cancel(s.(stream := Cancelled, queued := [], demand := 0))
  }

  function Finish(s: State, status: nat): State {
    var failure := if s.failure == None && !s.complete && 200 <= status < 300 then Some(BadRequest) else s.failure;
    Cancel(s.(failure := failure, phase := Finished,
              response := Some(if failure.Some? then Limit(failure.value) else Own(status))))
  }

  function Step(c: Config, s: State, e: Event): State {
    match e
    case HandlerReads => HandlerRead(s)
    case HandlerLetsGo => s.(demand := 0)
    case HandlerCancels => HandlerCancel(s)
    case Pull => if c.input == None then s else PullStep(s)
    case ReadChunk =>
      if c.input == None || !s.pulling || s.position >= |c.input.value| then s
      else ChunkArrives(c, s.(position := s.position + 1), c.input.value[s.position])
    case ReadEnd =>
      if c.input == None || !s.pulling || (s.position < |c.input.value| && !s.stopped) then s else EndArrives(c, s)
    case ReadFails => if !s.pulling then s else ReadError(s)
    case Aborts => if s.phase == Finished then s else Reject(s, BadRequest)
    case HandlerFinishes(status) => if s.phase == Finished then s else Finish(s, status)
    case HandlerThrows => if s.phase == Finished then s else Cancel(s.(phase := Finished))
  }

  function Run(c: Config, s: State, events: seq<Event>): State
    decreases |events|
  {
    if events == [] then s else Run(c, Step(c, s, events[0]), events[1..])
  }
}
