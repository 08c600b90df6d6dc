/**
 * What every run of the body cap keeps: bytes reach the handler in order, within the cap, and a 2xx means all of them
 * did.
 */
module BodySafety {
  import opened Wrappers
  import opened BodyLimit

  function Input(c: Config): seq<Chunk> {
    if c.input.Some? then c.input.value else []
  }

  lemma {:induction false} WholeAppend(chunks: seq<Chunk>, chunk: Chunk)
    ensures Whole(chunks + [chunk]) == Whole(chunks) + chunk
  {
    if chunks != [] {
      assert (chunks + [chunk])[1..] == chunks[1..] + [chunk];
      WholeAppend(chunks[1..], chunk);
    } else {
      assert [] + [chunk] == [chunk] && Whole([chunk]) == chunk;
    }
  }

  /** The chunks read so far. */
  function SoFar(c: Config, s: State): seq<Byte>
    requires s.position <= |Input(c)|
  {
    Whole(Input(c)[..s.position])
  }

  predicate Prefix(a: seq<Byte>, b: seq<Byte>) {
    |a| <= |b| && a == b[..|a|]
  }

  /** What the handler was given and what waits for it in the stream. */
  function Handed(s: State): seq<Byte> {
    s.taken + Whole(s.queued)
  }

  /** While reading goes on, what was read is with the handler or queued for it, and is within the cap. */
  predicate Flowing(c: Config, s: State)
    requires s.position <= |Input(c)|
  {
    && Handed(s) == SoFar(c, s)
    && s.bytes == |SoFar(c, s)|
    && (s.pulling ==> s.queued == [])
    && (s.queued != [] ==> s.demand == 0)
    && (s.complete ==> s.position == |Input(c)| && s.queued == [] && !s.pulling && s.stream != Open)
  }

  predicate Inv(c: Config, s: State) {
    && s.position <= |Input(c)|
    && (c.input == None ==> s.complete && !s.pulling)
    && (!s.stopped ==> Flowing(c, s))
    && (s.stopped ==> s.inputCancelled && !s.complete && (s.phase == Finished || s.stream != Open))
    && (!s.stopped && !s.complete ==> s.stream == Open && s.phase == Handling && s.failure == None)
    && (s.complete && c.Declares().Length? ==> c.Declares().n == s.bytes)
    && (s.failure == None ==> s.bytes <= c.maxBytes)
    && |Handed(s)| <= c.maxBytes && Prefix(Handed(s), Whole(Input(c)))
    && (s.response.Some? && s.response.value.Own? ==>
          s.failure == None && (200 <= s.response.value.status < 300 ==> s.complete))
    && (s.response.Some? ==> s.phase == Finished)
  }

  lemma SoFarGrows(c: Config, s: State)
    requires c.input.Some? && s.position < |c.input.value|
    ensures SoFar(c, s.(position := s.position + 1)) == SoFar(c, s) + c.input.value[s.position]
  {
    var chunks := c.input.value;
    assert chunks[..s.position + 1] == chunks[..s.position] + [chunks[s.position]];
    WholeAppend(chunks[..s.position], chunks[s.position]);
  }

  lemma ChunkKeepsInv(c: Config, s: State)
    requires Inv(c, s) && c.input.Some? && s.pulling && s.position < |c.input.value|
    ensures Inv(c, Step(c, s, ReadChunk))
  {
    WholePrefix(c.input.value, s.position + 1);
    SoFarGrows(c, s);
    if !s.stopped {
      WholeAppend(s.queued, c.input.value[s.position]);
      var chunk := c.input.value[s.position];
      assert s.queued == [] && [] + [chunk] == [chunk];
      assert s.taken + [] == s.taken;
    }
  }

  /** What was read so far is a prefix of the whole input. */
  lemma {:induction false} WholePrefix(chunks: seq<Chunk>, n: nat)
    requires n <= |chunks|
    ensures Prefix(Whole(chunks[..n]), Whole(chunks))
  {
    if n > 0 {
      WholePrefix(chunks[1..], n - 1);
      assert chunks[..n][1..] == chunks[1..][..n - 1];
    }
  }

  /** Taking a queued chunk moves it from the stream to the handler. */
  lemma ReadMoves(s: State)
    ensures Handed(HandlerRead(s)) == Handed(s)
    ensures s.stream != Open ==> HandlerRead(s) == s
  {
    if s.queued != [] {
      assert Whole(s.queued) == s.queued[0] + Whole(s.queued[1..]);
      assert s.taken + s.queued[0] + Whole(s.queued[1..]) == s.taken + Whole(s.queued);
    }
  }

  lemma ReadKeepsInv(c: Config, s: State)
    requires Inv(c, s)
    ensures Inv(c, Step(c, s, HandlerReads))
  {
    ReadMoves(s);
  }

  /** The end of the input leaves all of it with the handler. */
  lemma EndKeepsInv(c: Config, s: State)
    requires Inv(c, s)
    ensures Inv(c, Step(c, s, ReadEnd))
  {
  }

  lemma LetGoKeepsInv(c: Config, s: State, e: Event)
    requires Inv(c, s) && (e.HandlerLetsGo? || e.Pull?)
    ensures Inv(c, Step(c, s, e))
  {
  }

  lemma CancelKeepsInv(c: Config, s: State)
    requires Inv(c, s)
    ensures Inv(c, Step(c, s, HandlerCancels))
  {
  }

  lemma ReadErrorKeepsInv(c: Config, s: State)
    requires Inv(c, s)
    ensures Inv(c, Step(c, s, ReadFails))
  {
  }

  lemma AbortKeepsInv(c: Config, s: State)
    requires Inv(c, s)
    ensures Inv(c, Step(c, s, Aborts))
  {
  }

  lemma ThrowKeepsInv(c: Config, s: State)
    requires Inv(c, s)
    ensures Inv(c, Step(c, s, HandlerThrows))
  {
  }

  lemma FinishKeepsInv(c: Config, s: State, status: nat)
    requires Inv(c, s)
    ensures Inv(c, Step(c, s, HandlerFinishes(status)))
  {
  }

  lemma StepKeepsInv(c: Config, s: State, e: Event)
    requires Inv(c, s)
    ensures Inv(c, Step(c, s, e))
  {
    match e
    case ReadChunk =>
      if c.input.Some? && s.pulling && s.position < |c.input.value| { ChunkKeepsInv(c, s); }
    case HandlerReads => ReadKeepsInv(c, s);
    case ReadEnd => EndKeepsInv(c, s);
    case HandlerFinishes(status) => FinishKeepsInv(c, s, status);
    case HandlerCancels => CancelKeepsInv(c, s);
    case ReadFails => ReadErrorKeepsInv(c, s);
    case Aborts => AbortKeepsInv(c, s);
    case HandlerThrows => ThrowKeepsInv(c, s);
    case _ => LetGoKeepsInv(c, s, e);
  }

  lemma {:induction false} RunKeepsInv(c: Config, s: State, events: seq<Event>)
    requires Inv(c, s)
    ensures Inv(c, Run(c, s, events))
    decreases |events|
  {
    if events != [] {
      StepKeepsInv(c, s, events[0]);
      RunKeepsInv(c, Step(c, s, events[0]), events[1..]);
    }
  }

  lemma AdmittedInv(c: Config, aborted: bool)
    ensures Admit(c, aborted).Admitted? ==> Inv(c, Admit(c, aborted).state)
  {
    assert Input(c)[..0] == [];
  }

  /**
   * A 2xx answer is the handler's own only when the handler was given exactly the whole input, in order; that input is
   * within the cap and of the declared length.
   */
  lemma SuccessMeansWholeBody(c: Config, aborted: bool, events: seq<Event>, status: nat)
    requires Admit(c, aborted).Admitted? && 200 <= status < 300
    requires Run(c, Admit(c, aborted).state, events).response == Some(Own(status))
    ensures
      var s := Run(c, Admit(c, aborted).state, events);
      && s.taken == Whole(Input(c)) && |s.taken| <= c.maxBytes
      && (c.header.Some? ==> Says(c.header.value, |s.taken|))
  {
    AdmittedInv(c, aborted);
    RunKeepsInv(c, Admit(c, aborted).state, events);
    var s := Run(c, Admit(c, aborted).state, events);
    assert Input(c)[..|Input(c)|] == Input(c);
    assert s.taken + [] == s.taken;
  }

  /**
   * In every run the handler has a prefix of the input within the cap, and an overflow never keeps the handler's
   * answer.
   */
  lemma DeliveryIsCapped(c: Config, aborted: bool, events: seq<Event>)
    requires Admit(c, aborted).Admitted?
    ensures
      var s := Run(c, Admit(c, aborted).state, events);
      && Prefix(s.taken, Whole(Input(c))) && |s.taken| <= c.maxBytes
      && (s.bytes > c.maxBytes && s.response.Some? ==> s.response.value.Limit?)
  {
    AdmittedInv(c, aborted);
    RunKeepsInv(c, Admit(c, aborted).state, events);
    var s := Run(c, Admit(c, aborted).state, events);
    PrefixTwice(s.taken, Handed(s), Whole(Input(c)));
  }

  lemma PrefixTwice(x: seq<Byte>, y: seq<Byte>, z: seq<Byte>)
    requires Prefix(x, y) && Prefix(y, z)
    ensures Prefix(x, z)
  {
  }

  /** Once stopped, a step reads nothing and hands over nothing but what the stream still held. */
  lemma StoppedStep(c: Config, s: State, e: Event)
    requires Inv(c, s) && s.stopped
    ensures
      var t := Step(c, s, e);
      && t.stopped && t.readCalls == s.readCalls && Prefix(Handed(t), Handed(s))
      && (s.stream != Open ==> t.stream != Open && t.taken == s.taken)
  {
    ReadMoves(s);
    assert s.taken + [] == s.taken;
  }

  lemma {:induction false} StoppedStays(c: Config, s: State, events: seq<Event>)
    requires Inv(c, s) && s.stopped
    ensures
      var t := Run(c, s, events);
      && t.stopped && t.readCalls == s.readCalls && Prefix(Handed(t), Handed(s))
      && (s.stream != Open ==> t.stream != Open && t.taken == s.taken)
    decreases |events|
  {
    if events != [] {
      var t := Step(c, s, events[0]);
      StepKeepsInv(c, s, events[0]);
      StoppedStep(c, s, events[0]);
      StoppedStays(c, t, events[1..]);
      PrefixTwice(Handed(Run(c, s, events)), Handed(t), Handed(s));
    }
  }

  /**
   * After a cancellation the input is cancelled and nothing more is read. The handler, or a reader it left behind, can
   * only take what the stream already held, and nothing once the stream was errored or cancelled.
   */
  lemma NothingReadAfterCancel(c: Config, aborted: bool, events: seq<Event>, more: seq<Event>)
    requires Admit(c, aborted).Admitted? && Run(c, Admit(c, aborted).state, events).stopped
    ensures
      var s := Run(c, Admit(c, aborted).state, events);
      var t := Run(c, s, more);
      && s.inputCancelled && t.readCalls == s.readCalls && Prefix(t.taken, Handed(s))
      && (s.stream != Open ==> t.taken == s.taken)
  {
    AdmittedInv(c, aborted);
    RunKeepsInv(c, Admit(c, aborted).state, events);
    var s := Run(c, Admit(c, aborted).state, events);
    StoppedStays(c, s, more);
    PrefixTwice(Run(c, s, more).taken, Handed(Run(c, s, more)), Handed(s));
  }

  lemma FinishedHasEndedInput(c: Config, aborted: bool, events: seq<Event>)
    requires Admit(c, aborted).Admitted? && Run(c, Admit(c, aborted).state, events).phase == Finished
    ensures
      var s := Run(c, Admit(c, aborted).state, events);
      s.inputCancelled || s.complete
  {
    AdmittedInv(c, aborted);
    RunKeepsInv(c, Admit(c, aborted).state, events);
  }
}
