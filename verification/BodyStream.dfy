/** The body cap in place: the counter, its flags and the two streams, updated between the reads of the input. */
module BodyStream {
  import opened Wrappers
  import opened BodyLimit
  import opened BodySafety

  /** The counter, its flags and the two streams it sits between, updated in place as the source does. */
  class CountedBody {
    const c: Config
    var bytes: nat
    var stopped: bool
    var complete: bool
    var failure: Option<Failure>
    var stream: Stream
    var queued: seq<Chunk>
    var demand: nat
    var pulling: bool
    var position: nat
    var readCalls: nat
    var inputCancelled: bool
    var taken: seq<Byte>
    var phase: Phase
    var response: Option<Response>

    ghost function Now(): State
      reads this
    {
      State(bytes, stopped, complete, failure, stream, queued, demand, pulling, position, readCalls, inputCancelled,
            taken, phase, response)
    }

    ghost predicate Valid()
      reads this
    {
      Inv(c, Now())
    }

    constructor (c: Config)
      requires Admit(c, false).Admitted?
      ensures this.c == c && Valid() && Now() == Admit(c, false).state
    {
      this.c := c;
      bytes, stopped, complete, failure := 0, false, c.input == None, None;
      stream, queued, demand, pulling := if c.input == None then Closed else Open, [], 0, false;
      position, readCalls, inputCancelled, taken := 0, 0, false, [];
      phase, response := Handling, None;
      new;
      AdmittedInv(c, false);
    }

    method StopReading()
      modifies this`stopped, this`inputCancelled
      ensures Now() == Cancel(old(Now()))
    {
      if stopped || complete { return; }
      stopped := true;
      inputCancelled := true;
    }

    method ErrorOut()
      modifies this`stream, this`queued, this`demand
      ensures Now() == ErrorStream(old(Now()))
    {
      if stream == Open { stream, queued, demand := Errored, [], 0; }
    }

    method Fail(f: Failure)
      modifies this
      ensures Now() == Reject(old(Now()), f)
    {
      failure := Some(f);
      StopReading();
      ErrorOut();
    }

    method Abort()
      requires Valid()
      modifies this
      ensures Valid() && Now() == Step(c, old(Now()), Aborts)
    {
      StepKeepsInv(c, Now(), Aborts);
      if phase == Handling { Fail(BadRequest); }
    }

    method StartPull()
      requires Valid() && c.input.Some?
      modifies this`pulling, this`readCalls
      ensures Valid() && Now() == Step(c, old(Now()), Event.Pull)
    {
      StepKeepsInv(c, Now(), Event.Pull);
      if stream != Open || pulling || demand == 0 || stopped { return; }
      pulling := true;
      readCalls := readCalls + 1;
    }

    /** The read ends with a chunk, with the end of the input or, for neither, with an error. */
    method ChunkRead()
      requires Valid() && c.input.Some? && pulling && position < |c.input.value|
      modifies this
      ensures Valid() && Now() == Step(c, old(Now()), ReadChunk)
    {
      StepKeepsInv(c, Now(), ReadChunk);
      var chunk := c.input.value[position];
      position := position + 1;
      pulling := false;
      if stopped { return; }
      bytes := bytes + |chunk|;
      if bytes > c.maxBytes { Fail(TooLarge); return; }
      Deliver(chunk);
    }

    method Deliver(chunk: Chunk)
      modifies this`taken, this`demand, this`queued
      ensures Now() == Enqueue(old(Now()), chunk)
    {
      if stream != Open { return; }
      if demand > 0 { taken, demand := taken + chunk, demand - 1; } else { queued := queued + [chunk]; }
    }

    method EndRead()
      requires Valid() && c.input.Some? && pulling && (position == |c.input.value| || stopped)
      modifies this
      ensures Valid() && Now() == Step(c, old(Now()), ReadEnd)
    {
      StepKeepsInv(c, Now(), ReadEnd);
      pulling := false;
      if stopped { return; }
      if c.Declares().Length? && c.Declares().n != bytes { Fail(BadRequest); return; }
      complete, demand := true, 0;
      if stream == Open { stream := Closed; }
    }

    method ReadFailed()
      requires Valid() && pulling
      modifies this
      ensures Valid() && Now() == Step(c, old(Now()), ReadFails)
    {
      StepKeepsInv(c, Now(), ReadFails);
      pulling := false;
      StopReading();
      ErrorOut();
    }

    /** The handler returned: its 2xx stands only for a completely read body, any failure replaces the response. */
    method HandlerReturned(status: nat) returns (answer: Response)
      requires Valid() && phase == Handling
      modifies this
      ensures Valid() && Now() == Step(c, old(Now()), HandlerFinishes(status)) && response == Some(answer)
      ensures answer == Own(status) && 200 <= status < 300 ==> taken == Whole(Input(c))
    {
      StepKeepsInv(c, Now(), HandlerFinishes(status));
      if failure == None && !complete && 200 <= status < 300 { failure := Some(BadRequest); }
      answer := if failure.Some? then Limit(failure.value) else Own(status);
      response, phase := Some(answer), Finished;
      StopReading();
      assert Input(c)[..|Input(c)|] == Input(c) && taken + [] == taken;
    }
  }
}
