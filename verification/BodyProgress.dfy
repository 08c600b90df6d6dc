/**
 * The body cap lets an honest upload pass: reading on, a whole body of allowed size and right length reaches the
 * handler.
 */
module BodyProgress {
  import opened Wrappers
  import opened BodyLimit
  import opened BodySafety

  function Reading(n: nat): seq<Event> {
    if n == 0 then [HandlerReads, Pull, ReadEnd] else [HandlerReads, Pull, ReadChunk] + Reading(n - 1)
  }

  lemma RunCons(c: Config, s: State, e: Event, rest: seq<Event>)
    ensures Run(c, s, [e] + rest) == Run(c, Step(c, s, e), rest)
  {
    assert ([e] + rest)[1..] == rest;
  }

  lemma RunThree(c: Config, s: State, a: Event, b: Event, d: Event, rest: seq<Event>)
    requires Inv(c, s)
    ensures Inv(c, Step(c, s, a)) && Inv(c, Step(c, Step(c, s, a), b))
    ensures Inv(c, Step(c, Step(c, Step(c, s, a), b), d))
    ensures Run(c, s, [a, b, d] + rest) == Run(c, Step(c, Step(c, Step(c, s, a), b), d), rest)
  {
    StepKeepsInv(c, s, a);
    StepKeepsInv(c, Step(c, s, a), b);
    StepKeepsInv(c, Step(c, Step(c, s, a), b), d);
    RunCons(c, s, a, [b, d] + rest);
    RunCons(c, Step(c, s, a), b, [d] + rest);
    RunCons(c, Step(c, Step(c, s, a), b), d, rest);
    assert [a, b, d] + rest == [a] + ([b, d] + rest) && [b, d] + rest == [b] + ([d] + rest);
  }

  /** One read of the handler, answered by the next chunk or by the end. */
  lemma ReadOne(c: Config, s: State, answer: Event)
    requires Ready(c, s) && |Whole(c.input.value)| <= c.maxBytes
    requires c.Declares().Length? ==> c.Declares().n == |Whole(c.input.value)|
    requires if s.position < |c.input.value| then answer == ReadChunk else answer == ReadEnd
    ensures
      var t := Step(c, Step(c, Step(c, s, HandlerReads), Pull), answer);
      if s.position < |c.input.value| then Ready(c, t) && t.position == s.position + 1
      else t.complete && t.failure == None && t.phase == Handling
  {
    StepKeepsInv(c, s, HandlerReads);
    StepKeepsInv(c, Step(c, s, HandlerReads), Pull);
    StepKeepsInv(c, Step(c, Step(c, s, HandlerReads), Pull), answer);
    if s.position < |c.input.value| {
      SoFarGrows(c, s);
      WholePrefix(c.input.value, s.position + 1);
    } else {
      assert c.input.value[..s.position] == c.input.value;
    }
  }

  /** Reading on: nothing pending, nothing queued. */
  predicate Ready(c: Config, s: State) {
    && Inv(c, s) && c.input.Some? && !s.stopped && !s.complete && s.failure == None
    && s.demand == 0 && s.queued == [] && !s.pulling
  }

  lemma {:induction false} HonestReading(c: Config, s: State, left: nat)
    requires Ready(c, s) && left == |c.input.value| - s.position
    requires |Whole(c.input.value)| <= c.maxBytes
    requires c.Declares().Length? ==> c.Declares().n == |Whole(c.input.value)|
    ensures
      var e := Run(c, s, Reading(left));
      Inv(c, e) && e.complete && e.failure == None && e.phase == Handling
    decreases left
  {
    if left == 0 {
      ReadOne(c, s, ReadEnd);
      RunThree(c, s, HandlerReads, Pull, ReadEnd, []);
      assert Reading(0) == [HandlerReads, Pull, ReadEnd] + [];
    } else {
      ReadOne(c, s, ReadChunk);
      RunThree(c, s, HandlerReads, Pull, ReadChunk, Reading(left - 1));
      HonestReading(c, Step(c, Step(c, Step(c, s, HandlerReads), Pull), ReadChunk), left - 1);
    }
  }

  /** A handler that reads a body of allowed size and right length to its end keeps its own 2xx. */
  lemma HonestUploadPasses(c: Config, status: nat)
    requires c.input.Some? && |Whole(c.input.value)| <= c.maxBytes && 200 <= status < 300
    requires c.header.Some? ==>
        Says(c.header.value, |Whole(c.input.value)|) && |Whole(c.input.value)| <= MAX_SAFE_INTEGER
    ensures Admit(c, false).Admitted?
    ensures
      var s := Run(c, Admit(c, false).state, Reading(|c.input.value|));
      Step(c, s, HandlerFinishes(status)).response == Some(Own(status))
  {
    AdmittedInv(c, false);
    HonestReading(c, Admit(c, false).state, |c.input.value|);
  }
}
