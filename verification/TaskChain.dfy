/**
 * The task chain behind the push queue: every new task captures the last one and waits for it, then becomes the last.
 * Any task whose predecessor is done may begin, in whatever order the scheduler likes.
 */
module TaskChain {
  import opened Wrappers

  datatype Status = Pending | Running | Done

  /** `previous[i]` is what task i captured when it was created. */
  datatype Chain = Chain(previous: seq<Option<nat>>, status: seq<Status>, tail: Option<nat>)

  const EMPTY := Chain([], [], None)

  datatype Event = Enqueue | Begin(task: nat) | End(task: nat)

  predicate CanBegin(c: Chain, i: nat) {
    && i < |c.status| && i < |c.previous| && c.status[i] == Pending
    && (c.previous[i].Some? ==> c.previous[i].value < |c.status| && c.status[c.previous[i].value] == Done)
  }

  function Step(c: Chain, e: Event): Chain {
    match e
    case Enqueue => Chain(c.previous + [c.tail], c.status + [Pending], Some(|c.status|))
    case Begin(i) => if CanBegin(c, i) then c.(status := c.status[i := Running]) else c
    case End(i) => if i < |c.status| && c.status[i] == Running then c.(status := c.status[i := Done]) else c
  }

  function Run(c: Chain, events: seq<Event>): Chain
    decreases |events|
  {
    if events == [] then c else Run(Step(c, events[0]), events[1..])
  }

  predicate Linked(c: Chain) {
    && |c.previous| == |c.status|
    && c.tail == (if c.status == [] then None else Some(|c.status| - 1))
    && forall i :: 0 <= i < |c.previous| ==> c.previous[i] == (if i == 0 then None else Some(i - 1))
  }

  predicate Serial(c: Chain) {
    forall i, j :: 0 <= i < j < |c.status| && c.status[j] != Pending ==> c.status[i] == Done
  }

  lemma StepKeepsSerial(c: Chain, e: Event)
    requires Linked(c) && Serial(c)
    ensures Linked(Step(c, e)) && Serial(Step(c, e))
  {
    if e.Begin? && CanBegin(c, e.task) && e.task > 0 {
      assert c.status[e.task - 1] == Done;
    }
  }

  lemma {:induction false} RunKeepsSerial(c: Chain, events: seq<Event>)
    requires Linked(c) && Serial(c)
    ensures Linked(Run(c, events)) && Serial(Run(c, events))
    decreases |events|
  {
    if events != [] {
      StepKeepsSerial(c, events[0]);
      RunKeepsSerial(Step(c, events[0]), events[1..]);
    }
  }

  /** However the scheduler picks, a task has begun only when every earlier task is done: one at a time, in order. */
  lemma OneAtATimeInOrder(events: seq<Event>, i: nat, j: nat)
    requires i < j < |Run(EMPTY, events).status| && Run(EMPTY, events).status[j] != Pending
    ensures Run(EMPTY, events).status[i] == Done
  {
    RunKeepsSerial(EMPTY, events);
  }

  /** So a task that may begin is the oldest unfinished one: the chain is a first-in first-out queue. */
  lemma BeginsTheOldest(events: seq<Event>, i: nat)
    requires CanBegin(Run(EMPTY, events), i)
    ensures
      var c := Run(EMPTY, events);
      (forall k :: 0 <= k < i ==> c.status[k] == Done) && (forall k :: i < k < |c.status| ==> c.status[k] == Pending)
  {
    RunKeepsSerial(EMPTY, events);
    var c := Run(EMPTY, events);
    if i > 0 {
      assert c.status[i - 1] == Done;
    }
  }

  /** Nor does the chain stick: while nothing runs and something is unfinished, the oldest unfinished task may begin. */
  lemma OldestMayBegin(events: seq<Event>, i: nat)
    requires
      var c := Run(EMPTY, events);
      && i < |c.status| && c.status[i] != Done
      && (forall k :: 0 <= k < i ==> c.status[k] == Done)
      && (forall k :: 0 <= k < |c.status| ==> c.status[k] != Running)
    ensures CanBegin(Run(EMPTY, events), i)
  {
    RunKeepsSerial(EMPTY, events);
  }

  class Queue {
    var previous: seq<Option<nat>>
    var status: seq<Status>
    var tail: Option<nat>

    function State(): Chain
      reads this
    {
      Chain(previous, status, tail)
    }

    constructor ()
      ensures State() == EMPTY
    {
      previous, status, tail := [], [], None;
    }

    method Enqueue() returns (task: nat)
      modifies this
      ensures State() == Step(old(State()), Event.Enqueue) && tail == Some(task)
    {
      var captured := tail;
      task := |status|;
      previous := previous + [captured];
      status := status + [Pending];
      tail := Some(task);
    }
  }
}
