/**
 * What the queue does get done: a queued revocation is sent whatever its cleanup leaves, and even when every request
 * fails; a session it ends stays ended.
 */
module PushProgress {
  import opened Wrappers
  import opened PushModel
  import opened PushSystem
  import PushCoverage

  predicate Crashes(e: Event) {
    e.Crash? || e.CrashAfterKeychainWrite?
  }

  predicate NoCrash(events: seq<Event>) {
    forall i :: 0 <= i < |events| ==> !Crashes(events[i])
  }

  lemma {:induction false} RunJoin(s: System, a: seq<Event>, b: seq<Event>)
    ensures Run(s, a + b) == Run(Run(s, a), b)
    decreases |a|
  {
    if a == [] {
      assert [] + b == b;
    } else {
      assert (a + b)[1..] == a[1..] + b;
      RunJoin(Step(s, a[0]), a[1..], b);
    }
  }

  // ---------------------------------------------------------------- a revocation goes on to its request

  function LogoutOf(c: Client): Running {
    LoggingOut(Request(c, Logout, Sent))
  }

  predicate CleansFor(r: Running, op: Operation) {
    r.Cleaning? && r.operation == op
  }

  /**
   * A revocation's cleanup, until the process dies, is still that cleanup after any event or has sent the logout of its
   * session, whatever remains.
   */
  lemma RevocationGoesOn(m: System, e: Event, c: Client)
    requires CleansFor(m.device.running, Revocation(c)) && !Crashes(e)
    ensures
      var next := Step(m, e).device.running;
      CleansFor(next, Revocation(c)) || next == LogoutOf(c)
  {
  }

  /** In line or in its cleanup. */
  predicate Pending(d: Device, c: Client) {
    Revocation(c) in d.waiting || CleansFor(d.running, Revocation(c))
  }

  /** A queued operation keeps its place until it starts. */
  lemma QueueStep(m: System, e: Event)
    requires !Crashes(e)
    ensures
      var d, d' := m.device, Step(m, e).device;
      || d.waiting <= d'.waiting
      || (&& e.Start? && d.waiting != [] && d'.waiting == d.waiting[1..]
          && (d.waiting[0].Revocation? ==> CleansFor(d'.running, d.waiting[0]))
          && (d.waiting[0].SessionChange? ==>
                d'.running == EndingActivities(d.waiting[0].identity, d.waiting[0].client)))
  {
  }

  lemma PendingStep(m: System, e: Event, c: Client)
    requires Pending(m.device, c) && !Crashes(e)
    ensures Pending(Step(m, e).device, c) || Step(m, e).device.running == LogoutOf(c)
  {
    QueueStep(m, e);
    if CleansFor(m.device.running, Revocation(c)) { RevocationGoesOn(m, e, c); }
  }

  /** The logout of this session is sent at some point of the run. */
  predicate WasSent(s: System, events: seq<Event>, c: Client) {
    exists i :: 0 <= i <= |events| && Run(s, events[..i]).device.running == LogoutOf(c)
  }

  lemma SentLater(s: System, events: seq<Event>, c: Client)
    requires events != [] && WasSent(Step(s, events[0]), events[1..], c)
    ensures WasSent(s, events, c)
  {
    var i :| 0 <= i <= |events| - 1 && Run(Step(s, events[0]), events[1..][..i]).device.running == LogoutOf(c);
    assert events[..i + 1][1..] == events[1..][..i];
    assert Run(s, events[..i + 1]).device.running == LogoutOf(c);
  }

  /** Until the process dies, a revocation is in line or in its cleanup, or has been sent. */
  lemma {:induction false} RevocationIsNotLost(s: System, events: seq<Event>, c: Client)
    requires Pending(s.device, c) && NoCrash(events)
    ensures Pending(Run(s, events).device, c) || WasSent(s, events, c)
    decreases |events|
  {
    if events != [] {
      var t := Step(s, events[0]);
      PendingStep(s, events[0], c);
      if t.device.running == LogoutOf(c) {
        assert events[..1][1..] == [] && Run(t, []) == t;
        assert Run(s, events[..1]) == t;
      } else {
        RevocationIsNotLost(t, events[1..], c);
        if WasSent(t, events[1..], c) { SentLater(s, events, c); }
      }
    }
  }

  // ---------------------------------------------------------------- an ended session stays ended

  lemma EndedStep(s: System, e: Event, key: SessionKey)
    requires key in s.world.minted && key !in s.world.sessions
    ensures key in Step(s, e).world.minted && key !in Step(s, e).world.sessions
  {
  }

  lemma {:induction false} EndedStays(s: System, events: seq<Event>, key: SessionKey)
    requires key in s.world.minted && key !in s.world.sessions
    ensures key !in Run(s, events).world.sessions
    decreases |events|
  {
    if events != [] {
      EndedStep(s, events[0], key);
      EndedStays(Step(s, events[0]), events[1..], key);
    }
  }

  /**
   * The answer to a logout ends its session at the server for good: whatever happens later, its bearer is worth nothing
   * and no row of it is delivered to.
   */
  lemma LogoutEndsSession(m: System, c: Client, later: seq<Event>)
    requires m.device.running == LogoutOf(c) && c.token.Some? && (c.server, c.token.value) in m.world.minted
    ensures
      var t := Step(m, ServerAnswers(false));
      var w := Run(t, later).world;
      && t.device.running == LoggingOut(Request(c, Logout, Answered(Accepted)))
      && (c.server, c.token.value) !in w.sessions
      && (forall k :: Deliverable(w, k) && k.0 == c.server ==> w.rows[k].bearer != c.token.value)
  {
    EndedStays(Step(m, ServerAnswers(false)), later, (c.server, c.token.value));
  }

  // ---------------------------------------------------------------- the queue drains

  /** A request belongs to a registration that is still to be passed. */
  predicate Sane(d: Device) {
    d.running.Cleaning? && d.running.request.Some? ==> d.running.todo != []
  }

  /** How far the running operation is from its end. */
  function Distance(r: Running): nat {
    match r
    case EndingActivities(_, _) => 5
    case Cleaning(_, _, _, _) => 4
    case Authorizing(_, _) => 3
    case Registering(_, _, live, _) => if live then 2 else 1
    case LoggingOut(_) => 1
    case Idle => 0
  }

  function Turns(r: Running): nat {
    if r.Cleaning? then 2 * |r.todo| + (if r.request == None then 1 else 0) else 0
  }

  const NONE_FAIL := FailedReads(false, {})

  /** What comes next when every request fails. */
  function NextInOutage(d: Device): Event {
    match d.running
    case Idle => Start(false)
    case EndingActivities(_, _) => ActivitiesEnded(NONE_FAIL, false)
    case Cleaning(_, todo, _, request) =>
      if request.Some? then Settle(Failure, false, false)
      else if todo != [] then CleanupSend(false)
      else CleanupFinish
    case Authorizing(_, _) => Authorized(false, false)
    case _ => Settle(Failure, false, false)
  }

  lemma OutageStep(s: System)
    requires Sane(s.device) && (s.device.running != Idle || s.device.waiting != [])
    ensures
      var d, d' := s.device, Step(s, NextInOutage(s.device)).device;
      && Sane(d') && !Crashes(NextInOutage(d))
      && (|| |d'.waiting| < |d.waiting|
          || (&& |d'.waiting| == |d.waiting|
              && (|| Distance(d'.running) < Distance(d.running)
                  || (Distance(d'.running) == Distance(d.running) && Turns(d'.running) < Turns(d.running)))))
  {
  }

  /** The events of a total outage, until there is nothing left to do. */
  function Outage(s: System): seq<Event>
    requires Sane(s.device)
    decreases |s.device.waiting|, Distance(s.device.running), Turns(s.device.running)
  {
    if s.device.running == Idle && s.device.waiting == [] then []
    else
      OutageStep(s);
      [NextInOutage(s.device)] + Outage(Step(s, NextInOutage(s.device)))
  }

  lemma {:induction false} OutageDrains(s: System)
    requires Sane(s.device)
    ensures NoCrash(Outage(s))
    ensures Run(s, Outage(s)).device.running == Idle && Run(s, Outage(s)).device.waiting == []
    decreases |s.device.waiting|, Distance(s.device.running), Turns(s.device.running)
  {
    if !(s.device.running == Idle && s.device.waiting == []) {
      OutageStep(s);
      var t := Step(s, NextInOutage(s.device));
      OutageDrains(t);
      assert Outage(s)[1..] == Outage(t);
    }
  }

  lemma RunSane(s: System, events: seq<Event>)
    requires Initial(s)
    ensures Sane(Run(s, events).device)
  {
    PushCoverage.InitialInv(s);
    PushCoverage.RunKeepsInv(s, events);
  }

  /**
   * The queue never sticks: in every reachable state there is a way to its end on which every request fails, and it
   * sends the logout of each revocation in line.
   */
  lemma OutageSendsEveryLogout(s: System, events: seq<Event>, c: Client)
    requires Initial(s)
    ensures
      var m := Run(s, events);
      && Sane(m.device)
      && Run(m, Outage(m)).device.running == Idle && Run(m, Outage(m)).device.waiting == []
      && (Pending(m.device, c) ==> WasSent(m, Outage(m), c))
  {
    RunSane(s, events);
    var m := Run(s, events);
    OutageDrains(m);
    if Pending(m.device, c) { RevocationIsNotLost(m, Outage(m), c); }
  }
}
