/**
 * When pushes come back: with servers that answer and a Keychain that works, a session change ends in a registration
 * exactly when no saved receipt has lost its credential, and a receipt that has lost it blocks registrations for good.
 */
module PushCleanup {
  import opened Wrappers
  import opened PushModel
  import opened PushSystem
  import opened PushProgress
  import PushCoverage
  import PushOrder

  // ---------------------------------------------------------------- every receipt says what to undo

  predicate Undoable(r: Receipt) {
    r.revokeSession || r.deviceToken.Some?
  }

  predicate AllUndoable(receipts: seq<Receipt>) {
    forall i :: 0 <= i < |receipts| ==> Undoable(receipts[i])
  }

  /** What remains of a cleanup was registered before. */
  lemma RemainingWasSaved(d: Device)
    requires d.running.Cleaning? && PushCoverage.CleanupShape(d) && PushCoverage.ReceiptsOk(d)
    requires AllUndoable(d.receipts)
    ensures AllUndoable(Receipts(d.running.remaining))
  {
    forall i | 0 <= i < |d.running.remaining| ensures Undoable(Receipts(d.running.remaining)[i]) {
      var r := d.running.remaining[i];
      assert r in d.running.remaining;
      var j :| 0 <= j < |d.registrations| && d.registrations[j] == r;
      assert d.receipts[j] == r.receipt;
    }
  }

  lemma WriteAheadUndoable(d: Device, token: string, c: Client, id: nat, writeFails: bool)
    requires AllUndoable(d.receipts) && PushCoverage.ReceiptsOk(d) && d.late == []
    ensures
      var w := WriteAhead(d, token, c, id, writeFails);
      w.Some? ==> AllUndoable(w.value.receipts)
  {
    assert forall i :: 0 <= i < |d.registrations| ==> d.receipts[i] == d.registrations[i].receipt;
  }

  lemma RetireUndoable(d: Device, server: string, bearer: string, id: nat, failed: FailedReads, writeFails: bool)
    requires AllUndoable(d.receipts) && PushCoverage.ReceiptsOk(d) && (!d.running.Cleaning? ==> d.late == [])
    ensures
      var r := RetireLegacy(d, server, bearer, id, failed, writeFails);
      r.Some? ==> AllUndoable(r.value.receipts)
  {
    assert forall i :: 0 <= i < |d.registrations| ==> d.receipts[i] == d.registrations[i].receipt;
  }

  lemma BeginRegisterUndoable(d: Device, token: string, owner: string, c: Client, id: nat, writeFails: bool)
    requires AllUndoable(d.receipts) && PushCoverage.ReceiptsOk(d) && d.late == []
    ensures AllUndoable(BeginRegister(d, token, owner, c, id, writeFails).receipts)
  {
    WriteAheadUndoable(d, token, c, id, writeFails);
  }

  lemma BeginLiveUndoable(d: Device, owner: string, c: Client, id: nat, writeFails: bool)
    requires AllUndoable(d.receipts) && PushCoverage.ReceiptsOk(d) && d.late == []
    ensures AllUndoable(BeginLive(d, owner, c, id, writeFails).receipts)
  {
    if d.liveToken.Some? { BeginRegisterUndoable(d, d.liveToken.value, owner, c, id, writeFails); }
  }

  lemma OthersUndoable(s: System, e: Event)
    requires AllUndoable(s.device.receipts)
    requires !e.Start? && !e.ActivitiesEnded? && !e.CleanupFinish? && !e.Authorized? && !e.Settle?
    requires !e.BootstrapRetire?
    ensures AllUndoable(Step(s, e).device.receipts)
  {
  }

  lemma AuthorizedUndoable(d: Device, id: nat, writeFails: bool, liveWriteFails: bool)
    requires AllUndoable(d.receipts) && PushCoverage.ReceiptsOk(d) && (!d.running.Cleaning? ==> d.late == [])
    ensures AllUndoable(PushModel.Authorized(d, id, writeFails, liveWriteFails).receipts)
  {
    if d.running.Authorizing? {
      BeginLiveUndoable(d, d.running.owner, d.running.sender, id, liveWriteFails);
      if d.deviceToken.Some? { WriteAheadUndoable(d, d.deviceToken.value, d.running.sender, id, writeFails); }
    }
  }

  lemma SettleUndoable(d: Device, seen: Observation, removeFails: bool, id: nat, liveWriteFails: bool)
    requires AllUndoable(d.receipts) && PushCoverage.ReceiptsOk(d) && (!d.running.Cleaning? ==> d.late == [])
    ensures AllUndoable(PushModel.Settle(d, seen, removeFails, id, liveWriteFails).receipts)
  {
    if d.running.Registering? { BeginLiveUndoable(d, d.running.owner, d.running.sender, id, liveWriteFails); }
  }

  lemma StartUndoable(d: Device, id: nat, writeFails: bool)
    requires AllUndoable(d.receipts) && PushCoverage.ReceiptsOk(d) && (!d.running.Cleaning? ==> d.late == [])
    ensures AllUndoable(PushModel.Start(d, id, writeFails).receipts)
  {
    if d.running == Idle && d.waiting != [] && d.waiting[0].Register? {
      var next := d.(waiting := d.waiting[1..]);
      BeginRegisterUndoable(next, d.waiting[0].token, d.waiting[0].owner, d.waiting[0].sender, id, writeFails);
    }
  }

  predicate Settled(d: Device) {
    AllUndoable(d.receipts) && PushCoverage.ReceiptsOk(d) && (!d.running.Cleaning? ==> d.late == [])
  }

  lemma ActivitiesUndoable(d: Device, id: nat, failed: FailedReads, writeFails: bool)
    requires Settled(d)
    ensures AllUndoable(PushModel.ActivitiesEnded(d, id, failed, writeFails).receipts)
  {
    if d.legacyServer.Address? && d.legacyToken.Some? {
      RetireUndoable(d, d.legacyServer.server, d.legacyToken.value, id, failed, writeFails);
    }
  }

  lemma BootstrapUndoable(d: Device, id: nat, failed: FailedReads, writeFails: bool)
    requires Settled(d)
    ensures AllUndoable(PushModel.BootstrapRetire(d, id, failed, writeFails).receipts)
  {
    if d.legacyServer.Address? && d.legacyToken.Some? {
      RetireUndoable(d, d.legacyServer.server, d.legacyToken.value, id, failed, writeFails);
    }
  }

  lemma FinishUndoable(d: Device)
    requires Settled(d) && (d.running.Cleaning? ==> PushCoverage.CleanupShape(d))
    ensures AllUndoable(PushModel.CleanupFinish(d).receipts)
  {
    if d.running.Cleaning? { RemainingWasSaved(d); }
  }

  lemma StepUndoable(s: System, e: Event)
    requires PushCoverage.Inv(s) && AllUndoable(s.device.receipts)
    ensures AllUndoable(Step(s, e).device.receipts)
  {
    var d := s.device;
    match e
    case Start(wf) => StartUndoable(d, s.nextId, wf);
    case ActivitiesEnded(rf, wf) => ActivitiesUndoable(d, s.nextId, rf, wf);
    case CleanupFinish => FinishUndoable(d);
    case Authorized(wf, lwf) => AuthorizedUndoable(d, s.nextId, wf, lwf);
    case Settle(seen, rf, lwf) => SettleUndoable(d, seen, rf, s.nextId, lwf);
    case BootstrapRetire(rf, wf) => BootstrapUndoable(d, s.nextId, rf, wf);
    case _ => OthersUndoable(s, e);
  }

  lemma {:induction false} RunUndoable(s: System, events: seq<Event>)
    requires PushCoverage.Inv(s) && AllUndoable(s.device.receipts)
    ensures PushCoverage.Inv(Run(s, events)) && AllUndoable(Run(s, events).device.receipts)
    decreases |events|
  {
    if events != [] {
      StepUndoable(s, events[0]);
      PushCoverage.StepKeepsInv(s, events[0]);
      RunUndoable(Step(s, events[0]), events[1..]);
    }
  }

  // ---------------------------------------------------------------- an honest cleanup

  /** Made by an earlier process, and its bearer is gone from the Keychain. */
  predicate Lost(d: Device, r: Registration) {
    r.client == None && r.receipt.id !in d.keychain
  }

  function LostOf(d: Device, rs: seq<Registration>): seq<Registration> {
    if rs == [] then [] else (if Lost(d, rs[0]) then [rs[0]] else []) + LostOf(d, rs[1..])
  }

  predicate DistinctReceipts(rs: seq<Registration>) {
    forall i, j :: 0 <= i < j < |rs| ==> rs[i].receipt.id != rs[j].receipt.id
  }

  /** A cleanup between two turns whose registrations can all be undone. */
  predicate Ready(d: Device) {
    && d.running.Cleaning? && d.running.request == None && DistinctReceipts(d.running.todo)
    && forall i :: 0 <= i < |d.running.todo| ==> Undoable(d.running.todo[i].receipt)
  }

  function WhatIsSeen(d: Device): Observation {
    match InFlight(d.running)
    case Some(q) => if q.flight == Answered(Accepted) then Success else Expired
    case None => Failure
  }

  /** A turn in which nothing fails: the request is sent, answered, and its answer seen. */
  function HonestTurn(s: System): seq<Event> {
    var sent := Step(s, CleanupSend(false));
    if InFlight(sent.device.running) == None then [CleanupSend(false)]
    else [CleanupSend(false), ServerAnswers(false),
          Settle(WhatIsSeen(Step(sent, ServerAnswers(false)).device), false, false)]
  }

  /** The device after such a turn: the registration and its bearer are gone, or it remains for want of a bearer. */
  function TurnDone(d: Device): Device
    requires d.running.Cleaning? && d.running.todo != []
  {
    var r := d.running.todo[0];
    var after := d.running.(todo := d.running.todo[1..]);
    if Lost(d, r) then d.(running := after.(remaining := d.running.remaining + [r]))
    else d.(running := after, keychain := map id | id in d.keychain && id != r.receipt.id :: d.keychain[id])
  }

  lemma TurnSends(s: System)
    requires Ready(s.device) && s.device.running.todo != []
    ensures
      var r, t := s.device.running.todo[0], Step(s, CleanupSend(false));
      if Lost(s.device, r) then t == s.(device := TurnDone(s.device))
      else t.world == s.world && exists q: Request ::
        q.flight == Sent && t.device == s.device.(running := s.device.running.(request := Some(q)))
  {
    var d, r := s.device, s.device.running.todo[0];
    if !Lost(d, r) {
      var client, call := CleanupClient(d, r, false), CleanupCall(r.receipt);
      var q := Request(client.value, call.value, Sent);
      assert PushModel.CleanupSend(d, false) == d.(running := d.running.(request := Some(q)));
    }
  }

  lemma TurnAnswered(t: System, d: Device, q: Request)
    requires Ready(d) && d.running.todo != [] && !Lost(d, d.running.todo[0]) && q.flight == Sent
    requires t.device == d.(running := d.running.(request := Some(q)))
    ensures
      var u := Step(t, ServerAnswers(false));
      Step(u, Settle(WhatIsSeen(u.device), false, false)).device == TurnDone(d)
  {
    var u := Step(t, ServerAnswers(false));
    var (w, reply) := Serve(t.world, q.client, q.call);
    assert reply == Accepted || reply == Unauthorized;
    assert u.device == d.(running := d.running.(request := Some(q.(flight := Answered(reply)))));
  }

  lemma RunOne(s: System, a: Event)
    ensures Run(s, [a]) == Step(s, a)
  {
    assert [a][1..] == [] && Run(Step(s, a), []) == Step(s, a);
  }

  lemma RunThree(s: System, a: Event, b: Event, c: Event)
    ensures Run(s, [a, b, c]) == Step(Step(Step(s, a), b), c)
  {
    RunOne(s, a);
    RunOne(Step(s, a), b);
    RunOne(Step(Step(s, a), b), c);
    RunJoin(s, [a], [b] + [c]);
    RunJoin(Step(s, a), [b], [c]);
    assert [a, b, c] == [a] + ([b] + [c]);
  }

  lemma HonestTurnMeans(s: System)
    requires Ready(s.device) && s.device.running.todo != []
    ensures Run(s, HonestTurn(s)).device == TurnDone(s.device)
  {
    var t := Step(s, CleanupSend(false));
    TurnSends(s);
    if Lost(s.device, s.device.running.todo[0]) {
      RunOne(s, CleanupSend(false));
    } else {
      var q: Request :| q.flight == Sent && t.device == s.device.(running := s.device.running.(request := Some(q)));
      TurnAnswered(t, s.device, q);
      var u := Step(t, ServerAnswers(false));
      RunThree(s, CleanupSend(false), ServerAnswers(false), Settle(WhatIsSeen(u.device), false, false));
    }
  }

  lemma TurnStaysReady(d: Device)
    requires Ready(d) && d.running.todo != []
    ensures Ready(TurnDone(d)) && |TurnDone(d).running.todo| == |d.running.todo| - 1
  {
  }

  /** Turn after turn until none is left. */
  function Honest(s: System): seq<Event>
    requires Ready(s.device)
    decreases |s.device.running.todo|
  {
    if s.device.running.todo == [] then []
    else
      HonestTurnMeans(s);
      TurnStaysReady(s.device);
      HonestTurn(s) + Honest(Run(s, HonestTurn(s)))
  }

  lemma {:induction false} LostFrame(d: Device, d': Device, rs: seq<Registration>)
    requires forall r :: r in rs ==> (r.receipt.id in d.keychain <==> r.receipt.id in d'.keychain)
    ensures LostOf(d, rs) == LostOf(d', rs)
  {
    if rs != [] {
      assert rs[0] in rs;
      LostFrame(d, d', rs[1..]);
    }
  }

  lemma TurnLosesNoOther(d: Device)
    requires Ready(d) && d.running.todo != []
    ensures LostOf(TurnDone(d), d.running.todo[1..]) == LostOf(d, d.running.todo[1..])
  {
    var rest := d.running.todo[1..];
    forall r | r in rest ensures r.receipt.id in d.keychain <==> r.receipt.id in TurnDone(d).keychain {
      var i :| 0 <= i < |rest| && rest[i] == r;
      assert d.running.todo[0].receipt.id != d.running.todo[i + 1].receipt.id;
    }
    LostFrame(TurnDone(d), d, rest);
  }

  /** When nothing fails, a cleanup keeps exactly the registrations whose credential is lost. */
  lemma {:induction false} HonestCleanup(s: System)
    requires Ready(s.device)
    ensures
      var d, e := s.device, Run(s, Honest(s)).device;
      && e == d.(running := e.running, keychain := e.keychain)
      && e.running == Cleaning(d.running.operation, [], d.running.remaining + LostOf(d, d.running.todo), None)
    decreases |s.device.running.todo|
  {
    var d := s.device;
    if d.running.todo == [] {
      assert d.running.remaining + [] == d.running.remaining;
    } else {
      HonestTurnMeans(s);
      TurnStaysReady(d);
      TurnLosesNoOther(d);
      var t := Run(s, HonestTurn(s));
      HonestCleanup(t);
      RunJoin(s, HonestTurn(s), Honest(t));
      LostStart(d);
    }
  }

  lemma LostStart(d: Device)
    requires Ready(d) && d.running.todo != []
    ensures
      TurnDone(d).running.remaining + LostOf(d, d.running.todo[1..])
        == d.running.remaining + LostOf(d, d.running.todo)
  {
  }

  // ---------------------------------------------------------------- a session change, when nothing fails

  /** The client's registration of this token is on the wire. */
  predicate OnTheWire(d: Device, c: Client, token: string) {
    d.running.Registering? && d.running.post == Request(c, PostDevice(token), Sent)
  }

  lemma {:induction false} LostMeans(d: Device, rs: seq<Registration>)
    ensures LostOf(d, rs) == [] <==> forall r :: r in rs ==> !Lost(d, r)
  {
    if rs != [] {
      LostMeans(d, rs[1..]);
      assert rs == [rs[0]] + rs[1..];
    }
  }

  lemma FreshRegistrations(s: System)
    requires PushCoverage.Inv(s) && AllUndoable(s.device.receipts) && !s.device.running.Cleaning?
    ensures Numbered(s.device.registrations, s.nextId)
  {
    var d := s.device;
    forall i | 0 <= i < |d.registrations|
      ensures Undoable(d.registrations[i].receipt) && d.registrations[i].receipt.id < s.nextId
    {
      assert d.receipts[i] in d.receipts;
    }
    forall i, j | 0 <= i < j < |d.registrations|
      ensures d.registrations[i].receipt.id != d.registrations[j].receipt.id
    {
      assert d.receipts[i].id != d.receipts[j].id;
    }
  }

  /** A legacy address that cannot be read blocks the session change. */
  predicate LegacyBlocks(d: Device) {
    d.legacyServer == Unreadable && d.legacyToken.Some?
  }

  /** Preserving the legacy session adds at most its one receipt, under a new number. */
  lemma PreserveAdds(d: Device, id: nat) returns (added: seq<Registration>)
    requires !LegacyBlocks(d) && !d.running.Cleaning?
    ensures PreserveLegacy(d, id, NONE_FAIL, false).Some?
    ensures
      var p := PreserveLegacy(d, id, NONE_FAIL, false).value;
      && p == d.(registrations := d.registrations + added, receipts := p.receipts, keychain := p.keychain)
      && (forall k :: k in p.keychain <==> k in d.keychain || (added != [] && k == id))
    ensures added == [] || (|added| == 1 && Added(added[0], id))
  {
    var p := PreserveLegacy(d, id, NONE_FAIL, false);
    if p.value == d {
      added := [];
    } else {
      var receipt := Receipt(id, d.legacyServer.server, None, None, true);
      added := [Registration(receipt, Some(Client(d.legacyServer.server, d.legacyToken, None)))];
    }
  }

  predicate Added(r: Registration, id: nat) {
    r.client.Some? && r.receipt.id == id && Undoable(r.receipt)
  }

  predicate Numbered(rs: seq<Registration>, id: nat) {
    DistinctReceipts(rs) && forall i :: 0 <= i < |rs| ==> Undoable(rs[i].receipt) && rs[i].receipt.id < id
  }

  lemma AddedStaysNumbered(rs: seq<Registration>, added: seq<Registration>, id: nat)
    requires Numbered(rs, id) && (added == [] || (|added| == 1 && Added(added[0], id)))
    ensures Numbered(rs + added, id + 1)
  {
  }

  /** A registration with its client is not lost, and its new bearer restores no other. */
  lemma AddedLosesNone(d: Device, t: Device, rs: seq<Registration>, added: seq<Registration>, id: nat)
    requires Numbered(rs, id) && (added == [] || (|added| == 1 && Added(added[0], id)))
    requires forall k :: k in t.keychain <==> k in d.keychain || (added != [] && k == id)
    ensures LostOf(t, rs + added) == [] <==> forall r :: r in rs ==> !Lost(d, r)
  {
    LostMeans(t, rs + added);
    forall r | r in rs ensures Lost(t, r) <==> Lost(d, r) {
      var i :| 0 <= i < |rs| && rs[i] == r;
    }
  }

  /** The cleanup a session change begins has all registrations to pass, and retiring the legacy session loses none. */
  lemma ChangeBegins(s: System)
    requires PushCoverage.Inv(s) && AllUndoable(s.device.receipts)
    requires s.device.running.EndingActivities? && !LegacyBlocks(s.device)
    ensures
      var d, t := s.device, Step(s, ActivitiesEnded(NONE_FAIL, false)).device;
      && Ready(t) && t.running.operation == SessionChange(d.running.identity, d.running.client)
      && t.running.remaining == []
      && t.identity == d.identity && t.deviceToken == d.deviceToken
      && (LostOf(t, t.running.todo) == [] <==> forall r :: r in d.registrations ==> !Lost(d, r))
  {
    var d := s.device;
    FreshRegistrations(s);
    var added := PreserveAdds(d, s.nextId);
    var t := Step(s, ActivitiesEnded(NONE_FAIL, false)).device;
    var kept := PreserveLegacy(d, s.nextId, NONE_FAIL, false).value;
    assert t == BeginCleanup(kept, SessionChange(d.running.identity, d.running.client));
    AddedStaysNumbered(d.registrations, added, s.nextId);
    AddedLosesNone(d, t, d.registrations, added, s.nextId);
  }

  /** The way of a session change on which nothing fails, up to its first registration. */
  function Honestly(m: System): seq<Event>
    requires Ready(Step(m, ActivitiesEnded(NONE_FAIL, false)).device)
  {
    [ActivitiesEnded(NONE_FAIL, false)] + (Honest(Step(m, ActivitiesEnded(NONE_FAIL, false)))
      + ([CleanupFinish] + [Authorized(false, false)]))
  }

  /** An activated session registers the known device token first. */
  lemma ActivatedRegisters(t: System, i: string, c: Client, token: string)
    requires t.device.running.Cleaning? && t.device.running.request == None && t.device.running.todo == []
    requires t.device.running.operation == SessionChange(Some(i), Some(c)) && t.device.identity == Some(i)
    requires t.device.deviceToken == Some(token) && c.token.Some?
    ensures
      var end := Step(Step(t, CleanupFinish), Authorized(false, false));
      OnTheWire(end.device, c, token) <==> t.device.running.remaining == []
  {
  }

  /**
   * When the servers answer and the Keychain works, a session change that is still current ends in the registration of
   * the device token by its client exactly when no receipt saved by an earlier process has lost its credential.
   */
  lemma SessionChangeRegisters(s: System, events: seq<Event>, i: string, c: Client, token: string)
    requires Initial(s)
    requires
      var d := Run(s, events).device;
      && d.running == EndingActivities(Some(i), Some(c)) && d.identity == Some(i)
      && d.deviceToken == Some(token) && c.token.Some? && !LegacyBlocks(d)
    ensures
      var m := Run(s, events);
      && Ready(Step(m, ActivitiesEnded(NONE_FAIL, false)).device)
      && (OnTheWire(Run(m, Honestly(m)).device, c, token) <==>
            forall r :: r in m.device.registrations ==> !Lost(m.device, r))
  {
    var m := Run(s, events);
    PushCoverage.InitialInv(s);
    RunUndoable(s, events);
    ChangeBegins(m);
    var t := Step(m, ActivitiesEnded(NONE_FAIL, false));
    HonestCleanup(t);
    var u := Run(t, Honest(t));
    assert u.device.running.remaining == LostOf(t.device, t.device.running.todo);
    ActivatedRegisters(u, i, c, token);
    HonestlyRuns(m);
  }

  lemma HonestlyRuns(m: System)
    requires Ready(Step(m, ActivitiesEnded(NONE_FAIL, false)).device)
    ensures
      var t := Step(m, ActivitiesEnded(NONE_FAIL, false));
      Run(m, Honestly(m)) == Step(Step(Run(t, Honest(t)), CleanupFinish), Authorized(false, false))
  {
    var t := Step(m, ActivitiesEnded(NONE_FAIL, false));
    var u := Run(t, Honest(t));
    RunOne(m, ActivitiesEnded(NONE_FAIL, false));
    RunJoin(m, [ActivitiesEnded(NONE_FAIL, false)], Honest(t) + ([CleanupFinish] + [Authorized(false, false)]));
    RunJoin(t, Honest(t), [CleanupFinish] + [Authorized(false, false)]);
    RunJoin(u, [CleanupFinish], [Authorized(false, false)]);
    RunOne(u, CleanupFinish);
    RunOne(Step(u, CleanupFinish), Authorized(false, false));
  }

  /** A new session change with nothing in line before it, up to its first suspension. */
  function Begun(m: System, i: string, c: Client): seq<Event> {
    [SetSession(Some(i), Some(c))] + [Start(false)]
  }

  lemma BegunRuns(m: System, i: string, c: Client)
    requires m.device.running == Idle && m.device.waiting == [] && i !in m.issued
    ensures
      var d := m.device;
      Run(m, Begun(m, i, c)).device == d.(identity := Some(i), registrar := None,
          running := EndingActivities(Some(i), Some(c)))
  {
    RunJoin(m, [SetSession(Some(i), Some(c))], [Start(false)]);
    RunOne(m, SetSession(Some(i), Some(c)));
    RunOne(Step(m, SetSession(Some(i), Some(c))), Start(false));
    assert [SessionChange(Some(i), Some(c))][1..] == [];
  }

  /**
   * So a session given to an idle push manager that knows the device token gets it registered, when nothing fails,
   * exactly when no receipt saved by an earlier process has lost its credential.
   */
  lemma NewSessionRegisters(s: System, events: seq<Event>, i: string, c: Client, token: string)
    requires Initial(s) && c.token.Some?
    requires
      var m := Run(s, events);
      && m.device.running == Idle && m.device.waiting == [] && i !in m.issued
      && m.device.deviceToken == Some(token) && !LegacyBlocks(m.device)
    ensures
      var m := Run(s, events);
      var n := Run(m, Begun(m, i, c));
      && Ready(Step(n, ActivitiesEnded(NONE_FAIL, false)).device)
      && (OnTheWire(Run(n, Honestly(n)).device, c, token) <==>
            forall r :: r in m.device.registrations ==> !Lost(m.device, r))
  {
    var m := Run(s, events);
    BegunRuns(m, i, c);
    RunJoin(s, events, Begun(m, i, c));
    SessionChangeRegisters(s, events + Begun(m, i, c), i, c, token);
    LostSame(m.device, Run(m, Begun(m, i, c)).device);
  }

  lemma LostSame(d: Device, d': Device)
    requires d'.registrations == d.registrations && d'.keychain == d.keychain
    ensures (forall r :: r in d'.registrations ==> !Lost(d', r)) <==> (forall r :: r in d.registrations ==> !Lost(d, r))
  {
    forall r ensures Lost(d', r) <==> Lost(d, r) {}
  }

  /** The client has a receipt for this token and its store already. */
  predicate HasReceipt(d: Device, c: Client, token: string) {
    exists r :: r in d.registrations && r.receipt.deviceToken == Some(token) && r.receipt.server == c.server
      && r.receipt.store == c.store && (if r.client.Some? then r.client.value.token == c.token else c.token == None)
  }

  /** This step is the one at which the session with this identity and client is to register the token. */
  predicate Asks(d: Device, e: Event, i: string, c: Client, token: string) {
    match e
    case Start(_) => d.running == Idle && d.waiting != [] && d.waiting[0] == Register(token, i, c)
    case Authorized(_, _) =>
      d.running == Authorizing(i, c) && d.deviceToken == Some(token) && d.liveToken != Some(token)
    case Settle(seen, _, _) =>
      && d.running.Registering? && d.running.owner == i && d.running.sender == c && d.running.thenLive
      && CanSee(d.running.post, seen) && d.liveToken == Some(token)
    case _ => false
  }

  predicate WriteFails(e: Event) {
    (e.Start? && e.writeFails) || (e.Authorized? && e.writeFails) || (e.Settle? && e.liveWriteFails)
  }

  /**
   * A queued token, the device token of a new session and then its Live Activity token, whatever became of the first
   * request, are sent exactly when the session is still current and a receipt for them is there or can be written.
   */
  lemma TokensAreSent(m: System, e: Event, i: string, c: Client, token: string)
    requires Asks(m.device, e, i, c, token)
    ensures
      OnTheWire(Step(m, e).device, c, token) <==>
        && m.device.identity == Some(i)
        && (HasReceipt(m.device, c, token) || (c.token.Some? && !WriteFails(e)))
  {
    assert HasReceipt(m.device, c, token) <==> AlreadyRegistered(m.device, token, c);
  }

  /** A new token is kept, and queued for the session that has a registrar. */
  lemma NewTokensAreQueued(m: System, expected: string, token: string)
    ensures
      var d, t := m.device, Step(m, ReceiveDeviceToken(token)).device;
      && t.deviceToken == Some(token)
      && t.waiting == d.waiting + (if d.registrar.Some?
           then [Register(token, d.registrar.value.identity, d.registrar.value.client)] else [])
    ensures
      var d, t := m.device, Step(m, ReceiveLiveToken(expected, token)).device;
      if d.identity != Some(expected) then t == d
      else
        && t.liveToken == Some(token)
        && t.waiting == d.waiting + (if d.registrar.Some?
             then [Register(token, d.registrar.value.identity, d.registrar.value.client)] else [])
  {
  }

  // ---------------------------------------------------------------- a lost credential blocks for good

  /** A saved receipt whose bearer is gone, and which no cleanup under way has passed. */
  predicate Orphan(s: System, r: Receipt) {
    && r in s.device.receipts && r.id !in s.device.keychain && r.id < s.nextId
    && (s.device.running.Cleaning? ==>
          Registration(r, None) in s.device.running.todo || Registration(r, None) in s.device.running.remaining)
  }

  lemma OrphanIsRegistered(s: System, r: Receipt)
    requires PushCoverage.Inv(s) && Orphan(s, r) && !s.device.running.Cleaning?
    ensures Registration(r, None) in s.device.registrations
  {
    var d := s.device;
    var i :| 0 <= i < |d.receipts| && d.receipts[i] == r;
    assert PushCoverage.Backed(d, d.registrations[i]);
    assert d.registrations[i] == Registration(r, None);
  }

  predicate Gone(d: Device, r: Receipt) {
    r in d.receipts && r.id !in d.keychain
  }

  lemma SaveKeepsGone(d: Device, r: Receipt, receipt: Receipt, bearer: string, c: Client)
    requires Gone(d, r) && Registration(r, None) in d.registrations && receipt.id != r.id
    ensures Gone(SaveReceipt(d, receipt, bearer, c), r)
  {
    var i :| 0 <= i < |d.registrations| && d.registrations[i] == Registration(r, None);
    assert Receipts(d.registrations + [Registration(receipt, Some(c))])[i] == r;
  }

  lemma WriteAheadKeepsGone(d: Device, r: Receipt, token: string, c: Client, id: nat, writeFails: bool)
    requires Gone(d, r) && Registration(r, None) in d.registrations && id != r.id
    ensures
      var w := WriteAhead(d, token, c, id, writeFails);
      w.Some? ==> Gone(w.value, r)
  {
    if c.token.Some? { SaveKeepsGone(d, r, Receipt(id, c.server, c.store, Some(token), false), c.token.value, c); }
  }

  lemma RegisterKeepsGone(
      d: Device, r: Receipt, token: string, owner: string, c: Client, id: nat, writeFails: bool)
    requires Gone(d, r) && Registration(r, None) in d.registrations && id != r.id
    ensures
      var d' := BeginRegister(d, token, owner, c, id, writeFails);
      Gone(d', r) && !d'.running.Cleaning?
  {
    WriteAheadKeepsGone(d, r, token, c, id, writeFails);
  }

  lemma LiveKeepsGone(d: Device, r: Receipt, owner: string, c: Client, id: nat, writeFails: bool)
    requires Gone(d, r) && Registration(r, None) in d.registrations && id != r.id
    ensures
      var d' := BeginLive(d, owner, c, id, writeFails);
      Gone(d', r) && !d'.running.Cleaning?
  {
    if d.liveToken.Some? { RegisterKeepsGone(d, r, d.liveToken.value, owner, c, id, writeFails); }
  }

  lemma RetireKeepsGone(
      d: Device, r: Receipt, server: string, bearer: string, id: nat, failed: FailedReads, writeFails: bool)
    requires Gone(d, r) && id != r.id && (!d.running.Cleaning? ==> Registration(r, None) in d.registrations)
    ensures
      var p := RetireLegacy(d, server, bearer, id, failed, writeFails);
      p.Some? ==>
        && Gone(p.value, r) && p.value.running == d.running
        && (!d.running.Cleaning? ==> Registration(r, None) in p.value.registrations)
  {
    var receipt, client := Receipt(id, server, None, None, true), Client(server, Some(bearer), None);
    if d.running.Cleaning? {
      assert r in (d.receipts + [receipt]);
    } else {
      SaveKeepsGone(d, r, receipt, bearer, client);
    }
  }

  lemma OrphanCleanupSend(s: System, r: Receipt, readFails: bool)
    requires Orphan(s, r)
    ensures Orphan(Step(s, CleanupSend(readFails)), r)
  {
    var d, d' := s.device, PushModel.CleanupSend(s.device, readFails);
    if d' != d {
      assert d.running.todo == [d.running.todo[0]] + d.running.todo[1..];
      assert d' == d.(running := d'.running);
    }
  }

  lemma OrphanFinish(s: System, r: Receipt)
    requires Orphan(s, r)
    ensures Orphan(Step(s, CleanupFinish), r)
  {
    var d := s.device;
    if d.running.Cleaning? && d.running.todo == [] && d.running.request == None {
      var i :| 0 <= i < |d.running.remaining| && d.running.remaining[i] == Registration(r, None);
      assert Receipts(d.running.remaining)[i] == r;
    }
  }

  /** A receipt without a bearer is not the one a request was made for. */
  lemma OrphanIsNotFirst(s: System, r: Receipt)
    requires PushCoverage.Inv(s) && Orphan(s, r) && s.device.running.Cleaning?
    requires s.device.running.todo != [] && s.device.running.request.Some?
    ensures s.device.running.todo[0].receipt.id != r.id
    ensures Registration(r, None) in s.device.running.todo[1..] || Registration(r, None) in s.device.running.remaining
  {
    var d := s.device;
    assert PushCoverage.CleanupRequest(d, d.running.todo[0].receipt, d.running.request.value);
    assert d.running.todo == [d.running.todo[0]] + d.running.todo[1..];
  }

  lemma SettleKeepsOthers(d: Device, r: Receipt, seen: Observation, removeFails: bool)
    requires Gone(d, r) && d.running.Cleaning? && d.running.todo != []
    requires Registration(r, None) in d.running.todo[1..] || Registration(r, None) in d.running.remaining
    ensures
      var d' := PushModel.CleanupSettle(d, seen, removeFails);
      && Gone(d', r) && d'.running.Cleaning?
      && (Registration(r, None) in d'.running.todo || Registration(r, None) in d'.running.remaining)
  {
  }

  lemma OrphanCleanupSettle(s: System, r: Receipt, seen: Observation, removeFails: bool)
    requires PushCoverage.Inv(s) && Orphan(s, r) && s.device.running.Cleaning?
    requires s.device.running.todo != [] && s.device.running.request.Some?
    ensures
      var d' := PushModel.CleanupSettle(s.device, seen, removeFails);
      && Gone(d', r) && d'.running.Cleaning?
      && (Registration(r, None) in d'.running.todo || Registration(r, None) in d'.running.remaining)
  {
    OrphanIsNotFirst(s, r);
    SettleKeepsOthers(s.device, r, seen, removeFails);
  }

  lemma OrphanAnswered(d: Device, r: Receipt, seen: Observation, removeFails: bool, id: nat, liveWriteFails: bool)
    requires Gone(d, r) && Registration(r, None) in d.registrations && id != r.id && !d.running.Cleaning?
    ensures
      var d' := PushModel.Settle(d, seen, removeFails, id, liveWriteFails);
      Gone(d', r) && !d'.running.Cleaning?
  {
    if d.running.Registering? { LiveKeepsGone(d, r, d.running.owner, d.running.sender, id, liveWriteFails); }
  }

  lemma CleaningSettles(d: Device, seen: Observation, removeFails: bool, id: nat, liveWriteFails: bool)
    requires d.running.Cleaning?
    ensures
      var d' := PushModel.Settle(d, seen, removeFails, id, liveWriteFails);
      d' == d || (d.running.todo != [] && d.running.request.Some? && d' == CleanupSettle(d, seen, removeFails))
  {
  }

  lemma OrphanDevice(s: System, r: Receipt, d': Device, nextId: nat)
    requires r.id < s.nextId <= nextId && Gone(d', r)
    requires d'.running.Cleaning? ==>
      Registration(r, None) in d'.running.todo || Registration(r, None) in d'.running.remaining
    ensures Orphan(s.(device := d', nextId := nextId), r)
  {
  }

  lemma OrphanSettle(s: System, r: Receipt, seen: Observation, removeFails: bool, liveWriteFails: bool)
    requires PushCoverage.Inv(s) && Orphan(s, r)
    ensures Orphan(Step(s, Settle(seen, removeFails, liveWriteFails)), r)
  {
    var d := s.device;
    var d' := PushModel.Settle(d, seen, removeFails, s.nextId, liveWriteFails);
    if !d.running.Cleaning? {
      OrphanIsRegistered(s, r);
      OrphanAnswered(d, r, seen, removeFails, s.nextId, liveWriteFails);
    } else {
      CleaningSettles(d, seen, removeFails, s.nextId, liveWriteFails);
      if d' != d { OrphanCleanupSettle(s, r, seen, removeFails); }
    }
    OrphanDevice(s, r, d', s.nextId + 1);
  }

  lemma OrphanBegins(s: System, r: Receipt, failed: FailedReads, writeFails: bool)
    requires PushCoverage.Inv(s) && Orphan(s, r)
    ensures Orphan(Step(s, ActivitiesEnded(failed, writeFails)), r)
  {
    var d := s.device;
    if d.running.EndingActivities? {
      OrphanIsRegistered(s, r);
      if d.legacyServer.Address? && d.legacyToken.Some? {
        RetireKeepsGone(d, r, d.legacyServer.server, d.legacyToken.value, s.nextId, failed, writeFails);
      }
    }
  }

  lemma OrphanStart(s: System, r: Receipt, writeFails: bool)
    requires PushCoverage.Inv(s) && Orphan(s, r)
    ensures Orphan(Step(s, Start(writeFails)), r)
  {
    var d := s.device;
    if d.running == Idle && d.waiting != [] {
      OrphanIsRegistered(s, r);
      var next := d.(waiting := d.waiting[1..]);
      match d.waiting[0]
      case Register(token, owner, c) => RegisterKeepsGone(next, r, token, owner, c, s.nextId, writeFails);
      case _ =>
    }
  }

  lemma OrphanAuthorized(s: System, r: Receipt, writeFails: bool, liveWriteFails: bool)
    requires PushCoverage.Inv(s) && Orphan(s, r)
    ensures Orphan(Step(s, Authorized(writeFails, liveWriteFails)), r)
  {
    var d := s.device;
    if d.running.Authorizing? {
      OrphanIsRegistered(s, r);
      LiveKeepsGone(d, r, d.running.owner, d.running.sender, s.nextId, liveWriteFails);
      if d.deviceToken.Some? {
        WriteAheadKeepsGone(d, r, d.deviceToken.value, d.running.sender, s.nextId, writeFails);
      }
    }
  }

  lemma OrphanBootstrap(s: System, r: Receipt, failed: FailedReads, writeFails: bool)
    requires PushCoverage.Inv(s) && Orphan(s, r)
    ensures Orphan(Step(s, BootstrapRetire(failed, writeFails)), r)
  {
    var d := s.device;
    if d.legacyServer.Address? && d.legacyToken.Some? {
      if !d.running.Cleaning? { OrphanIsRegistered(s, r); }
      RetireKeepsGone(d, r, d.legacyServer.server, d.legacyToken.value, s.nextId, failed, writeFails);
    }
  }

  /** The other steps touch neither receipts nor bearers, but for one that a dying process leaves under a new number. */
  lemma OrphanElsewhere(s: System, e: Event, r: Receipt)
    requires Orphan(s, r)
    requires !e.CleanupSend? && !e.CleanupFinish? && !e.Settle? && !e.ActivitiesEnded? && !e.Start? && !e.Authorized?
    requires !e.BootstrapRetire?
    ensures Orphan(Step(s, e), r)
  {
    var d, d' := s.device, Step(s, e).device;
    assert d'.receipts == d.receipts && r.id !in d'.keychain;
    assert d'.running.Cleaning? ==>
      d.running.Cleaning? && d'.running.todo == d.running.todo && d'.running.remaining == d.running.remaining;
  }

  lemma OrphanStep(s: System, e: Event, r: Receipt)
    requires PushCoverage.Inv(s) && Orphan(s, r)
    ensures Orphan(Step(s, e), r)
  {
    match e
    case CleanupSend(rf) => OrphanCleanupSend(s, r, rf);
    case CleanupFinish => OrphanFinish(s, r);
    case Settle(seen, rf, lwf) => OrphanSettle(s, r, seen, rf, lwf);
    case ActivitiesEnded(rf, wf) => OrphanBegins(s, r, rf, wf);
    case Start(wf) => OrphanStart(s, r, wf);
    case Authorized(wf, lwf) => OrphanAuthorized(s, r, wf, lwf);
    case BootstrapRetire(rf, wf) => OrphanBootstrap(s, r, rf, wf);
    case _ => OrphanElsewhere(s, e, r);
  }

  lemma {:induction false} OrphanStays(s: System, events: seq<Event>, r: Receipt)
    requires PushCoverage.Inv(s) && Orphan(s, r)
    ensures PushCoverage.Inv(Run(s, events)) && Orphan(Run(s, events), r)
    decreases |events|
  {
    if events != [] {
      OrphanStep(s, events[0], r);
      PushCoverage.StepKeepsInv(s, events[0]);
      OrphanStays(Step(s, events[0]), events[1..], r);
    }
  }

  /**
   * Once a saved receipt has lost its credential while no cleanup is under way, it is never given up, and no device
   * registration is ever sent again.
   */
  lemma LostCredentialBlocks(s: System, events: seq<Event>, r: Receipt, later: seq<Event>, e: Event)
    requires Initial(s)
    requires
      var d := Run(s, events).device;
      r in d.receipts && r.id !in d.keychain && !d.running.Cleaning?
    ensures
      var m := Run(Run(s, events), later);
      r in m.device.receipts && !PushOrder.Sends(m, e)
  {
    var m := Run(s, events);
    PushCoverage.InitialInv(s);
    PushCoverage.RunKeepsInv(s, events);
    OrphanStays(m, later, r);
    OrphanStep(Run(m, later), e, r);
    RunJoin(s, events, later);
    if PushOrder.Sends(Run(m, later), e) { PushOrder.RegistrationsFollowCleanup(s, events + later, e); }
  }

  /**
   * It can happen: a process that dies after a cleanup has removed a bearer and before it has stored what remains
   * leaves a receipt without its credential.
   */
  lemma CrashLosesCredential(s: System, events: seq<Event>, seen: Observation)
    requires Initial(s)
    requires
      var d := Run(s, events).device;
      d.running.Cleaning? && d.running.request.Some? && CanSee(d.running.request.value, seen) && seen != Failure
    ensures
      var m := Run(s, events);
      m.device.running.todo != []
      && var r := m.device.running.todo[0].receipt;
         var d := Step(Step(m, Settle(seen, false, false)), Crash).device;
         r in d.receipts && r.id !in d.keychain && !d.running.Cleaning?
  {
    PushCoverage.InitialInv(s);
    PushCoverage.RunKeepsInv(s, events);
    var d := Run(s, events).device;
    var n := |d.registrations| - |d.running.todo|;
    assert d.registrations[n..][0] == d.registrations[n];
    assert d.receipts[n] == d.running.todo[0].receipt;
  }
}
