/**
 * No replacement push before the older session is cleaned up: whenever a device registration is sent, its session is
 * the current identity and every outstanding receipt was made by that same session's client.
 */
module PushOrder {
  import opened Wrappers
  import opened PushModel
  import opened PushSystem
  import PushCoverage

  /** The identity of the last session change still waiting, if there is one. */
  function LastChange(waiting: seq<Operation>): Option<Option<string>> {
    if waiting == [] then None
    else if waiting[|waiting| - 1].SessionChange? then Some(waiting[|waiting| - 1].identity)
    else LastChange(waiting[..|waiting| - 1])
  }

  /** The session change being carried out, as long as it has not finished its cleanup. */
  function Unfinished(r: Running): Option<Operation> {
    match r
    case EndingActivities(i, c) => Some(SessionChange(i, c))
    case Cleaning(op, _, _, _) => if op.SessionChange? then Some(op) else None
    case _ => None
  }

  function LastPending(d: Device): Option<Option<string>> {
    if LastChange(d.waiting).Some? then LastChange(d.waiting)
    else if Unfinished(d.running).Some? then Some(Unfinished(d.running).value.identity)
    else None
  }

  /** A session change that has not finished its cleanup has not been activated. */
  predicate PendingOk(s: System, op: Operation) {
    op.SessionChange? && op.identity.Some? ==>
      && op.identity.value in s.issued && s.issued[op.identity.value] == op.client && op.identity.value !in s.activated
  }

  predicate OwnerOk(s: System, owner: string, c: Client) {
    owner in s.activated && owner in s.issued && s.issued[owner] == Some(c)
  }

  predicate Apart(a: Operation, b: Operation) {
    a.SessionChange? && b.SessionChange? && a.identity.Some? ==> a.identity != b.identity
  }

  predicate QueueInv(s: System) {
    var d := s.device;
    && (forall i :: 0 <= i < |d.waiting| ==> PendingOk(s, d.waiting[i]))
    && (forall i, j :: 0 <= i < j < |d.waiting| ==> Apart(d.waiting[i], d.waiting[j]))
    && (Unfinished(d.running).Some? ==>
          && PendingOk(s, Unfinished(d.running).value)
          && (forall i :: 0 <= i < |d.waiting| ==> Apart(Unfinished(d.running).value, d.waiting[i])))
    && (forall i :: 0 <= i < |d.waiting| ==>
          d.waiting[i].Register? ==> OwnerOk(s, d.waiting[i].owner, d.waiting[i].sender))
    && (LastPending(d).Some? ==> LastPending(d).value == d.identity)
  }

  predicate OwnersInv(s: System) {
    var d := s.device;
    && (d.registrar.Some? ==>
          d.identity == Some(d.registrar.value.identity)
              && OwnerOk(s, d.registrar.value.identity, d.registrar.value.client))
    && (d.running.Authorizing? ==> OwnerOk(s, d.running.owner, d.running.sender))
    && (d.running.Registering? ==> OwnerOk(s, d.running.owner, d.running.sender))
    && s.activated <= s.issued.Keys
  }

  predicate MadeBy(rs: seq<Registration>, c: Option<Client>) {
    forall i :: 0 <= i < |rs| ==> rs[i].client == c
  }

  /** Once the current identity is activated, every receipt is its own. */
  predicate ReceiptsInv(s: System) {
    var d := s.device;
    d.identity.Some? && d.identity.value in s.activated && d.identity.value in s.issued ==>
      && MadeBy(d.registrations, s.issued[d.identity.value])
      && (d.running.Cleaning? ==> MadeBy(d.running.todo, s.issued[d.identity.value])
                                  && MadeBy(d.running.remaining, s.issued[d.identity.value]))
  }

  predicate Inv(s: System) {
    QueueInv(s) && OwnersInv(s) && ReceiptsInv(s)
  }

  // ---------------------------------------------------------------- the queue

  lemma LastChangeAppend(waiting: seq<Operation>, op: Operation)
    ensures LastChange(waiting + [op]) == if op.SessionChange? then Some(op.identity) else LastChange(waiting)
  {
    assert (waiting + [op])[..|waiting|] == waiting;
  }

  lemma {:induction false} LastChangePop(waiting: seq<Operation>)
    requires waiting != []
    ensures LastChange(waiting[1..]).Some? ==> LastChange(waiting[1..]) == LastChange(waiting)
    ensures LastChange(waiting[1..]) == None ==>
              LastChange(waiting) == if waiting[0].SessionChange? then Some(waiting[0].identity) else None
    decreases |waiting|
  {
    var n := |waiting|;
    if n > 1 && !waiting[n - 1].SessionChange? {
      LastChangePop(waiting[..n - 1]);
      assert waiting[..n - 1][1..] == waiting[1..][..n - 2];
    } else if n > 1 {
      assert waiting[1..][n - 2] == waiting[n - 1];
    }
  }

  /** The last change is one of the waiting operations. */
  lemma {:induction false} LastChangeIsWaiting(waiting: seq<Operation>)
    requires LastChange(waiting).Some?
    ensures exists i :: (0 <= i < |waiting|
        && waiting[i].SessionChange? && waiting[i].identity == LastChange(waiting).value)
    decreases |waiting|
  {
    if !waiting[|waiting| - 1].SessionChange? {
      LastChangeIsWaiting(waiting[..|waiting| - 1]);
      var i :| 0 <= i < |waiting| - 1 && waiting[i].SessionChange? && waiting[i].identity == LastChange(waiting).value;
    }
  }

  lemma AppendKeepsInv(s: System, op: Operation)
    requires Inv(s) && (op.Register? || op.Revocation?)
    requires op.Register? ==> OwnerOk(s, op.owner, op.sender)
    ensures Inv(s.(device := s.device.(waiting := s.device.waiting + [op])))
  {
    LastChangeAppend(s.device.waiting, op);
  }

  lemma SetSessionKeepsInv(s: System, i: Option<string>, c: Option<Client>)
    requires Inv(s)
    ensures Inv(Step(s, SetSession(i, c)))
  {
    LastChangeAppend(s.device.waiting, SessionChange(i, c));
  }

  lemma StoredTokenKeepsInv(s: System, deviceToken: Option<string>, liveToken: Option<string>)
    requires Inv(s)
    ensures Inv(s.(device := s.device.(deviceToken := deviceToken, liveToken := liveToken)))
  {
  }

  lemma TokenKeepsInv(s: System, e: Event)
    requires Inv(s) && (e.ReceiveDeviceToken? || e.ReceiveLiveToken?)
    ensures Inv(Step(s, e))
  {
    var d, t := s.device, Step(s, e);
    if t != s {
      var d1 := if e.ReceiveDeviceToken? then d.(deviceToken := Some(e.token)) else d.(liveToken := Some(e.token));
      var s1 := s.(device := d1);
      assert Inv(s1) by { StoredTokenKeepsInv(s, d1.deviceToken, d1.liveToken); }
      if d.registrar.Some? {
        var r := d.registrar.value;
        AppendKeepsInv(s1, Register(e.token, r.identity, r.client));
      }
    }
  }

  // ---------------------------------------------------------------- sending

  /** What may change while a registration is prepared: one receipt of the sender, and the running operation. */
  predicate OneReceiptAdded(d: Device, d': Device, c: Client) {
    && d'.identity == d.identity && d'.registrar == d.registrar && d'.waiting == d.waiting
    && (d'.registrations == d.registrations
        || (|d'.registrations| == |d.registrations| + 1 && d'.registrations[..|d.registrations|] == d.registrations
            && d'.registrations[|d.registrations|].client == Some(c)))
  }

  lemma WriteAheadAdds(d: Device, token: string, c: Client, id: nat, writeFails: bool)
    ensures var w := WriteAhead(d, token, c, id, writeFails); w.Some? ==>
        OneReceiptAdded(d, w.value, c) && w.value.running == d.running
  {
  }

  lemma SendingKeepsInv(s: System, d': Device, owner: string, c: Client)
    requires Inv(s) && OwnerOk(s, owner, c) && !s.device.running.Cleaning? && Unfinished(s.device.running) == None
    requires OneReceiptAdded(s.device, d', c)
    requires d'.registrations != s.device.registrations ==> s.device.identity == Some(owner)
    requires d'.running == Idle || (d'.running.Registering? && d'.running.owner == owner && d'.running.sender == c)
    ensures Inv(s.(device := d'))
    ensures forall n :: Inv(s.(device := d', nextId := n))
  {
    forall n ensures Inv(s.(device := d', nextId := n)) {
      forall i | 0 <= i < |d'.registrations| && d'.identity == Some(owner)
          ensures d'.registrations[i].client == Some(c) {
        if i < |s.device.registrations| {
          assert d'.registrations[i] == d'.registrations[..|s.device.registrations|][i];
        }
      }
    }
  }

  lemma BeginRegisterKeepsInv(s: System, token: string, owner: string, c: Client, writeFails: bool)
    requires Inv(s) && OwnerOk(s, owner, c) && !s.device.running.Cleaning? && Unfinished(s.device.running) == None
    ensures forall n :: Inv(s.(device := BeginRegister(s.device, token, owner, c, s.nextId, writeFails), nextId := n))
  {
    WriteAheadAdds(s.device, token, c, s.nextId, writeFails);
    SendingKeepsInv(s, BeginRegister(s.device, token, owner, c, s.nextId, writeFails), owner, c);
  }

  lemma BeginLiveKeepsInv(s: System, owner: string, c: Client, writeFails: bool)
    requires Inv(s) && OwnerOk(s, owner, c) && !s.device.running.Cleaning? && Unfinished(s.device.running) == None
    ensures forall n :: Inv(s.(device := BeginLive(s.device, owner, c, s.nextId, writeFails), nextId := n))
  {
    if s.device.liveToken.Some? {
      BeginRegisterKeepsInv(s, s.device.liveToken.value, owner, c, writeFails);
    } else {
      SendingKeepsInv(s, s.device.(running := Idle), owner, c);
    }
  }

  lemma AuthorizedKeepsInv(s: System, writeFails: bool, liveWriteFails: bool)
    requires Inv(s)
    ensures Inv(Step(s, Authorized(writeFails, liveWriteFails)))
  {
    var d := s.device;
    if d.running.Authorizing? {
      var owner, c := d.running.owner, d.running.sender;
      BeginLiveKeepsInv(s, owner, c, liveWriteFails);
      SendingKeepsInv(s, d.(running := Idle), owner, c);
      if d.identity == Some(owner) && d.deviceToken.Some? {
        WriteAheadAdds(d, d.deviceToken.value, c, s.nextId, writeFails);
        var w := WriteAhead(d, d.deviceToken.value, c, s.nextId, writeFails);
        if w.Some? {
          SendingKeepsInv(s, PushModel.Authorized(d, s.nextId, writeFails, liveWriteFails), owner, c);
        }
      }
    }
  }

  // ---------------------------------------------------------------- running operations

  lemma PopKeepsInv(s: System, running: Running)
    requires Inv(s) && s.device.running == Idle && s.device.waiting != []
    requires
      match s.device.waiting[0]
      case SessionChange(i, c) => running == EndingActivities(i, c)
      case Revocation(_) => running == Cleaning(s.device.waiting[0], s.device.registrations, [], None)
      case Register(_, _, _) => running == Idle
    ensures Inv(s.(device := s.device.(waiting := s.device.waiting[1..], running := running)))
  {
    LastChangePop(s.device.waiting);
  }

  lemma StartKeepsInv(s: System, writeFails: bool)
    requires Inv(s)
    ensures Inv(Step(s, Start(writeFails)))
  {
    var d := s.device;
    var d' := PushModel.Start(d, s.nextId, writeFails);
    assert Step(s, Start(writeFails)) == s.(device := d', nextId := s.nextId + 1);
    NextIdIsFree(s);
    if d.running == Idle && d.waiting != [] {
      match d.waiting[0]
      case Register(t, owner, c) =>
        PopKeepsInv(s, Idle);
        var s1 := s.(device := d.(waiting := d.waiting[1..], running := Idle));
        assert d' == BeginRegister(s1.device, t, owner, c, s.nextId, writeFails);
        BeginRegisterKeepsInv(s1, t, owner, c, writeFails);
      case SessionChange(i, c) =>
        PopKeepsInv(s, EndingActivities(i, c));
        NextIdIsFree(s.(device := d'));
      case Revocation(_) =>
        PopKeepsInv(s, Cleaning(d.waiting[0], d.registrations, [], None));
        NextIdIsFree(s.(device := d'));
    }
  }

  lemma NextIdIsFree(s: System)
    requires Inv(s)
    ensures forall n :: Inv(s.(nextId := n))
  {
  }

  /** While a session change is unfinished, the current identity is not activated. */
  lemma UnfinishedMeansInactive(s: System)
    requires Inv(s) && Unfinished(s.device.running).Some?
    ensures s.device.identity.Some? ==> s.device.identity.value !in s.activated
  {
    if LastChange(s.device.waiting).Some? {
      LastChangeIsWaiting(s.device.waiting);
    }
  }

  /** What retiring a legacy session can touch. */
  lemma PreserveFrame(d: Device, id: nat, failed: FailedReads, writeFails: bool)
    requires !d.running.Cleaning?
    ensures
      var p := PreserveLegacy(d, id, failed, writeFails);
      p.Some? ==> p.value.(registrations := d.registrations, receipts := d.receipts, keychain := d.keychain) == d
  {
  }

  lemma ActivitiesEndedKeepsInv(s: System, failed: FailedReads, writeFails: bool)
    requires Inv(s)
    ensures Inv(Step(s, ActivitiesEnded(failed, writeFails)))
  {
    var d := s.device;
    var d' := PushModel.ActivitiesEnded(d, s.nextId, failed, writeFails);
    assert Step(s, ActivitiesEnded(failed, writeFails)) == s.(device := d', nextId := s.nextId + 1);
    NextIdIsFree(s);
    if d.running.EndingActivities? {
      UnfinishedMeansInactive(s);
      PreserveFrame(d, s.nextId, failed, writeFails);
      assert d'.identity == d.identity && d'.waiting == d.waiting && d'.registrar == d.registrar;
      assert Unfinished(d'.running) == None || Unfinished(d'.running) == Unfinished(d.running);
      assert !d'.running.Authorizing? && !d'.running.Registering?;
    }
  }

  lemma CleanupFinishKeepsInv(s: System)
    requires Inv(s)
    ensures Inv(Step(s, CleanupFinish))
  {
    var d, d' := s.device, PushModel.CleanupFinish(s.device);
    if d' != d {
      assert Step(s, CleanupFinish) == s.(device := d', activated := s.activated + Activation(d));
      if d'.running.Authorizing? { ActivationKeepsInv(s); } else { DeactivationKeepsInv(s); }
    }
  }

  /** The cleanup ends without a new session: nobody is activated, and what remains was there. */
  lemma DeactivationKeepsInv(s: System)
    requires Inv(s) && PushModel.CleanupFinish(s.device) != s.device
    requires !PushModel.CleanupFinish(s.device).running.Authorizing?
    ensures Inv(s.(device := PushModel.CleanupFinish(s.device)))
  {
    var d, d' := s.device, PushModel.CleanupFinish(s.device);
    assert d' == d.(registrations := d.running.remaining, late := [], receipts := d'.receipts, running := d'.running);
    assert Unfinished(d'.running) == None && (d'.running.Idle? || d'.running.LoggingOut?);
    RemainingKeepsInv(s, d');
  }

  lemma RemainingKeepsInv(s: System, d': Device)
    requires Inv(s) && s.device.running.Cleaning? && (d'.running.Idle? || d'.running.LoggingOut?)
    requires d' == s.device.(registrations := s.device.running.remaining, late := [], receipts := d'.receipts,
        running := d'.running)
    ensures Inv(s.(device := d'))
  {
    assert QueueInv(s.(device := d'));
  }

  lemma ActivationKeepsInv(s: System)
    requires Inv(s) && PushModel.CleanupFinish(s.device) != s.device
    requires PushModel.CleanupFinish(s.device).running.Authorizing?
    ensures Inv(s.(device := PushModel.CleanupFinish(s.device), activated := s.activated + Activation(s.device)))
  {
    var d := s.device;
    if LastChange(d.waiting).Some? {
      LastChangeIsWaiting(d.waiting);
      assert false;
    }
    NoChangeWaiting(d.waiting);
  }

  lemma {:induction false} NoChangeWaiting(waiting: seq<Operation>)
    requires LastChange(waiting) == None
    ensures forall i :: 0 <= i < |waiting| ==> !waiting[i].SessionChange?
    decreases |waiting|
  {
    if waiting != [] {
      NoChangeWaiting(waiting[..|waiting| - 1]);
    }
  }

  lemma CleanupTurnKeepsInv(s: System, d': Device)
    requires Inv(s) && s.device.running.Cleaning? && s.device.running.todo != []
    requires d' == s.device.(running := d'.running, keychain := d'.keychain)
    requires d'.running.Cleaning? && d'.running.operation == s.device.running.operation
    requires d'.running.todo == s.device.running.todo || d'.running.todo == s.device.running.todo[1..]
    requires d'.running.remaining == s.device.running.remaining
          || d'.running.remaining == s.device.running.remaining + [s.device.running.todo[0]]
    ensures Inv(s.(device := d'))
  {
  }

  lemma SettleKeepsInv(s: System, seen: Observation, removeFails: bool, liveWriteFails: bool)
    requires Inv(s)
    ensures Inv(Step(s, Settle(seen, removeFails, liveWriteFails)))
  {
    var d := s.device;
    var d' := PushModel.Settle(d, seen, removeFails, s.nextId, liveWriteFails);
    assert Step(s, Settle(seen, removeFails, liveWriteFails)) == s.(device := d', nextId := s.nextId + 1);
    if d' == d {
      NextIdIsFree(s);
    } else if d.running.Cleaning? {
      assert Inv(s.(device := d')) by { CleanupTurnKeepsInv(s, d'); }
      NextIdIsFree(s.(device := d'));
    } else if d.running.Registering? && d.running.thenLive {
      BeginLiveKeepsInv(s, d.running.owner, d.running.sender, liveWriteFails);
    } else {
      assert Inv(s.(device := d')) by { RestKeepsInv(s); }
      NextIdIsFree(s.(device := d'));
    }
  }

  lemma RestKeepsInv(s: System)
    requires Inv(s) && (s.device.running.Registering? || s.device.running.LoggingOut?)
    ensures Inv(s.(device := s.device.(running := Idle)))
  {
  }

  lemma CleanupSendKeepsInv(s: System, readFails: bool)
    requires Inv(s)
    ensures Inv(Step(s, CleanupSend(readFails)))
  {
    var d, d' := s.device, PushModel.CleanupSend(s.device, readFails);
    if d' != d {
      CleanupTurnKeepsInv(s, d');
    }
  }

  /** The servers never touch the device, apart from marking the request answered. */
  lemma AnswerKeepsInv(s: System, refuse: bool)
    requires Inv(s)
    ensures Inv(Step(s, ServerAnswers(refuse)))
  {
    var d, d' := s.device, Step(s, ServerAnswers(refuse)).device;
    assert Unfinished(d'.running) == Unfinished(d.running);
    assert d' == d.(running := d'.running);
  }

  lemma RelaunchKeepsInv(s: System, e: Event)
    requires Inv(s) && (e.Crash? || e.CrashAfterKeychainWrite?)
    ensures Inv(Step(s, e))
  {
  }

  /** All a bootstrap's retirement can touch. */
  lemma RetireTouches(d: Device, id: nat, failed: FailedReads, writeFails: bool)
    ensures
      var d' := PushModel.BootstrapRetire(d, id, failed, writeFails);
      && d' == d.(registrations := d'.registrations, late := d'.late, receipts := d'.receipts, keychain := d'.keychain,
                  migrating := d'.migrating)
      && (d' != d ==> d.identity == None)
  {
  }

  /** Without an identity nothing is promised about who made a receipt. */
  lemma NobodyKeepsInv(s: System, d': Device)
    requires Inv(s) && s.device.identity == None
    requires d' == s.device.(registrations := d'.registrations, late := d'.late, receipts := d'.receipts,
                             keychain := d'.keychain, migrating := d'.migrating)
    ensures Inv(s.(device := d'))
  {
  }

  lemma BootstrapRetireKeepsInv(s: System, failed: FailedReads, writeFails: bool)
    requires Inv(s)
    ensures Inv(Step(s, BootstrapRetire(failed, writeFails)))
  {
    var d' := PushModel.BootstrapRetire(s.device, s.nextId, failed, writeFails);
    RetireTouches(s.device, s.nextId, failed, writeFails);
    NextIdIsFree(s);
    if d' != s.device {
      NobodyKeepsInv(s, d');
      NextIdIsFree(s.(device := d'));
    }
  }

  // ---------------------------------------------------------------- every run

  lemma StepKeepsInv(s: System, e: Event)
    requires Inv(s)
    ensures Inv(Step(s, e))
  {
    match e
    case SetSession(_, _) => QueuedKeepsInv(s, e);
    case Revoke(_) => QueuedKeepsInv(s, e);
    case ReceiveDeviceToken(_) => QueuedKeepsInv(s, e);
    case ReceiveLiveToken(_, _) => QueuedKeepsInv(s, e);
    case Start(wf) => StartKeepsInv(s, wf);
    case ActivitiesEnded(rf, wf) => ActivitiesEndedKeepsInv(s, rf, wf);
    case CleanupSend(rf) => CleanupSendKeepsInv(s, rf);
    case ServerAnswers(refuse) => AnswerKeepsInv(s, refuse);
    case CleanupFinish => CleanupFinishKeepsInv(s);
    case Authorized(wf, lwf) => AuthorizedKeepsInv(s, wf, lwf);
    case Settle(seen, rf, lwf) => SettleKeepsInv(s, seen, rf, lwf);
    case BootstrapRetire(rf, wf) => BootstrapRetireKeepsInv(s, rf, wf);
    case Crash => RelaunchKeepsInv(s, e);
    case CrashAfterKeychainWrite(_) => RelaunchKeepsInv(s, e);
    case _ => ElsewhereKeepsInv(s, e);
  }

  /** Sessions that begin or end and legacy keys that are forgotten do not touch the queue. */
  lemma ElsewhereKeepsInv(s: System, e: Event)
    requires Inv(s) && (e.ForgetLegacyToken? || e.ForgetLegacyServer? || e.SessionMinted? || e.SessionEnds?)
    ensures Inv(Step(s, e))
  {
  }

  lemma QueuedKeepsInv(s: System, e: Event)
    requires Inv(s) && (e.SetSession? || e.Revoke? || e.ReceiveDeviceToken? || e.ReceiveLiveToken?)
    ensures Inv(Step(s, e))
  {
    match e
    case SetSession(i, c) => SetSessionKeepsInv(s, i, c);
    case Revoke(c) => AppendKeepsInv(s, Revocation(c));
    case _ => TokenKeepsInv(s, e);
  }

  lemma {:induction false} RunKeepsInv(s: System, events: seq<Event>)
    requires Inv(s)
    ensures Inv(Run(s, events))
    decreases |events|
  {
    if events != [] {
      StepKeepsInv(s, events[0]);
      RunKeepsInv(Step(s, events[0]), events[1..]);
    }
  }

  /** The step that puts a new registration on the wire. */
  predicate Sends(m: System, e: Event) {
    var r := Step(m, e).device.running;
    r.Registering? && r.post.flight == Sent && r != m.device.running
  }

  /**
   * In every run, when a registration goes out its session is the current identity, and every receipt still outstanding
   * was made by that session's own client, for its server and with its bearer. So no replacement push is registered
   * while an older session's cleanup is unfinished.
   */
  lemma RegistrationsFollowCleanup(s: System, events: seq<Event>, e: Event)
    requires Initial(s) && Sends(Run(s, events), e)
    ensures
      var d := Step(Run(s, events), e).device;
      && d.identity == Some(d.running.owner) && d.running.post.client == d.running.sender
      && (forall i :: 0 <= i < |d.registrations| ==> d.registrations[i].client == Some(d.running.sender))
      && (forall r :: r in d.receipts ==>
            r.server == d.running.sender.server && r.id in d.keychain
                && d.running.sender.token == Some(d.keychain[r.id]))
  {
    var m := Run(s, events);
    var d := Step(m, e).device;
    RunKeepsInv(s, events);
    StepKeepsInv(m, e);
    SenderIsCurrent(m, e);
    assert PushCoverage.Inv(Step(m, e)) by { CoveredStep(s, events, e); }
    ReceiptsAreTheSenders(Step(m, e));
  }

  lemma CoveredStep(s: System, events: seq<Event>, e: Event)
    requires Initial(s)
    ensures PushCoverage.Inv(Step(Run(s, events), e))
  {
    PushCoverage.InitialInv(s);
    PushCoverage.RunKeepsInv(s, events);
    PushCoverage.StepKeepsInv(Run(s, events), e);
  }

  lemma ReceiptsAreTheSenders(s: System)
    requires PushCoverage.Inv(s) && s.device.running.Registering?
    requires forall i :: 0 <= i < |s.device.registrations| ==>
        s.device.registrations[i].client == Some(s.device.running.sender)
    ensures
      var d := s.device;
      forall r :: r in d.receipts ==>
        r.server == d.running.sender.server && r.id in d.keychain && d.running.sender.token == Some(d.keychain[r.id])
  {
    var d := s.device;
    forall r | r in d.receipts
      ensures r.server == d.running.sender.server && r.id in d.keychain
          && d.running.sender.token == Some(d.keychain[r.id])
    {
      var i :| 0 <= i < |d.receipts| && d.receipts[i] == r;
      assert PushCoverage.Backed(d, d.registrations[i]);
    }
  }

  lemma SenderIsCurrent(m: System, e: Event)
    requires Inv(m) && Sends(m, e)
    ensures
      var d := Step(m, e).device;
      d.identity == Some(d.running.owner) && d.running.post.client == d.running.sender
  {
    match e
    case Start(_) =>
    case Authorized(_, _) =>
    case Settle(_, _, _) =>
    case _ =>
  }
}
