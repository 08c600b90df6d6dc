/** The push manager as the object the app holds, each method proved against its step in PushModel. */
module PushManager {
  import opened Wrappers
  import opened PushModel

  /** How one turn of the cleanup loop goes: the Keychain read, the request, and the Keychain removal. */
  datatype Turn = Turn(readFails: bool, seen: Observation, removeFails: bool)

  predicate Confirmed(d: Device, r: Registration, t: Turn) {
    && CleanupClient(d, r, t.readFails).Some? && CleanupCall(r.receipt).Some?
    && t.seen != Failure && !t.removeFails
  }

  function Without(keychain: map<nat, string>, id: nat): map<nat, string> {
    map k | k in keychain && k != id :: keychain[k]
  }

  /** A turn either drops the registration with its bearer or moves it to what remains. */
  function AfterTurn(d: Device, t: Turn): Device
    requires d.running.Cleaning? && d.running.todo != []
  {
    var r := d.running.todo[0];
    if Confirmed(d, r, t) then
      d.(running := d.running.(todo := d.running.todo[1..]), keychain := Without(d.keychain, r.receipt.id))
    else
      d.(running := d.running.(todo := d.running.todo[1..], remaining := d.running.remaining + [r]))
  }

  /** An uninterrupted turn is the protocol's send step followed, if something was sent, by its settle step. */
  lemma TurnIsSendThenSettle(d: Device, t: Turn)
    requires d.running.Cleaning? && d.running.todo != [] && d.running.request == None
    ensures
      var sent := CleanupSend(d, t.readFails);
      AfterTurn(d, t) == if sent.running.request.Some? then CleanupSettle(sent, t.seen, t.removeFails) else sent
  {
  }

  function AfterTurns(d: Device, turns: seq<Turn>): (d': Device)
    requires d.running.Cleaning? && |turns| == |d.running.todo|
    ensures d'.running.Cleaning? && d'.running.todo == []
    decreases |turns|
  {
    if turns == [] then d else AfterTurns(AfterTurn(d, turns[0]), turns[1..])
  }

  function Unconfirmed(d: Device, rs: seq<Registration>, turns: seq<Turn>): seq<Registration>
    requires |rs| == |turns|
  {
    if rs == [] then []
    else (if Confirmed(d, rs[0], turns[0]) then [] else [rs[0]]) + Unconfirmed(d, rs[1..], turns[1..])
  }

  predicate DistinctReceipts(rs: seq<Registration>) {
    forall i, j :: 0 <= i < j < |rs| ==> rs[i].receipt.id != rs[j].receipt.id
  }

  lemma {:induction false} UnconfirmedFrame(d: Device, d': Device, rs: seq<Registration>, turns: seq<Turn>)
    requires |rs| == |turns|
    requires forall r :: r in rs ==> (r.receipt.id in d.keychain <==> r.receipt.id in d'.keychain)
    ensures Unconfirmed(d, rs, turns) == Unconfirmed(d', rs, turns)
  {
    if rs != [] {
      assert rs[0] in rs;
      UnconfirmedFrame(d, d', rs[1..], turns[1..]);
    }
  }

  /** A turn leaves the bearers of the registrations after it. */
  lemma TurnKeepsOtherBearers(d: Device, t: Turn)
    requires d.running.Cleaning? && d.running.todo != [] && DistinctReceipts(d.running.todo)
    ensures
      var d' := AfterTurn(d, t);
      forall r :: r in d.running.todo[1..] ==> (r.receipt.id in d.keychain <==> r.receipt.id in d'.keychain)
  {
    var rest := d.running.todo[1..];
    forall r | r in rest ensures r.receipt.id != d.running.todo[0].receipt.id {
      var i :| 0 <= i < |rest| && rest[i] == r;
      assert d.running.todo[0].receipt.id != d.running.todo[i + 1].receipt.id;
    }
  }

  lemma TurnUnconfirmed(d: Device, turns: seq<Turn>)
    requires d.running.Cleaning? && |turns| == |d.running.todo| && turns != []
    ensures
      var rest := Unconfirmed(d, d.running.todo[1..], turns[1..]);
      AfterTurn(d, turns[0]).running.remaining + rest == d.running.remaining + Unconfirmed(d, d.running.todo, turns)
  {
  }

  /** A cleanup pass keeps, in order, exactly the registrations whose removal was not confirmed. */
  lemma {:induction false} CleanupKeepsUnconfirmed(d: Device, turns: seq<Turn>)
    requires d.running.Cleaning? && |turns| == |d.running.todo| && DistinctReceipts(d.running.todo)
    ensures AfterTurns(d, turns).running.remaining == d.running.remaining + Unconfirmed(d, d.running.todo, turns)
    decreases |turns|
  {
    if turns == [] {
      assert d.running.remaining + [] == d.running.remaining;
    } else {
      var d' := AfterTurn(d, turns[0]);
      CleanupKeepsUnconfirmed(d', turns[1..]);
      TurnKeepsOtherBearers(d, turns[0]);
      UnconfirmedFrame(d, d', d.running.todo[1..], turns[1..]);
      TurnUnconfirmed(d, turns);
    }
  }

  predicate Matches(r: Registration, token: string, c: Client) {
    && r.receipt.deviceToken == Some(token) && r.receipt.server == c.server && r.receipt.store == c.store
    && (if r.client.Some? then r.client.value.token else None) == c.token
  }

  class Manager {
    var identity: Option<string>
    var registrar: Option<Registrar>
    var registrations: seq<Registration>
    var waiting: seq<Operation>
    var running: Running
    var deviceToken: Option<string>
    var liveToken: Option<string>
    var migrating: Option<(string, string)>
    var late: seq<Registration>
    var receipts: seq<Receipt>
    var keychain: map<nat, string>
    var legacyServer: LegacyServer
    var legacyToken: Option<string>

    function State(): Device
      reads this
    {
      Device(identity, registrar, registrations, waiting, running, deviceToken, liveToken, migrating,
             late, receipts, keychain, legacyServer, legacyToken)
    }

    constructor (
        receipts: seq<Receipt>, keychain: map<nat, string>, legacyServer: LegacyServer, legacyToken: Option<string>)
      ensures State() == Relaunch(State())
      ensures this.receipts == receipts && this.keychain == keychain
      ensures this.legacyServer == legacyServer && this.legacyToken == legacyToken
    {
      identity, registrar, waiting, running := None, None, [], Idle;
      deviceToken, liveToken, migrating, late := None, None, None, [];
      this.receipts, this.keychain := receipts, keychain;
      this.legacyServer, this.legacyToken := legacyServer, legacyToken;
      registrations := Restored(receipts);
    }

    method SetSession(nextIdentity: Option<string>, client: Option<Client>)
      modifies this
      ensures State() == PushModel.SetSession(old(State()), nextIdentity, client)
    {
      identity := nextIdentity;
      registrar := None;
      Enqueue(SessionChange(nextIdentity, client));
    }

    method Enqueue(operation: Operation)
      modifies this`waiting
      ensures waiting == old(waiting) + [operation]
    {
      waiting := waiting + [operation];
    }

    method Revoke(client: Client)
      modifies this
      ensures State() == PushModel.Revoke(old(State()), client)
    {
      Enqueue(Revocation(client));
    }

    method DidRegister(token: string)
      modifies this
      ensures State() == ReceiveDeviceToken(old(State()), token)
    {
      deviceToken := Some(token);
      if registrar.Some? {
        Enqueue(Register(token, registrar.value.identity, registrar.value.client));
      }
    }

    method DidReceiveLiveToken(expectedIdentity: string, token: string)
      modifies this
      ensures State() == ReceiveLiveToken(old(State()), expectedIdentity, token)
    {
      if identity != Some(expectedIdentity) {
        return;
      }
      liveToken := Some(token);
      if registrar.Some? {
        Enqueue(Register(token, registrar.value.identity, registrar.value.client));
      }
    }

    /** The credential is written before the receipt, and the receipt is saved before anything is sent. */
    method SaveWriteAhead(receipt: Receipt, bearer: string, client: Client)
      modifies this
      ensures State() == SaveReceipt(old(State()), receipt, bearer, client)
    {
      keychain := keychain[receipt.id := bearer];
      registrations := registrations + [Registration(receipt, Some(client))];
      receipts := Receipts(registrations);
    }

    /** The same while a cleanup walks over its own copy of the list. */
    method SaveDuringCleanup(receipt: Receipt, bearer: string, client: Client)
      modifies this
      ensures State() == SaveLate(old(State()), receipt, bearer, client)
    {
      keychain := keychain[receipt.id := bearer];
      late := late + [Registration(receipt, Some(client))];
      receipts := receipts + [receipt];
    }

    method RetireLegacySession(server: string, bearer: string, freshId: nat, failed: FailedReads, writeFails: bool)
      returns (threw: bool)
      modifies this
      ensures
        var result := RetireLegacy(old(State()), server, bearer, freshId, failed, writeFails);
        if threw then result == None && State() == old(State()) else result == Some(State())
    {
      var all := registrations + late;
      for i := 0 to |all|
        invariant State() == old(State())
        invariant forall k :: 0 <= k < i ==> !RetiresSession(State(), all[k], server, bearer, failed)
      {
        var r := all[i];
        if r.receipt.revokeSession && r.receipt.server == server && BearerOf(State(), r, failed) == Some(bearer) {
          assert r in registrations || r in late;
          return false;
        }
      }
      assert forall r :: r in registrations || r in late ==> r in all;
      if writeFails {
        return true;
      }
      var receipt, client := Receipt(freshId, server, None, None, true), Client(server, Some(bearer), None);
      if running.Cleaning? {
        SaveDuringCleanup(receipt, bearer, client);
      } else {
        SaveWriteAhead(receipt, bearer, client);
      }
      return false;
    }

    /** The part of `register` before its request; `sends` says whether the request goes out. */
    method PrepareRegistration(token: string, client: Client, freshId: nat, writeFails: bool) returns (sends: bool)
      modifies this
      ensures
        var result := WriteAhead(old(State()), token, client, freshId, writeFails);
        if sends then result == Some(State()) else result == None && State() == old(State())
    {
      var known := false;
      for i := 0 to |registrations|
        invariant State() == old(State())
        invariant known <==> (exists k :: 0 <= k < i && Matches(registrations[k], token, client))
      {
        var r := registrations[i];
        if Matches(r, token, client) {
          known := true;
        }
      }
      assert known <==> AlreadyRegistered(State(), token, client) by {
        assert forall r :: r in registrations <==> (exists k :: 0 <= k < |registrations| && registrations[k] == r);
      }
      if !known {
        if client.token == None || writeFails {
          return false;
        }
        SaveWriteAhead(Receipt(freshId, client.server, client.store, Some(token), false), client.token.value, client);
      }
      return true;
    }

    /** The cleanup loop, building `remaining`; `turns` holds how each turn goes. */
    method CleanupRegistrations(turns: seq<Turn>) returns (clean: bool)
      requires running.Cleaning? && running.todo == registrations && running.remaining == [] && running.request == None
      requires |turns| == |registrations|
      modifies this
      ensures
        var swept := AfterTurns(old(State()), turns);
        && State() == old(State()).(keychain := swept.keychain, registrations := swept.running.remaining, late := [],
                                    receipts := Receipts(swept.running.remaining))
        && clean == (swept.running.remaining == [])
    {
      ghost var start := State();
      var remaining := [];
      for i := 0 to |registrations|
        invariant State() == start.(keychain := keychain)
        invariant AfterTurns(Sweeping(start, keychain, registrations[i..], remaining), turns[i..]) ==
            AfterTurns(start, turns)
      {
        var r := registrations[i];
        assert registrations[i..][1..] == registrations[i + 1..] && turns[i..][1..] == turns[i + 1..];
        ghost var now := Sweeping(start, keychain, registrations[i..], remaining);
        assert AfterTurns(now, turns[i..]) == AfterTurns(AfterTurn(now, turns[i]), turns[i + 1..]);
        var client := CleanupClient(State(), r, turns[i].readFails);
        assert client == CleanupClient(now, r, turns[i].readFails);
        if client.Some? && CleanupCall(r.receipt).Some? && turns[i].seen != Failure && !turns[i].removeFails {
          keychain := Without(keychain, r.receipt.id);
        } else {
          remaining := remaining + [r];
        }
        assert AfterTurn(now, turns[i]) == Sweeping(start, keychain, registrations[i + 1..], remaining);
      }
      registrations, late := remaining, [];
      receipts := Receipts(registrations);
      clean := remaining == [];
    }

    /** One turn up to its request, which is then awaited, or to the next turn when there is nothing to send. */
    method SendCleanup(readFails: bool)
      requires running.Cleaning? && running.todo != [] && running.request == None
      modifies this`running
      ensures State() == CleanupSend(old(State()), readFails)
    {
      var r := running.todo[0];
      var client, call := CleanupClient(State(), r, readFails), CleanupCall(r.receipt);
      if client.Some? && call.Some? {
        running := running.(request := Some(Request(client.value, call.value, Sent)));
      } else {
        running := running.(todo := running.todo[1..], remaining := running.remaining + [r]);
      }
    }

    /** The rest of a turn, once its request has an outcome. */
    method SettleCleanup(seen: Observation, removeFails: bool)
      requires running.Cleaning? && running.todo != []
      modifies this`running, this`keychain
      ensures State() == CleanupSettle(old(State()), seen, removeFails)
    {
      var r := running.todo[0];
      running := running.(todo := running.todo[1..], request := None);
      if seen == Failure || removeFails {
        running := running.(remaining := running.remaining + [r]);
      } else {
        keychain := Without(keychain, r.receipt.id);
      }
    }

    /** What is left is stored, and the operation that wanted the cleanup goes on. */
    method FinishCleanup()
      requires running.Cleaning? && running.todo == [] && running.request == None
      modifies this
      ensures State() == CleanupFinish(old(State()))
    {
      var remaining := running.remaining;
      registrations, late := remaining, [];
      receipts := Receipts(registrations);
      match running.operation {
        case Revocation(session) => running := LoggingOut(Request(session, Logout, Sent));
        case Register(_, _, _) => running := Idle;
        case SessionChange(next, client) =>
          if remaining == [] && next.Some? && client.Some? && identity == next {
            registrar := Some(Registrar(next.value, client.value));
            running := Authorizing(next.value, client.value);
          } else {
            running := Idle;
          }
      }
    }
  }

  /** `start` with the cleanup at a later turn. */
  ghost function Sweeping(
      start: Device, keychain: map<nat, string>, todo: seq<Registration>, remaining: seq<Registration>): Device
    requires start.running.Cleaning?
  {
    start.(keychain := keychain, running := start.running.(todo := todo, remaining := remaining))
  }
}
