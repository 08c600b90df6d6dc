/**
 * The device of PushModel beside the servers it talks to, with every interleaving as a list of events.
 *
 * A server keeps one row per device token (a second registration rebinds it), deletes a row only for the admin and
 * store that own it, and removes a session's rows with the session. A row whose session has ended is never delivered
 * to. A request takes effect at the server before its outcome is seen, or never: an unanswered request dies with the
 * connection. Bearers are minted once. An event that cannot happen in a state leaves it unchanged.
 */
module PushSystem {
  import opened Wrappers
  import opened PushModel

  /** (server, bearer) */
  type SessionKey = (string, string)
  /** (server, device token) */
  type RowKey = (string, string)

  datatype Row = Row(store: Option<string>, bearer: string, admin: nat)

  datatype World = World(sessions: map<SessionKey, nat>, minted: set<SessionKey>, rows: map<RowKey, Row>)

  /**
   * `issued` and `activated` record which client each session identity was handed out with, and which got a
   * registrar.
   */
  datatype System = System(
    device: Device, world: World, nextId: nat, issued: map<string, Option<Client>>, activated: set<string>)

  predicate Deliverable(w: World, k: RowKey) {
    k in w.rows && (k.0, w.rows[k].bearer) in w.sessions
  }

  function EndSession(w: World, key: SessionKey, cascade: bool): World {
    w.(sessions := map s | s in w.sessions && s != key :: w.sessions[s],
       rows := if cascade then map k | k in w.rows && !(k.0 == key.0 && w.rows[k].bearer == key.1) :: w.rows[k]
           else w.rows)
  }

  function Serve(w: World, c: Client, call: Call): (World, Reply) {
    if c.token == None then (w, if call.Logout? then Accepted else Unauthorized)
    else
      var key := (c.server, c.token.value);
      match call
      case Logout => (EndSession(w, key, true), Accepted)
      case PostDevice(t) =>
        if key !in w.sessions then (w, Unauthorized)
        else (w.(rows := w.rows[(c.server, t) := Row(c.store, c.token.value, w.sessions[key])]), Accepted)
      case DeleteDevice(t) =>
        if key !in w.sessions then (w, Unauthorized)
        else
          var k := (c.server, t);
          (if k in w.rows && w.rows[k].store == c.store && w.rows[k].admin == w.sessions[key]
           then w.(rows := map j | j in w.rows && j != k :: w.rows[j]) else w, Accepted)
  }

  datatype Event =
    | SetSession(identity: Option<string>, client: Option<Client>)
    | Revoke(session: Client)
    | ReceiveDeviceToken(token: string)
    | ReceiveLiveToken(expected: string, token: string)
    | Start(writeFails: bool)
    | ActivitiesEnded(failed: FailedReads, writeFails: bool)
    | CleanupSend(readFails: bool)
    | CleanupFinish
    | Authorized(writeFails: bool, liveWriteFails: bool)
    | Settle(seen: Observation, removeFails: bool, liveWriteFails: bool)
    | ServerAnswers(refuse: bool)
    | BootstrapRetire(failed: FailedReads, writeFails: bool)
    | ForgetLegacyToken
    | ForgetLegacyServer
    | Crash
    | CrashAfterKeychainWrite(bearer: string)
    | SessionMinted(server: string, bearer: string, admin: nat)
    | SessionEnds(server: string, bearer: string, cascade: bool)

  function Answer(s: System, refuse: bool): System {
    match InFlight(s.device.running)
    case None => s
    case Some(q) =>
      if q.flight != Sent then s
      else if refuse then s.(device := s.device.(running := WithFlight(s.device.running, Answered(Refused))))
      else
        var (w, reply) := Serve(s.world, q.client, q.call);
        s.(world := w, device := s.device.(running := WithFlight(s.device.running, Answered(reply))))
  }

  /** Which identity becomes activated, if any: the one whose registrar this cleanup installs. */
  function Activation(d: Device): set<string> {
    var d' := PushModel.CleanupFinish(d);
    if d'.running.Authorizing? && !d.running.Authorizing? then {d'.running.owner} else {}
  }

  function Step(s: System, e: Event): System {
    var d := s.device;
    match e
    case SetSession(i, c) =>
      if i.Some? && i.value in s.issued then s   // identities carry a fresh UUID
      else s.(device := PushModel.SetSession(d, i, c), issued := if i.Some? then s.issued[i.value := c] else s.issued)
    case Revoke(c) => s.(device := PushModel.Revoke(d, c))
    case ReceiveDeviceToken(t) => s.(device := PushModel.ReceiveDeviceToken(d, t))
    case ReceiveLiveToken(x, t) => s.(device := PushModel.ReceiveLiveToken(d, x, t))
    case Start(wf) => s.(device := PushModel.Start(d, s.nextId, wf), nextId := s.nextId + 1)
    case ActivitiesEnded(rf, wf) => s.(device := PushModel.ActivitiesEnded(d, s.nextId, rf, wf), nextId := s.nextId + 1)
    case CleanupSend(rf) => s.(device := PushModel.CleanupSend(d, rf))
    case CleanupFinish => s.(device := PushModel.CleanupFinish(d), activated := s.activated + Activation(d))
    case Authorized(wf, lwf) => s.(device := PushModel.Authorized(d, s.nextId, wf, lwf), nextId := s.nextId + 1)
    case Settle(seen, rf, lwf) => s.(device := PushModel.Settle(d, seen, rf, s.nextId, lwf), nextId := s.nextId + 1)
    case ServerAnswers(refuse) => Answer(s, refuse)
    case BootstrapRetire(rf, wf) => s.(device := PushModel.BootstrapRetire(d, s.nextId, rf, wf), nextId := s.nextId + 1)
    case ForgetLegacyToken => s.(device := PushModel.ForgetLegacyToken(d))
    case ForgetLegacyServer => s.(device := PushModel.ForgetLegacyServer(d))
    case Crash => s.(device := Relaunch(d))
    case CrashAfterKeychainWrite(b) =>
      s.(device := Relaunch(d.(keychain := d.keychain[s.nextId := b])), nextId := s.nextId + 1)
    case SessionMinted(v, b, a) =>
      if (v, b) in s.world.minted then s
      else s.(world := s.world.(sessions := s.world.sessions[(v, b) := a], minted := s.world.minted + {(v, b)}))
    case SessionEnds(v, b, cascade) => s.(world := EndSession(s.world, (v, b), cascade))
  }

  function Run(s: System, events: seq<Event>): System
    decreases |events|
  {
    if events == [] then s else Run(Step(s, events[0]), events[1..])
  }

  /** A first launch of this version: no receipts yet, and every deliverable row belongs to the legacy session. */
  ghost predicate Initial(s: System) {
    && s.device == Relaunch(s.device)
    && s.device.receipts == [] && s.device.keychain == map[]
    && s.issued == map[] && s.activated == {}
    && (forall k :: k in s.world.rows ==> (k.0, s.world.rows[k].bearer) in s.world.minted)
    && (forall x :: x in s.world.sessions ==> x in s.world.minted)
    && (forall k :: Deliverable(s.world, k) ==>
          s.world.rows[k].admin == s.world.sessions[(k.0, s.world.rows[k].bearer)]
              && LegacyCovers(s.device, k, s.world.rows[k]))
  }

  // ---------------------------------------------------------------- what covers a row

  predicate ReceiptCovers(d: Device, r: Receipt, k: RowKey, row: Row) {
    && r.id in d.keychain && d.keychain[r.id] == row.bearer && r.server == k.0
    && (r.revokeSession || (r.deviceToken == Some(k.1) && r.store == row.store))
  }

  ghost predicate Covered(d: Device, k: RowKey, row: Row) {
    exists r :: r in d.receipts && ReceiptCovers(d, r, k, row)
  }

  predicate LegacyCovers(d: Device, k: RowKey, row: Row) {
    d.legacyServer == Address(k.0) && d.legacyToken == Some(row.bearer)
  }
}
