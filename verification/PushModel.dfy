/**
 * The push-registration protocol of the iOS app, as a step system.
 *
 * A Device value holds the fields of one PushManager together with what survives a process: the saved receipts, the
 * Keychain and the two legacy keys. The step functions below are the stretches of code between two suspension points;
 * each parameter named `...Fails` is one Keychain call that throws (and then changes nothing), and a FailedReads says
 * it for each read of a step that makes several.
 */
module PushModel {
  import opened Wrappers

  datatype Client = Client(server: string, token: Option<string>, store: Option<string>)

  datatype Receipt = Receipt(
    id: nat, server: string, store: Option<string>, deviceToken: Option<string>, revokeSession: bool)

  datatype Registration = Registration(receipt: Receipt, client: Option<Client>)

  datatype Registrar = Registrar(identity: string, client: Client)

  /** A queued operation. */
  datatype Operation =
    | SessionChange(identity: Option<string>, client: Option<Client>)
    | Register(token: string, owner: string, sender: Client)
    | Revocation(session: Client)

  datatype Call = PostDevice(token: string) | DeleteDevice(token: string) | Logout

  /** What the server decided. Refused stands for every other status, which changes nothing. */
  datatype Reply = Accepted | Unauthorized | Refused

  datatype Flight = Sent | Answered(reply: Reply)

  datatype Request = Request(client: Client, call: Call, flight: Flight)

  /** What the app sees: a success, a 401, or anything else (a timeout, a lost answer, an undecodable body). */
  datatype Observation = Success | Expired | Failure

  /** The operation at the head of the queue, stopped at its current suspension point. */
  datatype Running =
    | Idle
    | EndingActivities(identity: Option<string>, client: Option<Client>)
    | Cleaning(operation: Operation, todo: seq<Registration>, remaining: seq<Registration>, request: Option<Request>)
    | Authorizing(owner: string, sender: Client)
    | Registering(owner: string, sender: Client, thenLive: bool, post: Request)
    | LoggingOut(logout: Request)

  datatype LegacyServer = Absent | Unreadable | Address(server: string)

  /** Which Keychain reads of one step throw: the legacy credential's, and those of these receipts. */
  datatype FailedReads = FailedReads(legacy: bool, receipts: set<nat>)

  /** `late` holds what is appended while a cleanup walks over its own copy of the registrations. */
  datatype Device = Device(
    identity: Option<string>,
    registrar: Option<Registrar>,
    registrations: seq<Registration>,
    waiting: seq<Operation>,
    running: Running,
    deviceToken: Option<string>,
    liveToken: Option<string>,
    migrating: Option<(string, string)>,
    late: seq<Registration>,
    receipts: seq<Receipt>,
    keychain: map<nat, string>,
    legacyServer: LegacyServer,
    legacyToken: Option<string>)

  function Receipts(registrations: seq<Registration>): (receipts: seq<Receipt>)
    ensures |receipts| == |registrations|
    ensures forall i :: 0 <= i < |receipts| ==> receipts[i] == registrations[i].receipt
  {
    seq(|registrations|, i requires 0 <= i < |registrations| => registrations[i].receipt)
  }

  function Restored(receipts: seq<Receipt>): (registrations: seq<Registration>)
    ensures |registrations| == |receipts|
    ensures forall i :: 0 <= i < |receipts| ==> registrations[i] == Registration(receipts[i], None)
  {
    seq(|receipts|, i requires 0 <= i < |receipts| => Registration(receipts[i], None))
  }

  // ---------------------------------------------------------------- main-actor entry points

  function SetSession(d: Device, identity: Option<string>, client: Option<Client>): Device {
    d.(identity := identity, registrar := None, waiting := d.waiting + [SessionChange(identity, client)])
  }

  function Revoke(d: Device, client: Client): Device {
    d.(waiting := d.waiting + [Revocation(client)])
  }

  function CallRegistrar(d: Device, token: string): Device {
    match d.registrar
    case None => d
    case Some(r) => d.(waiting := d.waiting + [Register(token, r.identity, r.client)])
  }

  function ReceiveDeviceToken(d: Device, token: string): Device {
    CallRegistrar(d.(deviceToken := Some(token)), token)
  }

  /** `expected` is the identity the observer was started for; a stale observer may still fire. */
  function ReceiveLiveToken(d: Device, expected: string, token: string): Device {
    if d.identity == Some(expected) then CallRegistrar(d.(liveToken := Some(token)), token) else d
  }

  // ---------------------------------------------------------------- receipts

  function SaveReceipt(d: Device, receipt: Receipt, bearer: string, client: Client): Device {
    d.(keychain := d.keychain[receipt.id := bearer],
       registrations := d.registrations + [Registration(receipt, Some(client))],
       receipts := Receipts(d.registrations + [Registration(receipt, Some(client))]))
  }

  /** The bearer a registration would clean up with; a throwing read counts as none. */
  function BearerOf(d: Device, r: Registration, failed: FailedReads): Option<string> {
    if r.client.Some? && r.client.value.token.Some? then r.client.value.token
    else if r.receipt.id !in failed.receipts && r.receipt.id in d.keychain then Some(d.keychain[r.receipt.id])
    else None
  }

  predicate RetiresSession(d: Device, r: Registration, server: string, bearer: string, failed: FailedReads) {
    r.receipt.revokeSession && r.receipt.server == server && BearerOf(d, r, failed) == Some(bearer)
  }

  predicate RetiredAlready(d: Device, server: string, bearer: string, failed: FailedReads) {
    || (exists r :: r in d.registrations && RetiresSession(d, r, server, bearer, failed))
    || (exists r :: r in d.late && RetiresSession(d, r, server, bearer, failed))
  }

  /** A cleanup under way does not see what is appended now, and drops it when it stores what remains. */
  function SaveLate(d: Device, receipt: Receipt, bearer: string, client: Client): Device {
    d.(keychain := d.keychain[receipt.id := bearer],
       late := d.late + [Registration(receipt, Some(client))],
       receipts := d.receipts + [receipt])
  }

  /** None is a throw. */
  function RetireLegacy(
      d: Device, server: string, bearer: string, id: nat, failed: FailedReads, writeFails: bool): Option<Device> {
    if RetiredAlready(d, server, bearer, failed) then Some(d)
    else if writeFails then None
    else
      var receipt, client := Receipt(id, server, None, None, true), Client(server, Some(bearer), None);
      Some(if d.running.Cleaning? then SaveLate(d, receipt, bearer, client)
          else SaveReceipt(d, receipt, bearer, client))
  }

  function PreserveLegacy(d: Device, id: nat, failed: FailedReads, writeFails: bool): Option<Device> {
    if d.legacyServer == Absent then Some(d)
    else if failed.legacy then None
    else if d.legacyToken == None then Some(d)
    else if d.legacyServer == Unreadable then None
    else RetireLegacy(d, d.legacyServer.server, d.legacyToken.value, id, failed, writeFails)
  }

  // ---------------------------------------------------------------- registration

  predicate AlreadyRegistered(d: Device, token: string, c: Client) {
    exists r :: r in d.registrations && r.receipt.deviceToken == Some(token) && r.receipt.server == c.server
                && (if r.client.Some? then r.client.value.token else None) == c.token && r.receipt.store == c.store
  }

  /** The write-ahead part of one registration. None means the registration stops before anything is sent. */
  function WriteAhead(d: Device, token: string, c: Client, id: nat, writeFails: bool): Option<Device> {
    if AlreadyRegistered(d, token, c) then Some(d)
    else if c.token == None || writeFails then None
    else Some(SaveReceipt(d, Receipt(id, c.server, c.store, Some(token), false), c.token.value, c))
  }

  function BeginRegister(d: Device, token: string, owner: string, c: Client, id: nat, writeFails: bool): Device {
    if d.identity != Some(owner) then d.(running := Idle)
    else match WriteAhead(d, token, c, id, writeFails)
      case None => d.(running := Idle)
      case Some(d') => d'.(running := Registering(owner, c, false, Request(c, PostDevice(token), Sent)))
  }

  /** The second half of a session change: the Live Activity token, if one is known. */
  function BeginLive(d: Device, owner: string, c: Client, id: nat, writeFails: bool): Device {
    if d.liveToken.Some? then BeginRegister(d, d.liveToken.value, owner, c, id, writeFails) else d.(running := Idle)
  }

  // ---------------------------------------------------------------- queue

  function BeginCleanup(d: Device, op: Operation): Device {
    d.(running := Cleaning(op, d.registrations, [], None))
  }

  /** The next queued operation runs up to its first suspension point. */
  function Start(d: Device, id: nat, writeFails: bool): Device {
    if d.running != Idle || d.waiting == [] then d
    else
      var next := d.(waiting := d.waiting[1..]);
      match d.waiting[0]
      case SessionChange(i, c) => next.(running := EndingActivities(i, c))
      case Revocation(c) => BeginCleanup(next, d.waiting[0])
      case Register(t, owner, c) => BeginRegister(next, t, owner, c, id, writeFails)
  }

  function ActivitiesEnded(d: Device, id: nat, failed: FailedReads, writeFails: bool): Device {
    if !d.running.EndingActivities? then d
    else match PreserveLegacy(d, id, failed, writeFails)
      case None => d.(running := Idle)
      case Some(d') => BeginCleanup(d', SessionChange(d.running.identity, d.running.client))
  }

  /** The client a cleanup uses: the captured one, or one rebuilt from the receipt and the Keychain. */
  function CleanupClient(d: Device, r: Registration, readFails: bool): Option<Client> {
    if r.client.Some? then r.client
    else if !readFails && r.receipt.id in d.keychain then
      Some(Client(r.receipt.server, Some(d.keychain[r.receipt.id]), r.receipt.store))
    else None
  }

  function CleanupCall(r: Receipt): Option<Call> {
    if r.revokeSession then Some(Logout)
    else if r.deviceToken.Some? then Some(DeleteDevice(r.deviceToken.value))
    else None
  }

  /** One turn of the cleanup loop up to its request, or to the next turn when there is nothing to send. */
  function CleanupSend(d: Device, readFails: bool): Device {
    if !(d.running.Cleaning? && d.running.todo != [] && d.running.request == None) then d
    else
      var r := d.running.todo[0];
      var client, call := CleanupClient(d, r, readFails), CleanupCall(r.receipt);
      if client.Some? && call.Some? then
        d.(running := d.running.(request := Some(Request(client.value, call.value, Sent))))
      else
        d.(running := d.running.(todo := d.running.todo[1..], remaining := d.running.remaining + [r]))
  }

  function CleanupSettle(d: Device, seen: Observation, removeFails: bool): Device
    requires d.running.Cleaning? && d.running.todo != []
  {
    var r := d.running.todo[0];
    var after := d.running.(todo := d.running.todo[1..], request := None);
    if seen == Failure || removeFails then d.(running := after.(remaining := d.running.remaining + [r]))
    else d.(running := after, keychain := map id | id in d.keychain && id != r.receipt.id :: d.keychain[id])
  }

  function CleanupFinish(d: Device): Device {
    if !(d.running.Cleaning? && d.running.todo == [] && d.running.request == None) then d
    else
      var kept := d.running.remaining;
      var d' := d.(registrations := kept, late := [], receipts := Receipts(kept));
      match d.running.operation
      case Revocation(c) => d'.(running := LoggingOut(Request(c, Logout, Sent)))
      case Register(_, _, _) => d'.(running := Idle)
      case SessionChange(i, c) =>
        if kept == [] && i.Some? && c.Some? && d.identity == i then
          d'.(registrar := Some(Registrar(i.value, c.value)), running := Authorizing(i.value, c.value))
        else d'.(running := Idle)
  }

  function Authorized(d: Device, id: nat, writeFails: bool, liveWriteFails: bool): Device {
    if !d.running.Authorizing? then d
    else
      var owner, c := d.running.owner, d.running.sender;
      if d.identity != Some(owner) then d.(running := Idle)
      else if d.deviceToken.Some? then
        match WriteAhead(d, d.deviceToken.value, c, id, writeFails)
        case None => BeginLive(d, owner, c, id, liveWriteFails)
        case Some(d') => d'.(running := Registering(owner, c, true, Request(c, PostDevice(d.deviceToken.value), Sent)))
      else BeginLive(d, owner, c, id, liveWriteFails)
  }

  // ---------------------------------------------------------------- answers

  function InFlight(r: Running): Option<Request> {
    match r
    case Cleaning(_, _, _, q) => q
    case Registering(_, _, _, q) => Some(q)
    case LoggingOut(q) => Some(q)
    case _ => None
  }

  function WithFlight(r: Running, flight: Flight): Running {
    match r
    case Cleaning(op, todo, remaining, Some(q)) => Cleaning(op, todo, remaining, Some(q.(flight := flight)))
    case Registering(owner, c, live, q) => Registering(owner, c, live, q.(flight := flight))
    case LoggingOut(q) => LoggingOut(q.(flight := flight))
    case _ => r
  }

  /** A success or a 401 is only ever seen after the server answered so; a failure can be seen at any time. */
  predicate CanSee(q: Request, seen: Observation) {
    match seen
    case Success => q.flight == Answered(Accepted)
    case Expired => q.flight == Answered(Unauthorized)
    case Failure => true
  }

  function Settle(d: Device, seen: Observation, removeFails: bool, id: nat, liveWriteFails: bool): Device {
    match InFlight(d.running)
    case None => d
    case Some(q) =>
      if !CanSee(q, seen) then d
      else match d.running
        case Cleaning(_, todo, _, _) => if todo != [] then CleanupSettle(d, seen, removeFails) else d
        case Registering(owner, c, live, _) =>
          if live then BeginLive(d, owner, c, id, liveWriteFails) else d.(running := Idle)
        case _ => d.(running := Idle)
  }

  // ---------------------------------------------------------------- process death and migration

  /** Everything in memory is gone; receipts, Keychain and legacy keys are what they were. */
  function Relaunch(d: Device): Device {
    d.(identity := None, registrar := None, registrations := Restored(d.receipts), waiting := [], running := Idle,
       deviceToken := None, liveToken := None, migrating := None, late := [])
  }

  /** As long as the app is starting, no session has an identity and every operation is a change to none. */
  predicate StillStarting(d: Device) {
    && d.identity == None
    && (|| d.running.Idle? || d.running.EndingActivities? || d.running.Authorizing?
        || (d.running.Cleaning? && d.running.operation.SessionChange?))
  }

  /** The bootstrap migration retires the legacy session, be the queue empty or a cleanup under way. */
  function BootstrapRetire(d: Device, id: nat, failed: FailedReads, writeFails: bool): Device {
    if !StillStarting(d) || !d.legacyServer.Address? || d.legacyToken == None then d
    else match RetireLegacy(d, d.legacyServer.server, d.legacyToken.value, id, failed, writeFails)
      case None => d
      case Some(d') => d'.(migrating := Some((d.legacyServer.server, d.legacyToken.value)))
  }

  function ForgetLegacyToken(d: Device): Device {
    if d.migrating.Some? then d.(legacyToken := None) else d
  }

  function ForgetLegacyServer(d: Device): Device {
    if d.migrating.Some? then d.(legacyServer := Absent) else d
  }
}
