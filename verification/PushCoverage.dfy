/**
 * No orphaned device row: in every run, each deliverable row is covered by a saved receipt that can still remove it.
 */
module PushCoverage {
  import opened Wrappers
  import opened PushModel
  import opened PushSystem

  // ---------------------------------------------------------------- the invariant

  ghost predicate FreshIds(d: Device, nextId: nat) {
    && (forall i, j :: 0 <= i < j < |d.receipts| ==> d.receipts[i].id != d.receipts[j].id)
    && (forall r :: r in d.receipts ==> r.id < nextId)
    && (forall id :: id in d.keychain ==> id < nextId)
  }

  /** A captured client agrees with the receipt and with the bearer kept for it. */
  predicate Backed(d: Device, r: Registration) {
    r.client.Some? ==>
      && r.receipt.id in d.keychain && r.client.value.token == Some(d.keychain[r.receipt.id])
      && r.client.value.server == r.receipt.server
      && (r.receipt.revokeSession || r.client.value.store == r.receipt.store)
  }

  predicate AllBacked(d: Device, rs: seq<Registration>) {
    forall i :: 0 <= i < |rs| ==> Backed(d, rs[i])
  }

  /** While a cleanup runs, what it has passed is either kept or its bearer is gone. */
  predicate CleanupShape(d: Device)
    requires d.running.Cleaning?
  {
    var n := |d.registrations| - |d.running.todo|;
    var remaining := d.running.remaining;
    && n >= 0 && d.registrations[n..] == d.running.todo
    && AllBacked(d, d.running.todo) && AllBacked(d, remaining)
    && (forall i :: 0 <= i < n ==> d.registrations[i] in remaining || d.registrations[i].receipt.id !in d.keychain)
    && (forall r :: r in remaining ==> r in d.registrations[..n])
    && (forall i, j :: 0 <= i < j < |remaining| ==> remaining[i].receipt.id != remaining[j].receipt.id)
    && (d.running.request.Some? ==> d.running.todo != [])
  }

  predicate CleanupRequest(d: Device, r: Receipt, q: Request) {
    && r.id in d.keychain && q.client.token == Some(d.keychain[r.id]) && q.client.server == r.server
    && (r.revokeSession || q.client.store == r.store)
    && CleanupCall(r) == Some(q.call)
  }

  ghost predicate NothingLeft(d: Device, w: World, r: Receipt) {
    forall k :: Deliverable(w, k) ==> !ReceiptCovers(d, r, k, w.rows[k])
  }

  ghost predicate RequestOk(d: Device, w: World) {
    match d.running
    case Cleaning(_, todo, _, Some(q)) =>
      todo != [] ==>
        && CleanupRequest(d, todo[0].receipt, q)
        && ((q.flight == Answered(Accepted) || q.flight == Answered(Unauthorized)) ==>
            NothingLeft(d, w, todo[0].receipt))
    case Registering(_, c, _, q) =>
      && q.client == c && q.call.PostDevice?
      && (c.token.Some? ==> forall admin ::
            Covered(d, (c.server, q.call.token), Row(c.store, c.token.value, admin)))
    case LoggingOut(q) => q.call == Logout
    case _ => true
  }

  ghost predicate WorldOk(w: World) {
    && (forall k :: k in w.rows ==> (k.0, w.rows[k].bearer) in w.minted)
    && (forall x :: x in w.sessions ==> x in w.minted)
    && (forall k :: Deliverable(w, k) ==> w.rows[k].admin == w.sessions[(k.0, w.rows[k].bearer)])
  }

  ghost predicate RowsCovered(d: Device, w: World) {
    forall k :: Deliverable(w, k) ==> Covered(d, k, w.rows[k]) || LegacyCovers(d, k, w.rows[k])
  }

  /** Once a bootstrap has retired the legacy session, its rows no longer depend on the legacy keys. */
  ghost predicate MigrationCovered(d: Device, w: World) {
    d.migrating.Some? ==> forall k :: Deliverable(w, k) && d.migrating == Some((k.0, w.rows[k].bearer)) ==>
        Covered(d, k, w.rows[k])
  }

  ghost predicate MigrationOk(d: Device) {
    d.migrating.Some? ==>
      && (d.legacyServer.Address? ==> d.legacyServer.server == d.migrating.value.0)
      && (d.legacyToken.Some? ==> d.legacyToken.value == d.migrating.value.1)
  }

  /** The saved receipts are those of the registrations and of what was appended during a cleanup. */
  predicate ReceiptsOk(d: Device) {
    && |d.receipts| == |d.registrations| + |d.late|
    && (forall i :: 0 <= i < |d.registrations| ==> d.receipts[i] == d.registrations[i].receipt)
    && (forall i :: 0 <= i < |d.late| ==> d.receipts[|d.registrations| + i] == d.late[i].receipt)
  }

  /** Covered by a registration that the end of a cleanup can keep. */
  predicate CoveredByRegistration(d: Device, k: RowKey, row: Row) {
    exists i :: 0 <= i < |d.registrations| && ReceiptCovers(d, d.registrations[i].receipt, k, row)
  }

  /** A cleanup for a session change runs only with the legacy session retired. */
  ghost predicate LegacyDone(d: Device, w: World) {
    forall k :: Deliverable(w, k) && LegacyCovers(d, k, w.rows[k]) ==> CoveredByRegistration(d, k, w.rows[k])
  }

  /** What was appended during a cleanup covers nothing that is not covered without it. */
  ghost predicate LateOk(d: Device, w: World) {
    forall k, i :: Deliverable(w, k) && 0 <= i < |d.late| && ReceiptCovers(d, d.late[i].receipt, k, w.rows[k]) ==>
      CoveredByRegistration(d, k, w.rows[k])
  }

  ghost predicate LateInv(d: Device, w: World) {
    d.running.Cleaning? ==> LateOk(d, w) && (d.running.operation.SessionChange? ==> LegacyDone(d, w))
  }

  ghost predicate DeviceOk(d: Device, nextId: nat) {
    && ReceiptsOk(d) && (!d.running.Cleaning? ==> d.late == [])
    && FreshIds(d, nextId)
    && (if d.running.Cleaning? then CleanupShape(d) else AllBacked(d, d.registrations))
    && MigrationOk(d)
  }

  ghost predicate Inv(s: System) {
    && DeviceOk(s.device, s.nextId)
    && WorldOk(s.world)
    && RequestOk(s.device, s.world)
    && LateInv(s.device, s.world)
    && RowsCovered(s.device, s.world)
    && MigrationCovered(s.device, s.world)
  }

  /** Whatever a cleanup relies on stays when it goes on, rows go and legacy keys are forgotten. */
  lemma LateFrame(d: Device, w: World, d': Device, w': World)
    requires LateInv(d, w)
    requires d'.running.Cleaning? ==>
      && d.running.Cleaning? && d'.registrations == d.registrations && d'.late == d.late && d'.keychain == d.keychain
      && (d'.running.operation.SessionChange? ==> d.running.operation.SessionChange?)
    requires d'.legacyServer == d.legacyServer || !d'.legacyServer.Address?
    requires d'.legacyToken == d.legacyToken || d'.legacyToken == None
    requires forall k :: Deliverable(w', k) ==> Deliverable(w, k) && w'.rows[k] == w.rows[k]
    ensures LateInv(d', w')
  {
    if d'.running.Cleaning? {
      assert forall r, k, row :: ReceiptCovers(d', r, k, row) <==> ReceiptCovers(d, r, k, row);
      assert forall k, row :: CoveredByRegistration(d', k, row) <==> CoveredByRegistration(d, k, row);
      assert forall k, row :: LegacyCovers(d', k, row) ==> LegacyCovers(d, k, row);
    }
  }

  // ---------------------------------------------------------------- saving a receipt

  /** The device keeps its receipts and bearers, and its running operation may only have been replaced. */
  predicate SameStore(d: Device, d': Device) {
    && d'.registrations == d.registrations && d'.late == d.late && d'.receipts == d.receipts
        && d'.keychain == d.keychain
    && d'.legacyServer == d.legacyServer && d'.legacyToken == d.legacyToken && d'.migrating == d.migrating
  }

  lemma SavedReceiptKeepsInv(s: System, receipt: Receipt, bearer: string, c: Client)
    requires Inv(s) && Still(s.device.running)
    requires receipt.id == s.nextId && c.token == Some(bearer) && c.server == receipt.server
    requires receipt.revokeSession || c.store == receipt.store
    ensures Inv(s.(device := SaveReceipt(s.device, receipt, bearer, c), nextId := s.nextId + 1))
    ensures receipt in SaveReceipt(s.device, receipt, bearer, c).receipts
  {
    var d := s.device;
    var d' := SaveReceipt(d, receipt, bearer, c);
    assert d.receipts == Receipts(d.registrations);
    assert d'.receipts == d.receipts + [receipt];
    assert forall r :: r in d.receipts ==> r in d'.receipts && r.id != receipt.id;
    forall k | Deliverable(s.world, k) && Covered(d, k, s.world.rows[k]) ensures Covered(d', k, s.world.rows[k]) {
      var r :| r in d.receipts && ReceiptCovers(d, r, k, s.world.rows[k]);
      assert ReceiptCovers(d', r, k, s.world.rows[k]);
    }
    forall i | 0 <= i < |d.registrations| ensures Backed(d', d.registrations[i]) {
      assert d.receipts[i] == d.registrations[i].receipt;
      assert Backed(d, d.registrations[i]);
    }
  }

  predicate Still(r: Running) {
    r.Idle? || r.EndingActivities? || r.Authorizing?
  }

  /** Replacing a finished operation by one without a request keeps everything. */
  lemma QuietKeepsInv(s: System, d': Device)
    requires Inv(s) && SameStore(s.device, d')
    requires !s.device.running.Cleaning? && Still(d'.running)
    ensures forall n :: n >= s.nextId ==> Inv(s.(device := d', nextId := n))
  {
    assert forall k :: Deliverable(s.world, k) ==>
        (Covered(d', k, s.world.rows[k]) <==> Covered(s.device, k, s.world.rows[k]));
    assert forall i :: 0 <= i < |d'.registrations| ==> Backed(s.device, d'.registrations[i]) ==>
        Backed(d', d'.registrations[i]);
  }

  /** The rows of the legacy session are covered without its keys. */
  ghost predicate LegacyRetired(d: Device, w: World) {
    forall k :: Deliverable(w, k) && LegacyCovers(d, k, w.rows[k]) ==> Covered(d, k, w.rows[k])
  }

  lemma CoveredWithoutLate(d: Device, k: RowKey, row: Row)
    requires ReceiptsOk(d) && d.late == [] && Covered(d, k, row)
    ensures CoveredByRegistration(d, k, row)
  {
    var r :| r in d.receipts && ReceiptCovers(d, r, k, row);
    var i :| 0 <= i < |d.receipts| && d.receipts[i] == r;
    assert ReceiptCovers(d, d.registrations[i].receipt, k, row);
  }

  lemma BeginCleanupKeepsInv(s: System, op: Operation)
    requires Inv(s) && !s.device.running.Cleaning?
    requires op.SessionChange? ==> LegacyRetired(s.device, s.world)
    ensures Inv(s.(device := BeginCleanup(s.device, op)))
  {
    var d, d' := s.device, BeginCleanup(s.device, op);
    assert d'.registrations[0..] == d'.running.todo;
    assert LateInv(d', s.world) by { BegunLate(s, op); }
    assert forall k :: Deliverable(s.world, k) ==>
        (Covered(d', k, s.world.rows[k]) <==> Covered(d, k, s.world.rows[k]));
    assert forall i :: 0 <= i < |d.registrations| ==> Backed(d, d.registrations[i]) && Backed(d', d.registrations[i]);
  }

  lemma BegunLate(s: System, op: Operation)
    requires Inv(s) && !s.device.running.Cleaning?
    requires op.SessionChange? ==> LegacyRetired(s.device, s.world)
    ensures LateInv(BeginCleanup(s.device, op), s.world)
  {
    var d, d' := s.device, BeginCleanup(s.device, op);
    assert forall r, k, row :: ReceiptCovers(d', r, k, row) <==> ReceiptCovers(d, r, k, row);
    forall k | op.SessionChange? && Deliverable(s.world, k) && LegacyCovers(d', k, s.world.rows[k])
      ensures CoveredByRegistration(d', k, s.world.rows[k])
    {
      CoveredWithoutLate(d, k, s.world.rows[k]);
    }
  }

  // ---------------------------------------------------------------- registrations

  ghost predicate PostCovered(d: Device, token: string, c: Client) {
    c.token.Some? ==> forall admin :: Covered(d, (c.server, token), Row(c.store, c.token.value, admin))
  }

  lemma WriteAheadKeepsInv(s: System, token: string, c: Client, writeFails: bool)
    requires Inv(s) && Still(s.device.running)
    ensures
      var w := WriteAhead(s.device, token, c, s.nextId, writeFails);
      w.Some? ==> Inv(s.(device := w.value, nextId := s.nextId + 1)) && PostCovered(w.value, token, c)
  {
    var d := s.device;
    if AlreadyRegistered(d, token, c) {
      QuietKeepsInv(s, d);
      if c.token.Some? {
        var i :| 0 <= i < |d.registrations| && d.registrations[i].receipt.deviceToken == Some(token)
          && d.registrations[i].receipt.server == c.server && d.registrations[i].receipt.store == c.store
          && (if d.registrations[i].client.Some? then d.registrations[i].client.value.token else None) == c.token;
        assert Backed(d, d.registrations[i]);
        assert d.receipts[i] in d.receipts;
        forall admin ensures Covered(d, (c.server, token), Row(c.store, c.token.value, admin)) {
          assert ReceiptCovers(d, d.receipts[i], (c.server, token), Row(c.store, c.token.value, admin));
        }
      }
    } else if c.token.Some? && !writeFails {
      var receipt := Receipt(s.nextId, c.server, c.store, Some(token), false);
      SavedReceiptKeepsInv(s, receipt, c.token.value, c);
      var d' := SaveReceipt(d, receipt, c.token.value, c);
      forall admin ensures Covered(d', (c.server, token), Row(c.store, c.token.value, admin)) {
        assert ReceiptCovers(d', receipt, (c.server, token), Row(c.store, c.token.value, admin));
      }
    }
  }

  lemma SendKeepsInv(s: System, owner: string, c: Client, live: bool, token: string)
    requires Inv(s) && Still(s.device.running)
    requires PostCovered(s.device, token, c)
    ensures Inv(s.(device := s.device.(running := Registering(owner, c, live, Request(c, PostDevice(token), Sent)))))
  {
    var d := s.device;
    var d' := d.(running := Registering(owner, c, live, Request(c, PostDevice(token), Sent)));
    assert forall k, row :: Covered(d, k, row) ==> Covered(d', k, row) by {
      forall k, row | Covered(d, k, row) ensures Covered(d', k, row) {
        var r :| r in d.receipts && ReceiptCovers(d, r, k, row);
        assert ReceiptCovers(d', r, k, row);
      }
    }
    assert AllBacked(d', d'.registrations) by {
      assert forall i :: 0 <= i < |d.registrations| ==> Backed(d, d.registrations[i]) && Backed(d', d.registrations[i]);
    }
  }

  lemma BeginRegisterKeepsInv(s: System, token: string, owner: string, c: Client, writeFails: bool)
    requires Inv(s) && !s.device.running.Cleaning?
    ensures Inv(s.(device := BeginRegister(s.device, token, owner, c, s.nextId, writeFails), nextId := s.nextId + 1))
  {
    var idle := s.device.(running := Idle);
    QuietKeepsInv(s, idle);
    assert BeginRegister(s.device, token, owner, c, s.nextId, writeFails)
        == BeginRegister(idle, token, owner, c, s.nextId, writeFails);
    if idle.identity == Some(owner) {
      WriteAheadKeepsInv(s.(device := idle), token, c, writeFails);
      var w := WriteAhead(idle, token, c, s.nextId, writeFails);
      if w.Some? {
        SendKeepsInv(s.(device := w.value, nextId := s.nextId + 1), owner, c, false, token);
      } else {
        assert BeginRegister(idle, token, owner, c, s.nextId, writeFails) == idle;
      }
    }
  }

  lemma BeginLiveKeepsInv(s: System, owner: string, c: Client, writeFails: bool)
    requires Inv(s) && !s.device.running.Cleaning?
    ensures Inv(s.(device := BeginLive(s.device, owner, c, s.nextId, writeFails), nextId := s.nextId + 1))
  {
    if s.device.liveToken.Some? {
      BeginRegisterKeepsInv(s, s.device.liveToken.value, owner, c, writeFails);
    } else {
      QuietKeepsInv(s, s.device.(running := Idle));
    }
  }

  lemma AuthorizedKeepsInv(s: System, writeFails: bool, liveWriteFails: bool)
    requires Inv(s)
    ensures Inv(Step(s, Authorized(writeFails, liveWriteFails)))
  {
    var d := s.device;
    var t := Step(s, Authorized(writeFails, liveWriteFails));
    if !d.running.Authorizing? {
      QuietKeepsInvOrCleaning(s);
    } else if d.identity != Some(d.running.owner) {
      QuietKeepsInv(s, d.(running := Idle));
      assert t == s.(device := d.(running := Idle), nextId := s.nextId + 1);
    } else {
      var owner, c := d.running.owner, d.running.sender;
      var w := if d.deviceToken.Some? then WriteAhead(d, d.deviceToken.value, c, s.nextId, writeFails) else None;
      if w == None {
        BeginLiveKeepsInv(s, owner, c, liveWriteFails);
      } else {
        var s1 := s.(device := w.value, nextId := s.nextId + 1);
        WriteAheadKeepsRunning(d, d.deviceToken.value, c, s.nextId, writeFails);
        WriteAheadKeepsInv(s, d.deviceToken.value, c, writeFails);
        SendKeepsInv(s1, owner, c, true, d.deviceToken.value);
      }
    }
  }

  lemma WriteAheadKeepsRunning(d: Device, token: string, c: Client, id: nat, writeFails: bool)
    ensures
      var w := WriteAhead(d, token, c, id, writeFails);
      w.Some? ==> w.value.running == d.running
  {
  }

  /** Passing an id by changes nothing. */
  lemma QuietKeepsInvOrCleaning(s: System)
    requires Inv(s)
    ensures Inv(s.(nextId := s.nextId + 1))
  {
  }

  // ---------------------------------------------------------------- legacy sessions

  lemma RetireKeepsInv(s: System, server: string, bearer: string, failed: FailedReads, writeFails: bool)
    requires Inv(s) && Still(s.device.running)
    ensures
      var r := RetireLegacy(s.device, server, bearer, s.nextId, failed, writeFails);
      r.Some? ==>
        && Inv(s.(device := r.value, nextId := s.nextId + 1))
        && forall k: RowKey, row: Row :: k.0 == server && row.bearer == bearer ==> Covered(r.value, k, row)
  {
    var d := s.device;
    if RetiredAlready(d, server, bearer, failed) {
      QuietKeepsInv(s, d);
      var i :| 0 <= i < |d.registrations| && RetiresSession(d, d.registrations[i], server, bearer, failed);
      assert Backed(d, d.registrations[i]);
      assert d.receipts[i] in d.receipts;
      forall k: RowKey, row: Row | k.0 == server && row.bearer == bearer ensures Covered(d, k, row) {
        assert ReceiptCovers(d, d.receipts[i], k, row);
      }
    } else if !writeFails {
      var receipt := Receipt(s.nextId, server, None, None, true);
      var c := Client(server, Some(bearer), None);
      SavedReceiptKeepsInv(s, receipt, bearer, c);
      var d' := SaveReceipt(d, receipt, bearer, c);
      forall k: RowKey, row: Row | k.0 == server && row.bearer == bearer ensures Covered(d', k, row) {
        assert ReceiptCovers(d', receipt, k, row);
      }
    }
  }

  lemma PreserveKeepsInv(s: System, failed: FailedReads, writeFails: bool)
    requires Inv(s) && Still(s.device.running)
    ensures
      var p := PreserveLegacy(s.device, s.nextId, failed, writeFails);
      p.Some? ==> Inv(s.(device := p.value, nextId := s.nextId + 1)) && LegacyRetired(p.value, s.world)
  {
    var d := s.device;
    QuietKeepsInvOrCleaning(s);
    if d.legacyServer.Address? && d.legacyToken.Some? {
      RetireKeepsInv(s, d.legacyServer.server, d.legacyToken.value, failed, writeFails);
    }
  }

  /** Nothing that is saved names the operation that is running. */
  lemma PreserveRunning(d: Device, id: nat, failed: FailedReads, writeFails: bool)
    ensures
      var p := PreserveLegacy(d, id, failed, writeFails);
      p.Some? ==> p.value.running == d.running
  {
  }

  lemma ActivitiesEndedKeepsInv(s: System, failed: FailedReads, writeFails: bool)
    requires Inv(s)
    ensures Inv(Step(s, ActivitiesEnded(failed, writeFails)))
  {
    var d := s.device;
    var t := Step(s, ActivitiesEnded(failed, writeFails));
    if !d.running.EndingActivities? {
      QuietKeepsInvOrCleaning(s);
    } else {
      var p := PreserveLegacy(d, s.nextId, failed, writeFails);
      if p == None {
        QuietKeepsInv(s, d.(running := Idle));
        assert t == s.(device := d.(running := Idle), nextId := s.nextId + 1);
      } else {
        var s1 := s.(device := p.value, nextId := s.nextId + 1);
        var op := SessionChange(d.running.identity, d.running.client);
        PreserveRunning(d, s.nextId, failed, writeFails);
        assert Inv(s1) && LegacyRetired(s1.device, s1.world) by { PreserveKeepsInv(s, failed, writeFails); }
        assert t == s1.(device := BeginCleanup(s1.device, op));
        BeginCleanupKeepsInv(s1, op);
      }
    }
  }

  /** Noting which session was retired keeps everything, once all its rows are covered. */
  lemma MigratingKeepsInv(s: System, server: string, bearer: string)
    requires Inv(s) && Still(s.device.running)
    requires s.device.legacyServer.Address? && s.device.legacyServer.server == server
        && s.device.legacyToken == Some(bearer)
    requires forall k: RowKey, row: Row :: k.0 == server && row.bearer == bearer ==> Covered(s.device, k, row)
    ensures Inv(s.(device := s.device.(migrating := Some((server, bearer)))))
  {
    var d, d' := s.device, s.device.(migrating := Some((server, bearer)));
    assert forall k, row :: Covered(d, k, row) ==> Covered(d', k, row) by {
      forall k, row | Covered(d, k, row) ensures Covered(d', k, row) {
        var x :| x in d.receipts && ReceiptCovers(d, x, k, row);
        assert ReceiptCovers(d', x, k, row);
      }
    }
    assert forall i :: 0 <= i < |d.registrations| ==> Backed(d, d.registrations[i]) && Backed(d', d.registrations[i]);
  }

  lemma RetireKeepsLegacy(d: Device, server: string, bearer: string, id: nat, failed: FailedReads, writeFails: bool)
    ensures
      var r := RetireLegacy(d, server, bearer, id, failed, writeFails);
      r.Some? ==>
        && r.value.running == d.running
        && r.value.legacyServer == d.legacyServer
        && r.value.legacyToken == d.legacyToken
  {
  }

  /** Retiring with no cleanup under way. */
  lemma IdleRetireKeepsInv(s: System, failed: FailedReads, writeFails: bool)
    requires Inv(s) && Still(s.device.running) && s.device.legacyServer.Address? && s.device.legacyToken.Some?
    ensures
      var d := s.device;
      var server, bearer := d.legacyServer.server, d.legacyToken.value;
      var r := RetireLegacy(d, server, bearer, s.nextId, failed, writeFails);
      r.Some? ==> Inv(s.(device := r.value.(migrating := Some((server, bearer))), nextId := s.nextId + 1))
  {
    var d := s.device;
    var server, bearer := d.legacyServer.server, d.legacyToken.value;
    var r := RetireLegacy(d, server, bearer, s.nextId, failed, writeFails);
    if r.Some? {
      RetireKeepsLegacy(d, server, bearer, s.nextId, failed, writeFails);
      RetireKeepsInv(s, server, bearer, failed, writeFails);
      MigratingKeepsInv(s.(device := r.value, nextId := s.nextId + 1), server, bearer);
    }
  }

  lemma RegistrationCovers(d: Device, k: RowKey, row: Row)
    requires ReceiptsOk(d) && CoveredByRegistration(d, k, row)
    ensures Covered(d, k, row)
  {
    var i :| 0 <= i < |d.registrations| && ReceiptCovers(d, d.registrations[i].receipt, k, row);
    assert d.receipts[i] in d.receipts;
  }

  /** A bearer written under a new id touches nothing that is there. */
  lemma FreshBearerFrame(d: Device, nextId: nat, bearer: string)
    requires DeviceOk(d, nextId)
    ensures
      var d' := d.(keychain := d.keychain[nextId := bearer]);
      && (forall r: Receipt, k, row :: r.id != nextId ==>
          (ReceiptCovers(d', r, k, row) <==> ReceiptCovers(d, r, k, row)))
      && (forall r: Registration :: r.receipt.id != nextId ==> (Backed(d', r) <==> Backed(d, r)))
      && (forall i :: 0 <= i < |d.receipts| ==> d.receipts[i].id != nextId)
      && (forall i :: 0 <= i < |d.registrations| ==> d.registrations[i].receipt.id != nextId)
  {
    forall i | 0 <= i < |d.receipts| ensures d.receipts[i].id != nextId { assert d.receipts[i] in d.receipts; }
    forall i | 0 <= i < |d.registrations| ensures d.registrations[i].receipt.id != nextId {
      assert d.receipts[i].id != nextId;
    }
  }

  lemma FreshBearerShape(d: Device, nextId: nat, bearer: string)
    requires DeviceOk(d, nextId) && d.running.Cleaning?
    ensures CleanupShape(d.(keychain := d.keychain[nextId := bearer]))
  {
    var d' := d.(keychain := d.keychain[nextId := bearer]);
    FreshBearerFrame(d, nextId, bearer);
    var n := |d.registrations| - |d.running.todo|;
    forall i | 0 <= i < |d.running.todo| ensures Backed(d', d.running.todo[i]) {
      assert d.running.todo[i] == d.registrations[n..][i] == d.registrations[n + i];
      assert Backed(d, d.running.todo[i]);
    }
    forall i | 0 <= i < |d.running.remaining| ensures Backed(d', d.running.remaining[i]) {
      assert d.running.remaining[i] in d.registrations[..n];
      var j :| 0 <= j < n && d.registrations[j] == d.running.remaining[i];
      assert Backed(d, d.running.remaining[i]);
    }
  }

  lemma FreshBearerRequest(d: Device, w: World, nextId: nat, bearer: string)
    requires DeviceOk(d, nextId) && d.running.Cleaning? && RequestOk(d, w)
    ensures RequestOk(d.(keychain := d.keychain[nextId := bearer]), w)
  {
    FreshBearerFrame(d, nextId, bearer);
    if d.running.todo != [] {
      var n := |d.registrations| - |d.running.todo|;
      assert d.running.todo[0] == d.registrations[n..][0] == d.registrations[n];
      assert d.receipts[n].id != nextId;
    }
  }

  /** Appending during a cleanup for a session change: the legacy session is retired already. */
  lemma SaveLateKeepsInv(s: System, receipt: Receipt, bearer: string, c: Client)
    requires Inv(s) && s.device.running.Cleaning? && s.device.running.operation.SessionChange?
    requires s.device.legacyServer == Address(receipt.server) && s.device.legacyToken == Some(bearer)
    requires receipt.id == s.nextId && receipt.revokeSession
    ensures Inv(s.(device := SaveLate(s.device, receipt, bearer, c), nextId := s.nextId + 1))
  {
    var d, d' := s.device, SaveLate(s.device, receipt, bearer, c);
    FreshBearerFrame(d, s.nextId, bearer);
    FreshBearerRequest(d, s.world, s.nextId, bearer);
    LateGrows(d, s.nextId, receipt, bearer, c);
    LateStaysOk(s, receipt, bearer, c);
    forall k, row | Covered(d, k, row) ensures Covered(d', k, row) {
      var i :| 0 <= i < |d.receipts| && ReceiptCovers(d, d.receipts[i], k, row);
      assert d'.receipts[i] == d.receipts[i] && d'.receipts[i] in d'.receipts;
      assert ReceiptCovers(d', d'.receipts[i], k, row);
    }
  }

  lemma LateReceipts(d: Device, nextId: nat, receipt: Receipt, bearer: string, c: Client)
    requires DeviceOk(d, nextId) && receipt.id == nextId
    ensures ReceiptsOk(SaveLate(d, receipt, bearer, c)) && FreshIds(SaveLate(d, receipt, bearer, c), nextId + 1)
  {
    var d' := SaveLate(d, receipt, bearer, c);
    FreshBearerFrame(d, nextId, bearer);
    forall r | r in d'.receipts ensures r.id < nextId + 1 { assert r in d.receipts || r == receipt; }
  }

  lemma LateGrows(d: Device, nextId: nat, receipt: Receipt, bearer: string, c: Client)
    requires DeviceOk(d, nextId) && d.running.Cleaning? && receipt.id == nextId
    ensures DeviceOk(SaveLate(d, receipt, bearer, c), nextId + 1)
  {
    LateReceipts(d, nextId, receipt, bearer, c);
    FreshBearerShape(d, nextId, bearer);
    assert forall x :: Backed(SaveLate(d, receipt, bearer, c), x) <==>
        Backed(d.(keychain := d.keychain[nextId := bearer]), x);
  }

  lemma LateStaysOk(s: System, receipt: Receipt, bearer: string, c: Client)
    requires Inv(s) && s.device.running.Cleaning? && s.device.running.operation.SessionChange?
    requires s.device.legacyServer == Address(receipt.server) && s.device.legacyToken == Some(bearer)
    requires receipt.id == s.nextId && receipt.revokeSession
    ensures LateInv(SaveLate(s.device, receipt, bearer, c), s.world)
  {
    var d, d', w := s.device, SaveLate(s.device, receipt, bearer, c), s.world;
    FreshBearerFrame(d, s.nextId, bearer);
    forall k, row | CoveredByRegistration(d, k, row) ensures CoveredByRegistration(d', k, row) {
      var i :| 0 <= i < |d.registrations| && ReceiptCovers(d, d.registrations[i].receipt, k, row);
      assert d.receipts[i].id != s.nextId;
      assert ReceiptCovers(d', d'.registrations[i].receipt, k, row);
    }
    forall k, i | Deliverable(w, k) && 0 <= i < |d'.late| && ReceiptCovers(d', d'.late[i].receipt, k, w.rows[k])
      ensures CoveredByRegistration(d', k, w.rows[k])
    {
      if i < |d.late| {
        assert d.receipts[|d.registrations| + i].id != s.nextId;
        assert ReceiptCovers(d, d.late[i].receipt, k, w.rows[k]);
      } else {
        assert LegacyCovers(d, k, w.rows[k]);
      }
    }
  }

  /** Noting which session was retired during a cleanup for a session change. */
  lemma CleaningMigratesKeepsInv(s: System)
    requires Inv(s) && s.device.running.Cleaning? && s.device.running.operation.SessionChange?
    requires s.device.legacyServer.Address? && s.device.legacyToken.Some?
    ensures Inv(s.(device := s.device.(migrating := Some((s.device.legacyServer.server, s.device.legacyToken.value)))))
  {
    var d := s.device;
    var d' := d.(migrating := Some((d.legacyServer.server, d.legacyToken.value)));
    RunningFrame(s, d');
    forall k | Deliverable(s.world, k) && d'.migrating == Some((k.0, s.world.rows[k].bearer))
        ensures Covered(d', k, s.world.rows[k]) {
      assert LegacyCovers(d, k, s.world.rows[k]);
      RegistrationCovers(d, k, s.world.rows[k]);
    }
  }

  lemma CleaningRetireKeepsInv(s: System, failed: FailedReads, writeFails: bool)
    requires Inv(s) && s.device.running.Cleaning? && s.device.running.operation.SessionChange?
    requires s.device.legacyServer.Address? && s.device.legacyToken.Some?
    ensures
      var d := s.device;
      var server, bearer := d.legacyServer.server, d.legacyToken.value;
      var r := RetireLegacy(d, server, bearer, s.nextId, failed, writeFails);
      r.Some? ==> Inv(s.(device := r.value.(migrating := Some((server, bearer))), nextId := s.nextId + 1))
  {
    var d := s.device;
    var server, bearer := d.legacyServer.server, d.legacyToken.value;
    if RetiredAlready(d, server, bearer, failed) {
      QuietKeepsInvOrCleaning(s);
      CleaningMigratesKeepsInv(s.(nextId := s.nextId + 1));
    } else if !writeFails {
      var receipt, c := Receipt(s.nextId, server, None, None, true), Client(server, Some(bearer), None);
      SaveLateKeepsInv(s, receipt, bearer, c);
      CleaningMigratesKeepsInv(s.(device := SaveLate(d, receipt, bearer, c), nextId := s.nextId + 1));
    }
  }

  lemma BootstrapRetireKeepsInv(s: System, failed: FailedReads, writeFails: bool)
    requires Inv(s)
    ensures Inv(Step(s, BootstrapRetire(failed, writeFails)))
  {
    var d := s.device;
    var t := Step(s, BootstrapRetire(failed, writeFails));
    QuietKeepsInvOrCleaning(s);
    if StillStarting(d) && d.legacyServer.Address? && d.legacyToken.Some? {
      var server, bearer := d.legacyServer.server, d.legacyToken.value;
      var r := RetireLegacy(d, server, bearer, s.nextId, failed, writeFails);
      if r == None {
        assert t == s.(nextId := s.nextId + 1);
      } else {
        assert t == s.(device := r.value.(migrating := Some((server, bearer))), nextId := s.nextId + 1);
        if d.running.Cleaning? {
          CleaningRetireKeepsInv(s, failed, writeFails);
        } else {
          IdleRetireKeepsInv(s, failed, writeFails);
        }
      }
    } else {
      assert t == s.(nextId := s.nextId + 1);
    }
  }

  lemma ForgetLegacyKeepsInv(s: System, e: Event)
    requires Inv(s) && (e.ForgetLegacyToken? || e.ForgetLegacyServer?)
    ensures Inv(Step(s, e))
  {
    var d, d' := s.device, Step(s, e).device;
    forall k | Deliverable(s.world, k) ensures Covered(d, k, s.world.rows[k]) ==> Covered(d', k, s.world.rows[k]) {
      if Covered(d, k, s.world.rows[k]) {
        var r :| r in d.receipts && ReceiptCovers(d, r, k, s.world.rows[k]);
        assert ReceiptCovers(d', r, k, s.world.rows[k]);
      }
    }
    RunningFrame(s, d');
  }

  /** Nothing about the running operation looks at the legacy keys, the identity or the queue. */
  lemma RunningFrame(s: System, d': Device)
    requires Inv(s)
    requires d'.registrations == s.device.registrations && d'.receipts == s.device.receipts
    requires d'.keychain == s.device.keychain && d'.running == s.device.running && d'.late == s.device.late
    requires d'.legacyServer == s.device.legacyServer || !d'.legacyServer.Address?
    requires d'.legacyToken == s.device.legacyToken || d'.legacyToken == None
    ensures LateInv(d', s.world)
    ensures if d'.running.Cleaning? then CleanupShape(d') else AllBacked(d', d'.registrations)
    ensures RequestOk(d', s.world)
    ensures forall k, row :: Covered(d', k, row) <==> Covered(s.device, k, row)
  {
    var d := s.device;
    LateFrame(d, s.world, d', s.world);
    assert forall r :: Backed(d', r) <==> Backed(d, r);
    assert forall r, k, row :: ReceiptCovers(d', r, k, row) <==> ReceiptCovers(d, r, k, row);
    assert forall k, row :: Covered(d', k, row) <==> Covered(d, k, row);
  }

  // ---------------------------------------------------------------- cleanup

  /** A turn that keeps the store, for its new shape and request. */
  lemma TurnKeepsInv(s: System, d': Device)
    requires Inv(s) && s.device.running.Cleaning? && SameStore(s.device, d') && d' == s.device.(running := d'.running)
    requires d'.running.Cleaning? && d'.running.operation == s.device.running.operation
    requires CleanupShape(d') && RequestOk(d', s.world)
    ensures Inv(s.(device := d'))
  {
    CoverageFrame(s, d');
    LateFrame(s.device, s.world, d', s.world);
  }

  lemma CleanupSendKeepsInv(s: System, readFails: bool)
    requires Inv(s)
    ensures Inv(Step(s, CleanupSend(readFails)))
  {
    var d, d' := s.device, PushModel.CleanupSend(s.device, readFails);
    if d' != d {
      if d'.running.todo == d.running.todo { SentKeepsShape(d, d', readFails); } else { SkipKeepsShape(d, d'); }
      TurnKeepsInv(s, d');
    }
  }

  lemma SentKeepsShape(d: Device, d': Device, readFails: bool)
    requires d.running.Cleaning? && d' == PushModel.CleanupSend(d, readFails) && d' != d && CleanupShape(d)
    requires d'.running.todo == d.running.todo
    ensures CleanupShape(d') && d'.running.request.Some?
    ensures d'.running.todo != [] && d'.running.request.value.flight == Sent
    ensures CleanupRequest(d', d.running.todo[0].receipt, d'.running.request.value)
  {
    assert Backed(d, d.running.todo[0]);
    assert forall x :: Backed(d', x) <==> Backed(d, x);
  }

  lemma CoverageFrame(s: System, d': Device)
    requires Inv(s) && SameStore(s.device, d')
    ensures RowsCovered(d', s.world) && MigrationCovered(d', s.world) && MigrationOk(d')
  {
    var d := s.device;
    assert forall r, k, row :: ReceiptCovers(d', r, k, row) <==> ReceiptCovers(d, r, k, row);
    assert forall k, row :: Covered(d', k, row) <==> Covered(d, k, row);
  }

  /** The head of `todo` moves to `remaining`. */
  lemma SkipKeepsShape(d: Device, d': Device)
    requires d.running.Cleaning? && CleanupShape(d) && d.running.todo != []
    requires ReceiptsOk(d)
    requires forall i, j :: 0 <= i < j < |d.receipts| ==> d.receipts[i].id != d.receipts[j].id
    requires SameStore(d, d') && d'.running.Cleaning? && d'.running.request == None
    requires d'.running.todo == d.running.todo[1..]
    requires d'.running.remaining == d.running.remaining + [d.running.todo[0]]
    ensures CleanupShape(d')
  {
    var n := |d.registrations| - |d.running.todo|;
    var r := d.running.todo[0];
    assert r == d.registrations[n];
    assert d'.registrations[n + 1..] == d'.running.todo;
    assert d'.registrations[..n + 1] == d.registrations[..n] + [r];
    assert forall x :: Backed(d', x) <==> Backed(d, x);
    forall i | 0 <= i < |d.running.remaining| ensures d.running.remaining[i].receipt.id != r.receipt.id {
      assert d.running.remaining[i] in d.running.remaining;
      var j :| 0 <= j < n && d.registrations[j] == d.running.remaining[i];
      assert d.receipts[j].id != d.receipts[n].id;
    }
  }

  lemma SettleKeepsInv(s: System, seen: Observation, removeFails: bool)
    requires Inv(s) && s.device.running.Cleaning? && s.device.running.request.Some?
    requires CanSee(s.device.running.request.value, seen)
    ensures Inv(s.(device := CleanupSettle(s.device, seen, removeFails)))
  {
    var d, d' := s.device, CleanupSettle(s.device, seen, removeFails);
    if seen == Failure || removeFails {
      SkipKeepsShape(d, d');
      TurnKeepsInv(s, d');
    } else {
      assert NothingLeft(d, s.world, d.running.todo[0].receipt);
      ConfirmedKeepsInv(s);
    }
  }

  /** A confirmed cleanup removes only a bearer no deliverable row needs any more. */
  lemma ConfirmedKeepsInv(s: System)
    requires Inv(s) && s.device.running.Cleaning? && s.device.running.todo != []
    requires NothingLeft(s.device, s.world, s.device.running.todo[0].receipt)
    ensures Inv(s.(device := CleanupSettle(s.device, Success, false)))
  {
    var d, d' := s.device, CleanupSettle(s.device, Success, false);
    DropKeepsLate(s);
    DropKeepsShape(d, d');
    DropKeepsRows(s);
  }

  lemma DropKeepsRows(s: System)
    requires Inv(s) && s.device.running.Cleaning? && s.device.running.todo != []
    requires NothingLeft(s.device, s.world, s.device.running.todo[0].receipt)
    ensures
      forall k :: Deliverable(s.world, k) && Covered(s.device, k, s.world.rows[k]) ==>
        Covered(CleanupSettle(s.device, Success, false), k, s.world.rows[k])
  {
    var d, d' := s.device, CleanupSettle(s.device, Success, false);
    var n := |d.registrations| - |d.running.todo|;
    forall k | Deliverable(s.world, k) && Covered(d, k, s.world.rows[k]) ensures Covered(d', k, s.world.rows[k]) {
      var x :| x in d.receipts && ReceiptCovers(d, x, k, s.world.rows[k]);
      var i :| 0 <= i < |d.receipts| && d.receipts[i] == x;
      assert d.registrations[n] == d.running.todo[0] && d.receipts[n] == d.running.todo[0].receipt;
      assert i != n && d.receipts[i].id != d.receipts[n].id;
      assert ReceiptCovers(d', x, k, s.world.rows[k]);
    }
  }

  /** No row that is left needs the bearer that goes. */
  lemma DropKeepsLate(s: System)
    requires Inv(s) && s.device.running.Cleaning? && s.device.running.todo != []
    requires NothingLeft(s.device, s.world, s.device.running.todo[0].receipt)
    ensures LateInv(CleanupSettle(s.device, Success, false), s.world)
  {
    var d, d' := s.device, CleanupSettle(s.device, Success, false);
    var r := d.running.todo[0].receipt;
    assert forall x, k, row :: ReceiptCovers(d', x, k, row) ==> ReceiptCovers(d, x, k, row);
    forall k | Deliverable(s.world, k) && CoveredByRegistration(d, k, s.world.rows[k])
      ensures CoveredByRegistration(d', k, s.world.rows[k])
    {
      var i :| 0 <= i < |d.registrations| && ReceiptCovers(d, d.registrations[i].receipt, k, s.world.rows[k]);
      var n := |d.registrations| - |d.running.todo|;
      assert d.registrations[n] == d.running.todo[0] && i != n;
      assert d.receipts[i].id != d.receipts[n].id;
      assert ReceiptCovers(d', d'.registrations[i].receipt, k, s.world.rows[k]);
    }
  }

  lemma DropKeepsShape(d: Device, d': Device)
    requires d.running.Cleaning? && CleanupShape(d) && d.running.todo != []
    requires ReceiptsOk(d)
    requires forall i, j :: 0 <= i < j < |d.receipts| ==> d.receipts[i].id != d.receipts[j].id
    requires d' == CleanupSettle(d, Success, false)
    ensures CleanupShape(d')
  {
    var n := |d.registrations| - |d.running.todo|;
    var r := d.running.todo[0];
    assert r == d.registrations[n];
    assert d'.registrations[n + 1..] == d'.running.todo;
    assert d'.registrations[..n + 1] == d.registrations[..n] + [r];
    forall i | 0 <= i < |d.registrations| && i != n ensures d.registrations[i].receipt.id != r.receipt.id {
      assert d.receipts[i].id != d.receipts[n].id;
    }
    forall i | 0 <= i < |d'.running.todo| ensures Backed(d', d'.running.todo[i]) {
      assert d'.running.todo[i] == d.running.todo[i + 1] == d.registrations[n + 1 + i];
      assert Backed(d, d.running.todo[i + 1]);
    }
    forall i | 0 <= i < |d.running.remaining| ensures Backed(d', d.running.remaining[i]) {
      assert d.running.remaining[i] in d.running.remaining;
      var j :| 0 <= j < n && d.registrations[j] == d.running.remaining[i];
      assert Backed(d, d.running.remaining[i]);
    }
  }

  /** The receipts that are left still cover what the old ones covered. */
  lemma KeptReceiptsCover(d: Device, d': Device, k: RowKey, row: Row)
    requires d.running.Cleaning? && d.running.todo == [] && CleanupShape(d)
    requires d'.receipts == Receipts(d.running.remaining) && d'.keychain == d.keychain
    requires CoveredByRegistration(d, k, row)
    ensures Covered(d', k, row)
  {
    var kept := d.running.remaining;
    var i :| 0 <= i < |d.registrations| && ReceiptCovers(d, d.registrations[i].receipt, k, row);
    assert d.registrations[i] in kept;
    var j :| 0 <= j < |kept| && kept[j] == d.registrations[i];
    assert d'.receipts[j] in d'.receipts;
    assert ReceiptCovers(d', d'.receipts[j], k, row);
  }

  /** A covering receipt is a registration's or was appended. */
  lemma CoveringReceipt(d: Device, k: RowKey, row: Row)
    requires ReceiptsOk(d) && Covered(d, k, row)
    ensures
      || CoveredByRegistration(d, k, row)
      || exists i :: 0 <= i < |d.late| && ReceiptCovers(d, d.late[i].receipt, k, row)
  {
    var r :| r in d.receipts && ReceiptCovers(d, r, k, row);
    var i :| 0 <= i < |d.receipts| && d.receipts[i] == r;
    if i < |d.registrations| {
      assert ReceiptCovers(d, d.registrations[i].receipt, k, row);
    } else {
      assert ReceiptCovers(d, d.late[i - |d.registrations|].receipt, k, row);
    }
  }

  /** What is covered at all is covered without what was appended. */
  lemma CoveredBesideLate(d: Device, w: World, k: RowKey)
    requires ReceiptsOk(d) && LateOk(d, w) && Deliverable(w, k) && Covered(d, k, w.rows[k])
    ensures CoveredByRegistration(d, k, w.rows[k])
  {
    CoveringReceipt(d, k, w.rows[k]);
  }

  /** Storing what is left, with the operation finished. */
  lemma StoreRemaining(s: System)
    requires Inv(s) && s.device.running.Cleaning? && s.device.running.todo == []
    ensures Inv(s.(device := s.device.(registrations := s.device.running.remaining, late := [],
                                       receipts := Receipts(s.device.running.remaining), running := Idle)))
  {
    var d := s.device;
    var kept := d.running.remaining;
    var d' := d.(registrations := kept, late := [], receipts := Receipts(kept), running := Idle);
    assert forall i :: 0 <= i < |kept| ==> Backed(d, kept[i]) && Backed(d', kept[i]);
    forall r | r in d'.receipts ensures r.id < s.nextId {
      var i :| 0 <= i < |d'.receipts| && d'.receipts[i] == r;
      assert kept[i] in kept;
      var j :| 0 <= j < |d.registrations| && d.registrations[j] == kept[i];
      assert d.receipts[j] in d.receipts;
    }
    forall k | Deliverable(s.world, k) && Covered(d, k, s.world.rows[k]) ensures Covered(d', k, s.world.rows[k]) {
      CoveredBesideLate(d, s.world, k);
      KeptReceiptsCover(d, d', k, s.world.rows[k]);
    }
  }

  lemma CleanupFinishKeepsInv(s: System)
    requires Inv(s)
    ensures Inv(Step(s, CleanupFinish))
  {
    var d := s.device;
    if d.running.Cleaning? && d.running.todo == [] && d.running.request == None {
      StoreRemaining(s);
      var kept := d.running.remaining;
      var s1 := s.(device := d.(registrations := kept, late := [], receipts := Receipts(kept), running := Idle),
                   activated := s.activated + Activation(d));
      assert Inv(s1);
      var d' := PushModel.CleanupFinish(d);
      if Still(d'.running) {
        QuietKeepsInv(s1, d');
      } else {
        BeginLogoutKeepsInv(s1, d.running.operation.session);
      }
    } else {
      assert PushModel.CleanupFinish(d) == d;
      OtherFieldsKeepInv(s, s.activated + Activation(d));
    }
  }

  lemma BeginLogoutKeepsInv(s: System, c: Client)
    requires Inv(s) && Still(s.device.running)
    ensures Inv(s.(device := s.device.(running := LoggingOut(Request(c, Logout, Sent)))))
  {
    var d' := s.device.(running := LoggingOut(Request(c, Logout, Sent)));
    CoverageFrame(s, d');
    assert forall i :: 0 <= i < |d'.registrations| ==> Backed(s.device, d'.registrations[i]) ==>
        Backed(d', d'.registrations[i]);
  }

  lemma OtherFieldsKeepInv(s: System, activated: set<string>)
    requires Inv(s)
    ensures Inv(s.(activated := activated))
  {
  }

  // ---------------------------------------------------------------- the servers

  /** A server action that only takes rows or sessions away keeps everything. */
  lemma ShrinkKeepsInv(s: System, w: World)
    requires Inv(s) && WorldOk(w)
    requires forall k :: Deliverable(w, k) ==> Deliverable(s.world, k) && w.rows[k] == s.world.rows[k]
    ensures Inv(s.(world := w))
  {
    LateFrame(s.device, s.world, s.device, w);
  }

  /** What one served request can do to the deliverable rows. */
  lemma ServeEffect(w: World, c: Client, call: Call)
    requires WorldOk(w)
    ensures
      var (w', reply) := Serve(w, c, call);
      && WorldOk(w')
      && (forall k :: Deliverable(w', k) ==>
            || (Deliverable(w, k) && w'.rows[k] == w.rows[k])
            || (call.PostDevice? && c.token.Some? && k == (c.server, call.token)
                && w'.rows[k].store == c.store && w'.rows[k].bearer == c.token.value))
      && (c.token.Some? && call.Logout? ==>
            forall k :: Deliverable(w', k) ==> !(k.0 == c.server && w'.rows[k].bearer == c.token.value))
      && (c.token.Some? && call.DeleteDevice? ==>
            forall k :: Deliverable(w', k) ==>
              !(k == (c.server, call.token) && w'.rows[k].store == c.store && w'.rows[k].bearer == c.token.value))
  {
  }

  /** Marking a request as answered changes no receipt and no bearer. */
  lemma AnsweredFrame(d: Device, d': Device)
    requires d' == d.(running := d'.running)
    ensures forall x :: Backed(d', x) <==> Backed(d, x)
    ensures forall k, row :: Covered(d', k, row) <==> Covered(d, k, row)
    ensures forall r, k, row :: ReceiptCovers(d', r, k, row) <==> ReceiptCovers(d, r, k, row)
  {
    assert forall r, k, row :: ReceiptCovers(d', r, k, row) <==> ReceiptCovers(d, r, k, row);
  }

  /** A refusal tells the device nothing, so nothing more is asked of the servers. */
  lemma RefusedRequest(d: Device, w: World)
    requires RequestOk(d, w) && InFlight(d.running).Some? && InFlight(d.running).value.flight == Sent
    ensures RequestOk(d.(running := WithFlight(d.running, Answered(Refused))), w)
  {
    AnsweredFrame(d, d.(running := WithFlight(d.running, Answered(Refused))));
  }

  lemma RefusalKeepsInv(s: System)
    requires Inv(s) && InFlight(s.device.running).Some? && InFlight(s.device.running).value.flight == Sent
    ensures Inv(s.(device := s.device.(running := WithFlight(s.device.running, Answered(Refused)))))
  {
    var d' := s.device.(running := WithFlight(s.device.running, Answered(Refused)));
    AnsweredFrame(s.device, d');
    RefusedRequest(s.device, s.world);
    LateFrame(s.device, s.world, d', s.world);
  }

  lemma CleanupPostsNothing(s: System)
    requires Inv(s) && InFlight(s.device.running).Some?
    ensures s.device.running.Cleaning? ==> !InFlight(s.device.running).value.call.PostDevice?
  {
  }

  /** A row a served request makes is covered already. */
  lemma NewRowIsCovered(s: System, k: RowKey)
    requires Inv(s) && InFlight(s.device.running).Some? && InFlight(s.device.running).value.flight == Sent
    requires
      var w' := Answer(s, false).world;
      Deliverable(w', k) && !(Deliverable(s.world, k) && w'.rows[k] == s.world.rows[k])
    ensures Covered(s.device, k, Answer(s, false).world.rows[k])
  {
    var d, w' := s.device, Answer(s, false).world;
    var q := InFlight(d.running).value;
    ServeEffect(s.world, q.client, q.call);
    CleanupPostsNothing(s);
    assert Covered(d, (q.client.server, q.call.token), Row(q.client.store, q.client.token.value, w'.rows[k].admin));
  }

  /** What a served request leaves of a cleanup: its answer says that nothing is left for its receipt. */
  lemma ServedCleanup(s: System)
    requires Inv(s) && s.device.running.Cleaning? && InFlight(s.device.running).Some?
    requires InFlight(s.device.running).value.flight == Sent
    ensures RequestOk(Answer(s, false).device, Answer(s, false).world)
        && LateInv(Answer(s, false).device, Answer(s, false).world)
  {
    var d, s' := s.device, Answer(s, false);
    var q := InFlight(d.running).value;
    ServeEffect(s.world, q.client, q.call);
    AnsweredFrame(d, s'.device);
    assert CleanupCall(d.running.todo[0].receipt) == Some(q.call);
    LateFrame(d, s.world, s'.device, s'.world);
  }

  lemma ServedKeepsInv(s: System)
    requires Inv(s) && InFlight(s.device.running).Some? && InFlight(s.device.running).value.flight == Sent
    ensures Inv(Answer(s, false))
  {
    var d, s' := s.device, Answer(s, false);
    ServeEffect(s.world, InFlight(d.running).value.client, InFlight(d.running).value.call);
    AnsweredFrame(d, s'.device);
    if d.running.Cleaning? { ServedCleanup(s); }
    forall k | Deliverable(s'.world, k) && !(Deliverable(s.world, k) && s'.world.rows[k] == s.world.rows[k])
      ensures Covered(s'.device, k, s'.world.rows[k])
    {
      NewRowIsCovered(s, k);
    }
  }

  lemma AnswerKeepsInv(s: System, refuse: bool)
    requires Inv(s)
    ensures Inv(Step(s, ServerAnswers(refuse)))
  {
    var d := s.device;
    if InFlight(d.running).Some? && InFlight(d.running).value.flight == Sent {
      if refuse { RefusalKeepsInv(s); } else { ServedKeepsInv(s); }
    }
  }

  lemma SessionEndsKeepsInv(s: System, key: SessionKey, cascade: bool)
    requires Inv(s)
    ensures Inv(s.(world := EndSession(s.world, key, cascade)))
  {
    var w := EndSession(s.world, key, cascade);
    assert forall k :: Deliverable(w, k) ==> Deliverable(s.world, k) && w.rows[k] == s.world.rows[k];
    ShrinkKeepsInv(s, w);
  }

  /** A new session has no rows yet. */
  lemma MintedWorld(w: World, key: SessionKey, admin: nat)
    requires WorldOk(w) && key !in w.minted
    ensures
      var w' := w.(sessions := w.sessions[key := admin], minted := w.minted + {key});
      WorldOk(w') && forall k :: Deliverable(w', k) ==> Deliverable(w, k) && w'.rows[k] == w.rows[k]
  {
    forall k | k in w.rows ensures (k.0, w.rows[k].bearer) != key { assert (k.0, w.rows[k].bearer) in w.minted; }
  }

  lemma SessionMintedKeepsInv(s: System, e: Event)
    requires Inv(s) && e.SessionMinted?
    ensures Inv(Step(s, e))
  {
    var key := (e.server, e.bearer);
    if key !in s.world.minted {
      MintedWorld(s.world, key, e.admin);
      ShrinkKeepsInv(s, Step(s, e).world);
    } else {
      assert Step(s, e) == s;
    }
  }

  // ---------------------------------------------------------------- process death

  lemma RelaunchKeepsInv(s: System)
    requires Inv(s)
    ensures Inv(Step(s, Crash))
  {
    var d, d' := s.device, Relaunch(s.device);
    assert forall r, k, row :: ReceiptCovers(d', r, k, row) <==> ReceiptCovers(d, r, k, row);
    assert forall k, row :: Covered(d', k, row) <==> Covered(d, k, row);
  }

  /** A bearer written without its receipt is unused, so nothing depends on it. */
  lemma OrphanedBearerKeepsInv(s: System, bearer: string)
    requires Inv(s)
    ensures Inv(Step(s, CrashAfterKeychainWrite(bearer)))
  {
    RelaunchKeepsInv(s);
    var d := Relaunch(s.device);
    var d' := Step(s, CrashAfterKeychainWrite(bearer)).device;
    forall k, row | Covered(d, k, row) ensures Covered(d', k, row) {
      var r :| r in d.receipts && ReceiptCovers(d, r, k, row);
      assert ReceiptCovers(d', r, k, row);
    }
  }

  // ---------------------------------------------------------------- every run

  lemma StepKeepsInv(s: System, e: Event)
    requires Inv(s)
    ensures Inv(Step(s, e))
  {
    match e
    case SetSession(_, _) => QueuedKeepsInv(s, e);
    case Revoke(_) => QueuedKeepsInv(s, e);
    case ReceiveDeviceToken(_) => QueuedKeepsInv(s, e);
    case ReceiveLiveToken(_, _) => QueuedKeepsInv(s, e);
    case Start(wf) => StartKeepsInv(s, wf);
    case ActivitiesEnded(rf, wf) => ActivitiesEndedKeepsInv(s, rf, wf);
    case CleanupSend(rf) => CleanupSendKeepsInv(s, rf);
    case CleanupFinish => CleanupFinishKeepsInv(s);
    case Authorized(wf, lwf) => AuthorizedKeepsInv(s, wf, lwf);
    case Settle(seen, rf, lwf) => AnyAnswerKeepsInv(s, seen, rf, lwf);
    case BootstrapRetire(rf, wf) => BootstrapRetireKeepsInv(s, rf, wf);
    case ForgetLegacyToken => ForgetLegacyKeepsInv(s, e);
    case ForgetLegacyServer => ForgetLegacyKeepsInv(s, e);
    case _ => OutsideKeepsInv(s, e);
  }

  /** The identity, the queue and the tokens play no part in what is covered. */
  lemma QueueKeepsInv(s: System, d': Device)
    requires Inv(s)
    requires d' == s.device.(identity := d'.identity, registrar := d'.registrar, waiting := d'.waiting,
                             deviceToken := d'.deviceToken, liveToken := d'.liveToken)
    ensures Inv(s.(device := d'))
  {
    RunningFrame(s, d');
  }

  lemma QueueOnly(s: System, e: Event)
    requires e.SetSession? || e.Revoke? || e.ReceiveDeviceToken? || e.ReceiveLiveToken?
    ensures
      var d' := Step(s, e).device;
      && Step(s, e) == s.(device := d', issued := Step(s, e).issued)
      && d' == s.device.(identity := d'.identity, registrar := d'.registrar, waiting := d'.waiting,
                         deviceToken := d'.deviceToken, liveToken := d'.liveToken)
  {
  }

  /** What only adds to the queue leaves the rest as it is. */
  lemma QueuedKeepsInv(s: System, e: Event)
    requires Inv(s) && (e.SetSession? || e.Revoke? || e.ReceiveDeviceToken? || e.ReceiveLiveToken?)
    ensures Inv(Step(s, e))
  {
    QueueOnly(s, e);
    QueueKeepsInv(s, Step(s, e).device);
  }

  lemma OutsideKeepsInv(s: System, e: Event)
    requires Inv(s)
    requires e.ServerAnswers? || e.Crash? || e.CrashAfterKeychainWrite? || e.SessionMinted? || e.SessionEnds?
    ensures Inv(Step(s, e))
  {
    match e
    case ServerAnswers(refuse) => AnswerKeepsInv(s, refuse);
    case Crash => RelaunchKeepsInv(s);
    case CrashAfterKeychainWrite(b) => OrphanedBearerKeepsInv(s, b);
    case SessionMinted(_, _, _) => SessionMintedKeepsInv(s, e);
    case SessionEnds(v, b, cascade) => SessionEndsKeepsInv(s, (v, b), cascade);
  }

  lemma StartKeepsInv(s: System, writeFails: bool)
    requires Inv(s)
    ensures Inv(Step(s, Start(writeFails)))
  {
    var d := s.device;
    QuietKeepsInvOrCleaning(s);
    if d.running == Idle && d.waiting != [] {
      var s1 := s.(device := d.(waiting := d.waiting[1..]));
      QuietKeepsInv(s, s1.device);
      match d.waiting[0]
      case SessionChange(i, c) => QuietKeepsInv(s1, s1.device.(running := EndingActivities(i, c)));
      case Revocation(c) =>
        QuietKeepsInvOrCleaning(s1);
        BeginCleanupKeepsInv(s1.(nextId := s.nextId + 1), d.waiting[0]);
      case Register(t, owner, c) => BeginRegisterKeepsInv(s1, t, owner, c, writeFails);
    }
  }

  lemma AnyAnswerKeepsInv(s: System, seen: Observation, removeFails: bool, liveWriteFails: bool)
    requires Inv(s)
    ensures Inv(Step(s, Settle(seen, removeFails, liveWriteFails)))
  {
    var d := s.device;
    var d' := PushModel.Settle(d, seen, removeFails, s.nextId, liveWriteFails);
    assert Step(s, Settle(seen, removeFails, liveWriteFails)) == s.(device := d', nextId := s.nextId + 1);
    if InFlight(d.running) == None || !CanSee(InFlight(d.running).value, seen) {
      assert d' == d;
      QuietKeepsInvOrCleaning(s);
    } else if d.running.Cleaning? {
      assert d' == CleanupSettle(d, seen, removeFails);
      SettleKeepsInv(s, seen, removeFails);
      QuietKeepsInvOrCleaning(s.(device := d'));
    } else if d.running.Registering? && d.running.thenLive {
      BeginLiveKeepsInv(s, d.running.owner, d.running.sender, liveWriteFails);
    } else {
      QuietKeepsInv(s, d.(running := Idle));
    }
  }

  lemma {:induction false} RunKeepsInv(s: System, events: seq<Event>)
    requires Inv(s)
    ensures Inv(Run(s, events))
    decreases |events|
  {
    if events != [] {
      StepKeepsInv(s, events[0]);
      RunKeepsInv(Step(s, events[0]), events[1..]);
    }
  }

  lemma InitialInv(s: System)
    requires Initial(s)
    ensures Inv(s)
  {
    assert s.device.registrations == [];
  }

  /**
   * In every run, timeouts, failed deletes, lost answers and process death at any point included, a row that can
   * still be delivered to is covered: by a saved receipt for the same server, token and store (or for the whole
   * session) whose Keychain entry is the row's bearer, or by the untouched legacy keys.
   */
  lemma NoOrphanedRow(s: System, events: seq<Event>, k: RowKey)
    requires Initial(s) && Deliverable(Run(s, events).world, k)
    ensures
      var e := Run(s, events);
      Covered(e.device, k, e.world.rows[k]) || LegacyCovers(e.device, k, e.world.rows[k])
  {
    InitialInv(s);
    RunKeepsInv(s, events);
  }

  /**
   * At any point of any cleanup, a deliverable row that is covered at all is covered without what was appended
   * meanwhile.
   */
  lemma LateIsNotNeeded(s: System, events: seq<Event>, k: RowKey)
    requires Initial(s)
    requires
      var m := Run(s, events);
      m.device.running.Cleaning? && Deliverable(m.world, k) && Covered(m.device, k, m.world.rows[k])
    ensures CoveredByRegistration(Run(s, events).device, k, Run(s, events).world.rows[k])
  {
    InitialInv(s);
    RunKeepsInv(s, events);
    CoveredBesideLate(Run(s, events).device, Run(s, events).world, k);
  }

  /** Writing never removes a bearer. */
  lemma WritesKeepBearers(d: Device, id: nat, failed: FailedReads, writeFails: bool)
    ensures forall x :: x in d.keychain ==>
      && x in PushModel.Start(d, id, writeFails).keychain
      && x in PushModel.ActivitiesEnded(d, id, failed, writeFails).keychain
      && x in PushModel.BootstrapRetire(d, id, failed, writeFails).keychain
  {
  }

  lemma AnswersKeepBearers(d: Device, id: nat, seen: Observation, f1: bool, f2: bool)
    ensures forall x :: x in d.keychain ==> x in PushModel.Authorized(d, id, f1, f2).keychain
    ensures forall owner, c, x :: x in d.keychain ==> x in BeginLive(d, owner, c, id, f1).keychain
  {
  }

  lemma OtherStepsKeepBearers(s: System, e: Event, id: nat)
    requires id in s.device.keychain && !(e.Settle? && s.device.running.Cleaning?)
    ensures id in Step(s, e).device.keychain
  {
    match e
    case Start(wf) => WritesKeepBearers(s.device, s.nextId, FailedReads(false, {}), wf);
    case ActivitiesEnded(rf, wf) => WritesKeepBearers(s.device, s.nextId, rf, wf);
    case BootstrapRetire(rf, wf) => WritesKeepBearers(s.device, s.nextId, rf, wf);
    case Authorized(wf, lwf) => AnswersKeepBearers(s.device, s.nextId, Failure, wf, lwf);
    case Settle(seen, rf, lwf) => AnswersKeepBearers(s.device, s.nextId, seen, lwf, lwf);
    case _ =>
  }

  /**
   * A cleanup bearer leaves the Keychain only when the request that used it was answered (a confirmed delete, a
   * confirmed logout or a 401), and at that moment no deliverable row needs it.
   */
  lemma BearerGoesOnlyWhenUnneeded(s: System, events: seq<Event>, e: Event, id: nat)
    requires Initial(s)
    requires id in Run(s, events).device.keychain && id !in Step(Run(s, events), e).device.keychain
    ensures
      var m := Run(s, events);
      && e.Settle? && e.seen != Failure && m.device.running.Cleaning? && m.device.running.todo != []
      && m.device.running.todo[0].receipt.id == id
      && NothingLeft(m.device, m.world, m.device.running.todo[0].receipt)
  {
    InitialInv(s);
    RunKeepsInv(s, events);
    var m := Run(s, events);
    if !(e.Settle? && m.device.running.Cleaning?) {
      OtherStepsKeepBearers(m, e, id);
    }
  }
}
