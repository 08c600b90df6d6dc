/** What every interleaving of sign-in, switch, sign-out, expiry and late answers keeps. */
module SessionSafety {
  import opened Wrappers
  import opened SessionModel
  import opened SessionSystem

  lemma {:induction false} FindReplaced(ps: seq<Profile>, p: Profile, id: nat)
    ensures Find(Replaced(ps, p), id) == if id == p.id then Some(p) else Find(ps, id)
  {
    if ps != [] && ps[0].id != p.id {
      FindReplaced(ps[1..], p, id);
    }
  }

  lemma {:induction false} FindGivesId(ps: seq<Profile>, id: nat)
    ensures Find(ps, id).Some? ==> Find(ps, id).value.id == id
  {
    if ps != [] && ps[0].id != id {
      FindGivesId(ps[1..], id);
    }
  }

  lemma {:induction false} FindAccountGives(ps: seq<Profile>, server: string, email: string)
    ensures
      var p := FindAccount(ps, server, email);
      p.Some? ==> p.value in ps && p.value.server == server && p.value.email == email
  {
    if ps != [] && !(ps[0].server == server && ps[0].email == email) {
      FindAccountGives(ps[1..], server, email);
    }
  }

  // ---------------------------------------------------------------- the invariant

  /** The active profile is saved, wants no sign-in, names the current server, and its credential is the one in use. */
  predicate SignedIn(m: Session) {
    && m.activeProfile.Some?
    && var id := m.activeProfile.value;
       var p := Find(m.profiles, id);
    && p.Some? && !p.value.requiresLogin && p.value.server == m.server
    && id in m.keychain && m.token == Some(m.keychain[id])
  }

  predicate PushFollows(m: Session) {
    m.pushIdentity == if m.phase == LoggedIn && m.activeStore.Some? then Some(CurrentIdentity(m)) else None
  }

  predicate Activating(m: Session, id: nat) {
    m.phase == Loading && m.activeProfile == Some(id) && SignedIn(m)
  }

  /** An outstanding profile request is either stale or about the profile being activated right now. */
  predicate RequestsOk(s: System) {
    && (forall c :: c in s.calls && s.calls[c].Me? && s.calls[c].activation == s.session.activation ==>
          Activating(s.session, s.calls[c].profile))
    && (forall c :: c in s.calls && s.calls[c].LegacyMe? && s.calls[c].activation == s.session.activation ==>
          s.session.activeProfile == None)
    && (forall c, d :: c in s.calls && d in s.calls && c != d && s.calls[c].Me? && s.calls[d].Me? ==>
          s.calls[c].activation != s.calls[d].activation)
  }

  predicate Good(m: Session) {
    (m.phase == LoggedIn ==> SignedIn(m)) && PushFollows(m)
  }

  predicate Inv(s: System) {
    Stamped(s) && Good(s.session) && RequestsOk(s)
  }

  // ---------------------------------------------------------------- what one operation does to the session

  /** Either a fresh activation, or nothing a pending activation relies on has changed. */
  predicate Undisturbed(m: Session, m': Session) {
    m'.activation == m.activation ==>
      && m'.activeProfile == m.activeProfile
      && (SignedIn(m) ==> SignedIn(m') && m'.phase == m.phase)
  }

  lemma SaveStoreKeeps(m: Session)
    ensures var m' := SaveSelectedStore(m);
      && m' == m.(profiles := m'.profiles, savedProfiles := m'.savedProfiles)
      && (SignedIn(m) ==> SignedIn(m'))
  {
    if m.activeProfile.Some? && Find(m.profiles, m.activeProfile.value).Some? {
      var id := m.activeProfile.value;
      FindGivesId(m.profiles, id);
      FindReplaced(m.profiles, Find(m.profiles, id).value.(store := m.activeStore), id);
    }
  }

  lemma ApplyKeeps(m: Session, stores: seq<string>)
    requires SignedIn(m)
    ensures var m' := Apply(m, stores); m'.phase == LoggedIn && Good(m') && SignedIn(m') && Fresher(m, m')
    ensures Apply(m, stores).activation == m.activation && Apply(m, stores).activeProfile == m.activeProfile
    ensures Apply(m, stores).nextStamp == m.nextStamp && Apply(m, stores).revisions == m.revisions
    ensures Apply(m, stores).loginAttempt == m.loginAttempt && Apply(m, stores).pendingLogin == m.pendingLogin
  {
    var last := Find(m.profiles, m.activeProfile.value).value.store;
    SaveStoreKeeps(m.(stores := stores, activeStore := PickStore(stores, last), phase := LoggedIn));
  }

  lemma SelectKeeps(m: Session, store: Option<string>)
    requires Good(m)
    ensures var m' := SelectStore(m, store);
      && Good(m') && Fresher(m, m') && Undisturbed(m, m') && m'.activation == m.activation
      && m'.revisions == m.revisions && m'.loginAttempt == m.loginAttempt && m'.pendingLogin == m.pendingLogin
  {
    if store != m.activeStore {
      SaveStoreKeeps(m.(activeStore := store, generation := m.nextStamp, nextStamp := m.nextStamp + 1));
    }
  }

  /** What stays true of the stamps kept inside the session. */
  predicate OwnStamps(m: Session) {
    && m.activation < m.nextStamp && m.loginAttempt < m.nextStamp
    && (m.pendingLogin.Some? ==> m.pendingLogin.value.attempt < m.nextStamp)
    && (forall id :: id in m.revisions ==> m.revisions[id] < m.nextStamp)
  }

  predicate Keeps(m: Session, m': Session) {
    Good(m') && OwnStamps(m') && Fresher(m, m') && Undisturbed(m, m')
  }

  lemma AdoptKeeps(m: Session, p: Profile, token: string)
    requires !p.requiresLogin && OwnStamps(m)
    ensures var m' := Adopt(m, p, token);
      && SignedIn(m') && OwnStamps(m') && Fresher(m, m')
      && m'.activation > m.nextStamp && m'.loginAttempt > m.nextStamp && m'.revisions[p.id] > m.nextStamp
  {
    FindReplaced(m.profiles, p, p.id);
  }

  lemma FinishLoginKeeps(
      m: Session, server: string, token: string, email: string, stores: seq<string>, writeFails: bool)
    requires Good(m) && OwnStamps(m)
    ensures var m' := FinishLogin(m, server, token, email, stores, writeFails);
      && Keeps(m, m')
      && (token != "" && !writeFails ==>
            && m'.loginAttempt > m.nextStamp && m'.activation > m.nextStamp
            && m'.activeProfile == Some(SigningIn(m, server, email).id)
            && m'.activeProfile.value in m'.revisions && m'.revisions[m'.activeProfile.value] > m.nextStamp)
  {
    if token != "" && !writeFails {
      var p := SigningIn(m, server, email);
      AdoptKeeps(m, p, token);
      ApplyKeeps(Adopt(m, p, token), stores);
    }
  }

  lemma SignInAnsweredKeeps(m: Session, call: Call, signed: Signed)
    requires (call.SignIn? || call.SecondStep?) && Good(m) && OwnStamps(m)
    ensures Keeps(m, SignInAnswered(m, call, signed))
  {
    var server := if call.SignIn? then call.server else call.draft.server;
    match signed
    case Complete(token, email, stores, writeFails) => FinishLoginKeeps(m, server, token, email, stores, writeFails);
    case _ =>
  }

  /** A profile is marked and renewed; whose it is does not matter to the stamps. */
  lemma MarkKeeps(m: Session, p: Profile, keychain: map<nat, string>)
    requires OwnStamps(m)
    ensures
      var t := Upsert(Renew(m, p.id), p).(keychain := keychain);
      OwnStamps(t) && Fresher(m, t) && t.activation == m.activation && t.loginAttempt == m.loginAttempt
  {
  }

  lemma ResetKeeps(m: Session, t: Session)
    requires OwnStamps(m) && OwnStamps(t) && Fresher(m, t)
    ensures
      var r := ResetActiveState(t);
      OwnStamps(r) && Fresher(m, r) && r.activation >= t.nextStamp && r.pushIdentity == None
          && r.loginAttempt == t.loginAttempt
  {
  }

  lemma OtherStays(m: Session, p: Profile, keychain: map<nat, string>)
    requires Good(m) && OwnStamps(m) && m.activeProfile != Some(p.id)
    requires forall id :: id != p.id ==> (id in keychain <==> id in m.keychain)
    requires forall id :: id in keychain && id != p.id ==> keychain[id] == m.keychain[id]
    ensures Keeps(m, Upsert(Renew(m, p.id), p).(keychain := keychain))
  {
    MarkKeeps(m, p, keychain);
    if m.activeProfile.Some? { FindReplaced(m.profiles, p, m.activeProfile.value); }
  }

  lemma InvalidateKeeps(m: Session, h: Hook, readFails: bool, removeFails: bool)
    requires Good(m) && OwnStamps(m)
    ensures Keeps(m, InvalidateProfile(m, h, readFails, removeFails))
    ensures InvalidateProfile(m, h, readFails, removeFails).loginAttempt == m.loginAttempt
  {
    if InvalidateProfile(m, h, readFails, removeFails) != m {
      FindGivesId(m.profiles, h.profile);
      var p := Find(m.profiles, h.profile).value.(requiresLogin := true);
      var keychain := if removeFails then m.keychain
          else map k | k in m.keychain && k != h.profile :: m.keychain[k];
      var t := Upsert(Renew(m, h.profile), p).(keychain := keychain);
      MarkKeeps(m, p, keychain);
      if m.activeProfile == Some(h.profile) { ResetKeeps(m, t); } else { OtherStays(m, p, keychain); }
    }
  }

  lemma SwitchKeeps(m: Session, id: nat, readFails: bool)
    requires Good(m) && OwnStamps(m)
    ensures
      var (m', call) := SwitchProfile(m, id, readFails);
      && Keeps(m, m')
      && (call.Some? ==>
            call.value.Me? && call.value.activation == m'.activation && m'.activation != m.activation
            && Activating(m', call.value.profile) && CallStamps(call.value, m'.nextStamp))
  {
    if Find(m.profiles, id).Some? {
      LeavingKeeps(m);
      SwitchedFrom(m, ResetActiveState(SessionModel.CancelLogin(m)), id, readFails);
    }
  }

  /** What is left when a session is left. */
  predicate Left(m: Session, r: Session) {
    && OwnStamps(r) && Fresher(m, r) && r.activation > m.nextStamp && r.phase == Loading
    && r.pushIdentity == None && r.token == None
    && r.keychain == m.keychain && r.profiles == m.profiles && r.revisions == m.revisions
  }

  lemma LeavingKeeps(m: Session)
    requires OwnStamps(m)
    ensures Left(m, ResetActiveState(SessionModel.CancelLogin(m)))
  {
  }

  lemma SwitchedFrom(m: Session, r: Session, id: nat, readFails: bool)
    requires Good(m) && OwnStamps(m) && Left(m, r) && r == ResetActiveState(SessionModel.CancelLogin(m))
    requires Find(m.profiles, id).Some?
    ensures
      var (m', call) := SwitchProfile(m, id, readFails);
      && Keeps(m, m')
      && (call.Some? ==>
            call.value.Me? && call.value.activation == m'.activation && m'.activation != m.activation
            && Activating(m', call.value.profile) && CallStamps(call.value, m'.nextStamp))
  {
  }

  lemma MeAnsweredKeeps(m: Session, call: Call, answer: Answer, readFails: bool, removeFails: bool)
    requires call.Me? && Good(m) && OwnStamps(m)
    requires call.activation == m.activation ==> Activating(m, call.profile)
    ensures
      var m' := MeAnswered(m, call, answer, readFails, removeFails);
      && Good(m') && OwnStamps(m') && Fresher(m, m')
      && (call.activation != m.activation ==> Undisturbed(m, m'))
      && (m'.activation == m.activation ==> m'.activeProfile == m.activeProfile)
  {
    if call.hook.Some? {
      InvalidateKeeps(m, call.hook.value, readFails, removeFails);
    }
    var t := if answer.Unauthorized? && call.hook.Some?
        then InvalidateProfile(m, call.hook.value, readFails, removeFails) else m;
    if t.activation == call.activation && t.activeProfile == Some(call.profile) && answer.Account? {
      if answer.email != call.email {
        if call.profile in t.revisions {
          InvalidateKeeps(t, Hook(call.profile, call.stored, t.revisions[call.profile]), readFails, removeFails);
        }
      } else {
        ApplyKeeps(t, answer.stores);
      }
    }
  }

  lemma LogoutKeeps(m: Session, removeFails: bool)
    requires Good(m) && OwnStamps(m)
    ensures Keeps(m, SessionModel.Logout(m, removeFails))
  {
    var p := if m.activeProfile.Some? then Find(m.profiles, m.activeProfile.value) else None;
    if p.Some? { LogoutOfKeeps(m, p.value, removeFails); } else { NobodyLogsOut(m); }
  }

  lemma NobodyLogsOut(m: Session)
    requires OwnStamps(m)
    ensures Keeps(m, ResetActiveState(SessionModel.CancelLogin(m)).(phase := LoggedOut))
  {
  }

  lemma LogoutOfKeeps(m: Session, p: Profile, removeFails: bool)
    requires OwnStamps(m) && m.activeProfile.Some? && Find(m.profiles, m.activeProfile.value) == Some(p)
    ensures Keeps(m, SessionModel.Logout(m, removeFails))
  {
    var t, u := SignOut(m, p), SessionModel.Logout(m, removeFails);
    SignOutKeeps(m, p);
    LeftKeeps(m, t, u.keychain, u.revoked);
    assert u == t.(keychain := u.keychain, revoked := u.revoked);
  }

  /** Credentials do not matter to who is signed out. */
  lemma LeftKeeps(m: Session, t: Session, keychain: map<nat, string>, revoked: seq<Client>)
    requires OwnStamps(m) && OwnStamps(t) && Fresher(m, t) && t.activation > m.nextStamp
    requires t.phase == LoggedOut && t.pushIdentity == None
    ensures Keeps(m, t.(keychain := keychain, revoked := revoked))
  {
  }

  lemma SignOutKeeps(m: Session, p: Profile)
    requires OwnStamps(m)
    ensures var m' := SignOut(m, p);
      OwnStamps(m') && Fresher(m, m') && m'.phase == LoggedOut && m'.pushIdentity == None && m'.activation > m.nextStamp
  {
  }

  lemma ResumeKeeps(m: Session, activation: nat, attempt: nat, readFails: bool)
    requires Good(m) && OwnStamps(m) && (m.activeProfile == None ==> m.phase != LoggedIn)
    ensures
      var (m', call) := Resume(m, activation, attempt, readFails);
      && Keeps(m, m')
      && (call.Some? ==>
            call.value.Me? && call.value.activation == m'.activation && m'.activation != m.activation
            && Activating(m', call.value.profile) && CallStamps(call.value, m'.nextStamp))
  {
    if Preferred(m).Some? {
      SwitchKeeps(m, Preferred(m).value, readFails);
    }
  }

  lemma BootstrapKeeps(m: Session, legacy: Legacy, readFails: bool)
    requires Good(m) && OwnStamps(m)
    ensures
      var (m', call) := Bootstrap(m, legacy, readFails);
      && Keeps(m, m')
      && (call.Some? ==> CallStamps(call.value, m'.nextStamp))
      && (call.Some? && call.value.Me? ==>
            call.value.activation == m'.activation && m'.activation != m.activation
                && Activating(m', call.value.profile))
      && (call.Some? && call.value.LegacyMe? ==> m'.activeProfile == None)
  {
    if m.phase == Loading && m.activeProfile == None {
      ResumeKeeps(m, m.activation, m.loginAttempt, readFails);
      ResumeKeeps(SetPush(m, None), m.activation, m.loginAttempt, readFails);
    }
  }

  lemma LegacyAnsweredKeeps(m: Session, call: Call, answer: Answer, readFails: bool)
    requires call.LegacyMe? && Good(m) && OwnStamps(m)
    requires call.activation == m.activation ==> m.activeProfile == None
    ensures
      var (m', next) := LegacyAnswered(m, call, answer, readFails);
      && Keeps(m, m')
      && (next.Some? ==>
            next.value.Me? && next.value.activation == m'.activation && m'.activation != m.activation
            && Activating(m', next.value.profile) && CallStamps(next.value, m'.nextStamp))
  {
    MigrateKeeps(m, call, answer);
    if call.activation == m.activation {
      ResumeKeeps(Migrated(m, call, answer), call.activation, call.attempt, readFails);
    }
  }

  /** The first half of the legacy answer. */
  lemma MigrateKeeps(m: Session, call: Call, answer: Answer)
    requires call.LegacyMe? && Good(m) && OwnStamps(m)
    requires call.activation == m.activation ==> m.activeProfile == None
    ensures var m' := Migrated(m, call, answer);
      && Good(m') && (call.activation != m.activation ==> m' == m)
      && m'.activation == m.activation && m'.activeProfile == m.activeProfile && m'.phase == m.phase
      && OwnStamps(m') && Fresher(m, m')
  {
  }

  // ---------------------------------------------------------------- every run

  /**
   * A step that keeps the session and starts at most one call, whose profile request (if any) is the new
   * activation's.
   */
  lemma Assemble(s: System, s': System, call: Option<Call>)
    requires Inv(s) && Keeps(s.session, s'.session)
    requires s'.hooks == s.hooks
    requires forall c :: c in s'.calls ==> c in s.calls && s'.calls[c] == s.calls[c]
    requires s'.nextCall == s.nextCall
    requires call.Some? ==> CallStamps(call.value, s'.session.nextStamp)
    requires call.Some? && call.value.Me? ==>
      call.value.activation == s'.session.activation && s'.session.activation != s.session.activation
      && Activating(s'.session, call.value.profile)
    requires call.Some? && call.value.LegacyMe? ==> s'.session.activeProfile == None
    ensures Inv(Begin(s', call))
  {
    var b := Begin(s', call);
    forall c | c in b.calls ensures c < b.nextCall && CallStamps(b.calls[c], b.session.nextStamp) {
      if c in s'.calls && !(call.Some? && c == s'.nextCall) { assert CallStamps(s.calls[c], s.session.nextStamp); }
    }
    forall c | c in s'.calls && s'.calls[c].Me? && s'.calls[c].activation == s'.session.activation
      ensures s'.session.activation == s.session.activation && Activating(s'.session, s'.calls[c].profile)
    {
      assert CallStamps(s.calls[c], s.session.nextStamp);
    }
  }

  predicate ByUser(e: Event) {
    e.Bootstraps? || e.Login? || e.CompleteLogin? || e.CancelLogin? || e.Switch? || e.Logout? || e.Select?
  }

  lemma UserStep(s: System, e: Event)
    requires Inv(s) && ByUser(e)
    ensures Inv(Step(s, e))
  {
    var m := s.session;
    match e
    case Bootstraps(legacy, rf) =>
      BootstrapKeeps(m, legacy, rf);
      var (t, call) := Bootstrap(m, legacy, rf);
      Assemble(s, s.(session := t), call);
    case Login(server) =>
      var t := SessionModel.CancelLogin(m);
      Assemble(s, s.(session := t), Some(SignIn(t.loginAttempt, server)));
    case CompleteLogin(challenge) => Assemble(s, s, if Step(s, e) == s then None
        else Some(SecondStep(m.pendingLogin.value)));
    case CancelLogin => Assemble(s, s.(session := SessionModel.CancelLogin(m)), None);
    case Switch(id, rf) =>
      SwitchKeeps(m, id, rf);
      var (t, call) := SwitchProfile(m, id, rf);
      Assemble(s, s.(session := t), call);
    case Logout(rf) =>
      LogoutKeeps(m, rf);
      Assemble(s, s.(session := SessionModel.Logout(m, rf)), None);
    case Select(store) =>
      SelectKeeps(m, store);
      Assemble(s, s.(session := SelectStore(m, store)), None);
  }

  lemma StepKeepsInv(s: System, e: Event)
    requires Inv(s)
    ensures Inv(Step(s, e))
  {
    match e
    case BuildClient =>
    case SignInAnswer(c, signed) => SignInStep(s, c, signed);
    case MeAnswer(c, answer, rf, vf) => MeStep(s, c, answer, rf, vf);
    case LegacyAnswer(c, answer, rf) => LegacyStep(s, c, answer, rf);
    case LateUnauthorized(h, rf, vf) =>
      InvalidateKeeps(s.session, h, rf, vf);
      Assemble(s, s.(session := InvalidateProfile(s.session, h, rf, vf)), None);
    case Relaunches =>
    case _ => UserStep(s, e);
  }

  lemma SignInStep(s: System, c: nat, signed: Signed)
    requires Inv(s)
    ensures Inv(Step(s, SignInAnswer(c, signed)))
  {
    if c in s.calls && (s.calls[c].SignIn? || s.calls[c].SecondStep?) {
      SignInAnsweredKeeps(s.session, s.calls[c], signed);
      Assemble(s, s.(session := SignInAnswered(s.session, s.calls[c], signed), calls := Ended(s.calls, c)), None);
    }
  }

  lemma LegacyStep(s: System, c: nat, answer: Answer, readFails: bool)
    requires Inv(s)
    ensures Inv(Step(s, LegacyAnswer(c, answer, readFails)))
  {
    if c in s.calls && s.calls[c].LegacyMe? {
      LegacyAnsweredKeeps(s.session, s.calls[c], answer, readFails);
      var (t, call) := LegacyAnswered(s.session, s.calls[c], answer, readFails);
      Assemble(s, s.(session := t, calls := Ended(s.calls, c)), call);
    }
  }

  lemma MeStep(s: System, c: nat, answer: Answer, readFails: bool, removeFails: bool)
    requires Inv(s)
    ensures Inv(Step(s, MeAnswer(c, answer, readFails, removeFails)))
  {
    if c in s.calls && s.calls[c].Me? {
      var call := s.calls[c];
      MeAnsweredKeeps(s.session, call, answer, readFails, removeFails);
      var t := MeAnswered(s.session, call, answer, readFails, removeFails);
      var s' := s.(session := t, calls := Ended(s.calls, c));
      if call.activation != s.session.activation {
        Assemble(s, s', None);
      } else {
        // The answered request was the only one of the current activation.
        assert forall d :: d in s'.calls && s'.calls[d].Me? ==> s'.calls[d].activation != s.session.activation;
        forall d | d in s'.calls
            ensures CallStamps(s'.calls[d], t.nextStamp)
                && !(s'.calls[d].LegacyMe? && s'.calls[d].activation == t.activation) {
          assert CallStamps(s.calls[d], s.session.nextStamp);
        }
        assert forall d :: d in s'.calls && s'.calls[d].Me? ==> s'.calls[d].activation != t.activation;
      }
    }
  }

  lemma {:induction false} RunKeepsInv(s: System, events: seq<Event>)
    requires Inv(s)
    ensures Inv(Run(s, events))
    decreases |events|
  {
    if events != [] {
      StepKeepsInv(s, events[0]);
      RunKeepsInv(Step(s, events[0]), events[1..]);
    }
  }

  lemma InitialInv(s: System)
    requires Initial(s)
    ensures Inv(s)
  {
  }

  /**
   * In every reachable state, being logged in means that the active profile is saved, wants no sign-in and names the
   * current server, and that its stored credential is the one in use.
   */
  lemma LoggedInIsBacked(s: System, events: seq<Event>)
    requires Initial(s) && Run(s, events).session.phase == LoggedIn
    ensures SignedIn(Run(s, events).session)
  {
    InitialInv(s);
    RunKeepsInv(s, events);
  }

  /** The push manager has the session's identity exactly while logged in with a store selected, and none otherwise. */
  lemma PushIdentityFollowsSession(s: System, events: seq<Event>)
    requires Initial(s)
    ensures PushFollows(Run(s, events).session)
  {
    InitialInv(s);
    RunKeepsInv(s, events);
  }
}
