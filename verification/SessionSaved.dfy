/** What every step keeps saved: the profiles in memory, the profile in use, and what its request was made with. */
module SessionSaved {
  import opened Wrappers
  import opened SessionModel
  import opened SessionSystem
  import opened SessionSafety
  import opened SessionLateness

  /** Saved profiles are those in memory, and each has a revision. */
  ghost predicate Listed(m: Session) {
    m.savedProfiles == m.profiles && forall id :: Find(m.profiles, id).Some? ==> id in m.revisions
  }

  /** A session in use is the one a relaunch would resume: its profile, its credential and its store are saved. */
  predicate Resumable(m: Session) {
    && m.activeProfile.Some? && m.lastActive == m.activeProfile && m.token.Some? && m.token.value != ""
    && var p := Find(m.profiles, m.activeProfile.value);
       p.Some? && p.value.store == m.activeStore
  }

  ghost predicate Saved(m: Session) {
    Listed(m) && (m.phase == LoggedIn ==> Resumable(m))
  }

  /** The profile request of an activation carries what is stored for its profile. */
  predicate Current(m: Session, call: Call)
    requires call.Me?
  {
    && m.activeProfile == Some(call.profile) && m.lastActive == Some(call.profile)
    && Find(m.profiles, call.profile).Some? && call.email == Find(m.profiles, call.profile).value.email
    && call.profile in m.keychain && m.keychain[call.profile] == call.stored && call.stored != ""
    && call.profile in m.revisions && call.hook == Some(Hook(call.profile, call.stored, m.revisions[call.profile]))
  }

  ghost predicate RequestsKnow(s: System) {
    forall c :: c in s.calls && s.calls[c].Me? && s.calls[c].activation == s.session.activation ==>
      Current(s.session, s.calls[c])
  }

  ghost predicate Whole(s: System) {
    Inv(s) && Saved(s.session) && RequestsKnow(s)
  }

  /** Unless something else is activated, what the request was made with is still what is stored. */
  ghost predicate Steady(m: Session, t: Session) {
    t.activation == m.activation ==> forall call: Call :: call.Me? && Current(m, call) ==> Current(t, call)
  }

  ghost predicate Fine(m: Session, t: Session) {
    Saved(t) && Steady(m, t)
  }

  // ---------------------------------------------------------------- profiles

  lemma UpsertLists(m: Session, p: Profile)
    requires Listed(m)
    ensures Listed(Renew(Upsert(m, p), p.id))
  {
    var t := Renew(Upsert(m, p), p.id);
    forall id | Find(t.profiles, id).Some? ensures id in t.revisions { FindReplaced(m.profiles, p, id); }
  }

  /** The profile as it is after its store has been saved. */
  function WithStore(m: Session, id: nat): Option<Profile> {
    match Find(m.profiles, id)
    case None => None
    case Some(p) => Some(if m.activeProfile == Some(id) then p.(store := m.activeStore) else p)
  }

  lemma FindSaved(m: Session, id: nat)
    ensures Find(SaveSelectedStore(m).profiles, id) == WithStore(m, id)
  {
    if m.activeProfile.Some? && Find(m.profiles, m.activeProfile.value).Some? {
      FindGivesId(m.profiles, m.activeProfile.value);
      FindReplaced(m.profiles, Find(m.profiles, m.activeProfile.value).value.(store := m.activeStore), id);
    }
  }

  lemma SaveStoreLists(m: Session)
    requires Listed(m)
    ensures Listed(SaveSelectedStore(m))
  {
    var t := SaveSelectedStore(m);
    assert t.revisions == m.revisions;
    forall id | Find(t.profiles, id).Some? ensures id in t.revisions { FindSaved(m, id); }
  }

  lemma ApplyStores(m: Session, stores: seq<string>) returns (chosen: Session)
    ensures chosen.profiles == m.profiles && chosen.activeProfile == m.activeProfile
    ensures chosen == m.(stores := stores, activeStore := chosen.activeStore, phase := LoggedIn)
    ensures Apply(m, stores) == ConfigurePush(SaveSelectedStore(chosen))
  {
    var p := if m.activeProfile.Some? then Find(m.profiles, m.activeProfile.value) else None;
    var last := if p.Some? then p.value.store else None;
    chosen := m.(stores := stores, activeStore := PickStore(stores, last), phase := LoggedIn);
  }

  lemma ApplySaves(m: Session, stores: seq<string>)
    requires Listed(m) && m.activeProfile.Some? && Find(m.profiles, m.activeProfile.value).Some?
    requires m.lastActive == m.activeProfile && m.token.Some? && m.token.value != ""
    ensures Saved(Apply(m, stores))
    ensures Apply(m, stores).keychain == m.keychain && Apply(m, stores).lastActive == m.lastActive
  {
    var chosen := ApplyStores(m, stores);
    SaveStoreLists(chosen);
    FindSaved(chosen, m.activeProfile.value);
  }

  // ---------------------------------------------------------------- operations

  /** The fields that saving a store, or asking for a push identity, leaves alone. */
  predicate SameSession(m: Session, t: Session) {
    && t.phase == m.phase && t.activation == m.activation && t.activeProfile == m.activeProfile
    && t.lastActive == m.lastActive && t.token == m.token && t.keychain == m.keychain && t.revisions == m.revisions
  }

  lemma SaveStoreTouches(m: Session)
    ensures SameSession(m, SaveSelectedStore(m)) && SaveSelectedStore(m).activeStore == m.activeStore
  {
  }

  lemma ConfigureTouches(m: Session)
    ensures
      var t := ConfigurePush(m);
      && SameSession(m, t) && t.activeStore == m.activeStore && t.profiles == m.profiles
      && t.savedProfiles == m.savedProfiles
  {
  }

  lemma ListedFrame(m: Session, t: Session)
    requires Listed(m) && t.profiles == m.profiles && t.savedProfiles == m.savedProfiles && t.revisions == m.revisions
    ensures Listed(t)
  {
  }

  function Chosen(m: Session, store: Option<string>): Session {
    m.(activeStore := store, generation := m.nextStamp, nextStamp := m.nextStamp + 1)
  }

  lemma SelectTouches(m: Session, store: Option<string>)
    requires Listed(m) && store != m.activeStore
    ensures
      var t := SelectStore(m, store);
      && SameSession(m, t) && t.activeStore == store && Listed(t)
      && (m.activeProfile.Some? ==>
            Find(t.profiles, m.activeProfile.value) == WithStore(Chosen(m, store), m.activeProfile.value))
  {
    var chosen := Chosen(m, store);
    var kept := SaveSelectedStore(chosen);
    ListedFrame(m, chosen);
    SaveStoreLists(chosen);
    SaveStoreTouches(chosen);
    ConfigureTouches(kept);
    ListedFrame(kept, ConfigurePush(kept));
    if m.activeProfile.Some? { FindSaved(chosen, m.activeProfile.value); }
  }

  lemma SelectFine(m: Session, store: Option<string>)
    requires Saved(m)
    ensures Fine(m, SelectStore(m, store))
  {
    if store != m.activeStore { SelectTouches(m, store); }
  }

  lemma LogoutFine(m: Session, removeFails: bool)
    requires Saved(m) && OwnStamps(m)
    ensures Fine(m, SessionModel.Logout(m, removeFails))
  {
    if m.activeProfile.Some? && Find(m.profiles, m.activeProfile.value).Some? {
      var p := Find(m.profiles, m.activeProfile.value).value;
      FindGivesId(m.profiles, m.activeProfile.value);
      UpsertLists(SessionModel.CancelLogin(m), p.(requiresLogin := true));
      SignOutLists(m, p);
    }
  }

  lemma SignOutLists(m: Session, p: Profile)
    requires Listed(m)
    ensures Listed(SignOut(m, p)) && SignOut(m, p).phase == LoggedOut && SignOut(m, p).activation >= m.nextStamp
  {
    var c := SessionModel.CancelLogin(m);
    UpsertLists(c, p.(requiresLogin := true));
    assert SignOut(m, p).profiles == Renew(Upsert(c, p.(requiresLogin := true)), p.id).profiles;
    assert SignOut(m, p).revisions == Renew(Upsert(c, p.(requiresLogin := true)), p.id).revisions;
  }

  /** A profile is marked in one place and renewed; the order does not matter. */
  lemma MarkedLists(m: Session, p: Profile, id: nat)
    requires Listed(m) && p.id == id
    ensures Listed(Upsert(Renew(m, id), p))
  {
    UpsertLists(m, p);
    assert Upsert(Renew(m, id), p) == Renew(Upsert(m, p), id);
  }

  lemma InvalidateFine(m: Session, h: Hook, readFails: bool, removeFails: bool)
    requires Saved(m) && OwnStamps(m)
    ensures Fine(m, InvalidateProfile(m, h, readFails, removeFails))
  {
    var t := InvalidateProfile(m, h, readFails, removeFails);
    if t != m {
      var p := Find(m.profiles, h.profile).value;
      FindGivesId(m.profiles, h.profile);
      MarkedLists(m, p.(requiresLogin := true), h.profile);
      if m.activeProfile.Some? { FindReplaced(m.profiles, p.(requiresLogin := true), m.activeProfile.value); }
    }
  }

  lemma SwitchFine(m: Session, id: nat, readFails: bool)
    requires Saved(m) && OwnStamps(m)
    ensures
      var (t, call) := SwitchProfile(m, id, readFails);
      Fine(m, t) && (call.Some? ==> call.value.Me? && Current(t, call.value))
  {
  }

  lemma AdoptLists(m: Session, p: Profile, token: string)
    requires Listed(m)
    ensures
      var t := Adopt(m, p, token);
      Listed(t) && Find(t.profiles, p.id) == Some(p) && t.activeProfile == Some(p.id) && t.lastActive == Some(p.id)
  {
    UpsertLists(m, p);
    FindReplaced(m.profiles, p, p.id);
    var t := Adopt(m, p, token);
    assert t.profiles == Replaced(m.profiles, p) && t.savedProfiles == t.profiles;
    assert t.revisions.Keys == m.revisions.Keys + {p.id};
  }

  lemma FinishLoginFine(
      m: Session, server: string, token: string, email: string, stores: seq<string>, writeFails: bool)
    requires Saved(m) && OwnStamps(m)
    ensures Fine(m, FinishLogin(m, server, token, email, stores, writeFails))
  {
    if token != "" && !writeFails {
      var p := SigningIn(m, server, email);
      AdoptLists(m, p, token);
      ApplySaves(Adopt(m, p, token), stores);
      AdoptKeeps(m, p, token);
      assert FinishLogin(m, server, token, email, stores, writeFails).activation == Adopt(m, p, token).activation;
    }
  }

  lemma SignInFine(m: Session, call: Call, signed: Signed)
    requires (call.SignIn? || call.SecondStep?) && Saved(m) && OwnStamps(m)
    ensures Fine(m, SignInAnswered(m, call, signed))
  {
    var server := if call.SignIn? then call.server else call.draft.server;
    match signed
    case Complete(token, email, stores, writeFails) => FinishLoginFine(m, server, token, email, stores, writeFails);
    case _ =>
  }

  lemma CurrentApplies(m: Session, call: Call, stores: seq<string>)
    requires call.Me? && Saved(m) && Current(m, call) && SignedIn(m)
    ensures Saved(Apply(m, stores))
  {
    ApplySaves(m, stores);
  }

  /** The answer to the current request leaves no request of this activation. */
  lemma MeFine(m: Session, call: Call, answer: Answer, readFails: bool, removeFails: bool)
    requires call.Me? && Saved(m) && OwnStamps(m)
    requires call.activation == m.activation ==> Current(m, call) && Activating(m, call.profile)
    ensures
      var t := MeAnswered(m, call, answer, readFails, removeFails);
      Saved(t) && (call.activation != m.activation && call.activation < m.nextStamp ==> Steady(m, t))
  {
    if call.hook.Some? { InvalidateFine(m, call.hook.value, readFails, removeFails); }
    var t := LateEffect(m, call, answer, readFails, removeFails);
    if t.activation == call.activation && t.activeProfile == Some(call.profile) && answer.Account? {
      if answer.email != call.email {
        if call.profile in t.revisions {
          InvalidateFine(t, Hook(call.profile, call.stored, t.revisions[call.profile]), readFails, removeFails);
        }
      } else if call.activation == m.activation {
        CurrentApplies(t, call, answer.stores);
      }
    }
  }

  /** The first half of a legacy answer adds at most one profile. */
  lemma MigratedFine(m: Session, call: Call, answer: Answer)
    requires call.LegacyMe? && Saved(m) && OwnStamps(m) && (call.activation == m.activation ==> m.activeProfile == None)
    ensures Fine(m, Migrated(m, call, answer))
  {
    if answer.Account? && call.activation == m.activation {
      UpsertLists(m.(nextStamp := m.nextStamp + 1), Profile(m.nextStamp, call.server, answer.email, call.store, true));
    }
  }

  lemma ResumeFine(m: Session, activation: nat, attempt: nat, readFails: bool)
    requires Saved(m) && OwnStamps(m)
    ensures
      var (t, call) := Resume(m, activation, attempt, readFails);
      Fine(m, t) && (call.Some? ==> call.value.Me? && Current(t, call.value))
  {
    if Preferred(m).Some? { SwitchFine(m, Preferred(m).value, readFails); }
  }

  lemma BootstrapFine(m: Session, legacy: Legacy, readFails: bool)
    requires Saved(m) && OwnStamps(m)
    ensures
      var (t, call) := Bootstrap(m, legacy, readFails);
      Fine(m, t) && (call.Some? && call.value.Me? ==> Current(t, call.value))
  {
    ResumeFine(m, m.activation, m.loginAttempt, readFails);
    ResumeFine(SetPush(m, None), m.activation, m.loginAttempt, readFails);
  }

  lemma LegacyFine(m: Session, call: Call, answer: Answer, readFails: bool)
    requires call.LegacyMe? && Saved(m) && OwnStamps(m) && (call.activation == m.activation ==> m.activeProfile == None)
    ensures
      var (t, next) := LegacyAnswered(m, call, answer, readFails);
      Fine(m, t) && (next.Some? ==> next.value.Me? && Current(t, next.value))
  {
    var n := Migrated(m, call, answer);
    MigratedFine(m, call, answer);
    MigratedStamps(m, call, answer);
    ResumeFine(n, call.activation, call.attempt, readFails);
    ResumeActivates(n, call.activation, call.attempt, readFails);
  }

  lemma MigratedStamps(m: Session, call: Call, answer: Answer)
    requires call.LegacyMe? && OwnStamps(m)
    ensures OwnStamps(Migrated(m, call, answer)) && Migrated(m, call, answer).activation == m.activation
    ensures Migrated(m, call, answer).nextStamp >= m.nextStamp
  {
  }

  lemma ResumeActivates(m: Session, activation: nat, attempt: nat, readFails: bool)
    requires OwnStamps(m)
    ensures
      var t := Resume(m, activation, attempt, readFails).0;
      t.activation == m.activation || t.activation >= m.nextStamp
  {
    if Preferred(m).Some? { SwitchKeepsStamps(m, Preferred(m).value, readFails); }
  }

  lemma SwitchKeepsStamps(m: Session, id: nat, readFails: bool)
    ensures
      var t := SwitchProfile(m, id, readFails).0;
      t.activation == m.activation || t.activation >= m.nextStamp
  {
  }

  lemma RelaunchSaves(m: Session)
    requires m.savedProfiles == m.profiles
    ensures Saved(Relaunch(m))
  {
    var t := Relaunch(m);
    forall id | Find(t.profiles, id).Some? ensures id in t.revisions { FindIsIn(t.profiles, id); }
  }

  lemma {:induction false} FindIsIn(ps: seq<Profile>, id: nat)
    requires Find(ps, id).Some?
    ensures exists p :: p in ps && p.id == id
  {
    if ps[0].id != id { FindIsIn(ps[1..], id); } else { assert ps[0] in ps; }
  }

  // ---------------------------------------------------------------- every run

  /** A step that is fine and starts at most one call keeps every request informed. */
  lemma AssembleWhole(s: System, s': System, call: Option<Call>)
    requires Whole(s) && Fine(s.session, s'.session) && Fresher(s.session, s'.session)
    requires forall c :: c in s'.calls ==> c in s.calls && s'.calls[c] == s.calls[c]
    requires call.Some? && call.value.Me? && call.value.activation == s'.session.activation ==>
      Current(s'.session, call.value)
    ensures Saved(Begin(s', call).session) && RequestsKnow(Begin(s', call))
  {
    var b := Begin(s', call);
    forall c | c in b.calls && b.calls[c].Me? && b.calls[c].activation == b.session.activation
      ensures Current(b.session, b.calls[c])
    {
      if c in s'.calls && !(call.Some? && c == s'.nextCall) { assert CallStamps(s.calls[c], s.session.nextStamp); }
    }
  }

  lemma UserWhole(s: System, e: Event)
    requires Whole(s) && ByUser(e)
    ensures Saved(Step(s, e).session) && RequestsKnow(Step(s, e))
  {
    var m := s.session;
    StepIsFresher(s, e);
    match e
    case Bootstraps(legacy, rf) =>
      BootstrapFine(m, legacy, rf);
      var (t, call) := Bootstrap(m, legacy, rf);
      AssembleWhole(s, s.(session := t), call);
    case Login(server) =>
      var t := SessionModel.CancelLogin(m);
      AssembleWhole(s, s.(session := t), Some(SignIn(t.loginAttempt, server)));
    case CompleteLogin(challenge) =>
      if Step(s, e) != s { AssembleWhole(s, s, Some(SecondStep(m.pendingLogin.value))); }
    case CancelLogin => AssembleWhole(s, s.(session := SessionModel.CancelLogin(m)), None);
    case Switch(id, rf) =>
      SwitchFine(m, id, rf);
      var (t, call) := SwitchProfile(m, id, rf);
      AssembleWhole(s, s.(session := t), call);
    case Logout(rf) =>
      LogoutFine(m, rf);
      AssembleWhole(s, s.(session := SessionModel.Logout(m, rf)), None);
    case Select(store) =>
      SelectFine(m, store);
      AssembleWhole(s, s.(session := SelectStore(m, store)), None);
  }

  lemma SignInWhole(s: System, c: nat, signed: Signed)
    requires Whole(s)
    ensures
      var t := Step(s, SignInAnswer(c, signed));
      Saved(t.session) && RequestsKnow(t)
  {
    if c in s.calls && (s.calls[c].SignIn? || s.calls[c].SecondStep?) {
      var t := SignInAnswered(s.session, s.calls[c], signed);
      StepIsFresher(s, SignInAnswer(c, signed));
      SignInFine(s.session, s.calls[c], signed);
      AssembleWhole(s, s.(session := t, calls := Ended(s.calls, c)), None);
    }
  }

  lemma LegacyWhole(s: System, c: nat, answer: Answer, readFails: bool)
    requires Whole(s)
    ensures
      var t := Step(s, LegacyAnswer(c, answer, readFails));
      Saved(t.session) && RequestsKnow(t)
  {
    if c in s.calls && s.calls[c].LegacyMe? {
      var (t, call) := LegacyAnswered(s.session, s.calls[c], answer, readFails);
      StepIsFresher(s, LegacyAnswer(c, answer, readFails));
      LegacyFine(s.session, s.calls[c], answer, readFails);
      AssembleWhole(s, s.(session := t, calls := Ended(s.calls, c)), call);
    }
  }

  lemma MeWhole(s: System, c: nat, answer: Answer, readFails: bool, removeFails: bool)
    requires Whole(s) && c in s.calls && s.calls[c].Me?
    ensures
      var t := Step(s, MeAnswer(c, answer, readFails, removeFails));
      Saved(t.session) && RequestsKnow(t)
  {
    var e := MeAnswer(c, answer, readFails, removeFails);
    var call := s.calls[c];
    var t := Step(s, e);
    StepIsFresher(s, e);
    assert CallStamps(call, s.session.nextStamp);
    MeFine(s.session, call, answer, readFails, removeFails);
    if call.activation != s.session.activation {
      AssembleWhole(s, t, None);
    } else {
      forall d | d in t.calls && t.calls[d].Me? ensures t.calls[d].activation != t.session.activation {
        assert s.calls[d].activation != call.activation;
        assert CallStamps(s.calls[d], s.session.nextStamp);
      }
    }
  }

  lemma StepKeepsWhole(s: System, e: Event)
    requires Whole(s)
    ensures Whole(Step(s, e))
  {
    StepKeepsInv(s, e);
    match e
    case BuildClient =>
    case SignInAnswer(c, signed) => SignInWhole(s, c, signed);
    case LegacyAnswer(c, answer, rf) => LegacyWhole(s, c, answer, rf);
    case MeAnswer(c, answer, rf, vf) => if c in s.calls && s.calls[c].Me? { MeWhole(s, c, answer, rf, vf); }
    case LateUnauthorized(h, rf, vf) => ExpiryWhole(s, h, rf, vf);
    case Relaunches => RelaunchSaves(s.session);
    case _ => UserWhole(s, e);
  }

  lemma ExpiryWhole(s: System, h: Hook, readFails: bool, removeFails: bool)
    requires Whole(s)
    ensures
      var t := Step(s, LateUnauthorized(h, readFails, removeFails));
      Saved(t.session) && RequestsKnow(t)
  {
    var t := InvalidateProfile(s.session, h, readFails, removeFails);
    InvalidateKeeps(s.session, h, readFails, removeFails);
    InvalidateFine(s.session, h, readFails, removeFails);
    if h in s.hooks { AssembleWhole(s, s.(session := t), None); }
  }

  lemma {:induction false} RunKeepsWhole(s: System, events: seq<Event>)
    requires Whole(s)
    ensures Whole(Run(s, events))
    decreases |events|
  {
    if events != [] {
      StepKeepsWhole(s, events[0]);
      RunKeepsWhole(Step(s, events[0]), events[1..]);
    }
  }

  lemma InitialWhole(s: System)
    requires Initial(s)
    ensures Whole(s)
  {
    InitialInv(s);
    var before: Session :| s.session == Relaunch(before);
    forall id | Find(s.session.profiles, id).Some? ensures id in s.session.revisions {
      FindIsIn(s.session.profiles, id);
    }
  }

  lemma EveryRunIsWhole(s: System, events: seq<Event>)
    requires Initial(s)
    ensures Whole(Run(s, events))
  {
    InitialWhole(s);
    RunKeepsWhole(s, events);
  }
}
