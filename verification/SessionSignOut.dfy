/**
 * What signing in, signing out and being expired mean for good: a signed-out profile stays so until it signs in, and a
 * session in use comes back after a relaunch.
 */
module SessionSignOut {
  import opened Wrappers
  import opened SessionModel
  import opened SessionSystem
  import opened SessionSafety
  import opened SessionLateness
  import opened SessionSaved

  // ---------------------------------------------------------------- signed out until signed in

  /** The profile is saved, and wants a sign-in. */
  predicate SignedOut(m: Session, id: nat) {
    Find(m.profiles, id).Some? && Find(m.profiles, id).value.requiresLogin
  }

  /** Signed out, and if it had no credential before it has none now. */
  predicate StaysOut(m: Session, t: Session, id: nat) {
    SignedOut(t, id) && (id !in m.keychain ==> id !in t.keychain)
  }

  /** This answer completes a sign-in that makes the profile active. */
  predicate SignsInto(s: System, e: Event, id: nat) {
    e.SignInAnswer? && Finishes(s, e.call, e.signed) && Step(s, e).session.activeProfile == Some(id)
  }

  predicate NobodySignsInto(s: System, events: seq<Event>, id: nat)
    decreases |events|
  {
    events == [] || (!SignsInto(s, events[0], id) && NobodySignsInto(Step(s, events[0]), events[1..], id))
  }

  lemma SelectStaysOut(m: Session, store: Option<string>, id: nat)
    requires SignedOut(m, id)
    ensures StaysOut(m, SelectStore(m, store), id)
  {
    if store != m.activeStore {
      FindSaved(Chosen(m, store), id);
      SaveStoreTouches(Chosen(m, store));
      ConfigureTouches(SaveSelectedStore(Chosen(m, store)));
    }
  }

  lemma ApplyStaysOut(m: Session, stores: seq<string>, id: nat)
    requires SignedOut(m, id)
    ensures StaysOut(m, Apply(m, stores), id)
  {
    var chosen := ApplyStores(m, stores);
    FindSaved(chosen, id);
    SaveStoreTouches(chosen);
    ConfigureTouches(SaveSelectedStore(chosen));
  }

  lemma InvalidateStaysOut(m: Session, h: Hook, readFails: bool, removeFails: bool, id: nat)
    requires SignedOut(m, id)
    ensures StaysOut(m, InvalidateProfile(m, h, readFails, removeFails), id)
  {
    var p := Find(m.profiles, h.profile);
    if p.Some? { FindReplaced(m.profiles, p.value.(requiresLogin := true), id); }
  }

  lemma LogoutStaysOut(m: Session, removeFails: bool, id: nat)
    requires SignedOut(m, id)
    ensures StaysOut(m, SessionModel.Logout(m, removeFails), id)
  {
    if m.activeProfile.Some? && Find(m.profiles, m.activeProfile.value).Some? {
      FindReplaced(m.profiles, Find(m.profiles, m.activeProfile.value).value.(requiresLogin := true), id);
    }
  }

  lemma FinishLoginActivates(
      m: Session, server: string, token: string, email: string, stores: seq<string>, writeFails: bool)
    requires token != "" && !writeFails
    ensures
      FinishLogin(m, server, token, email, stores, writeFails).activeProfile == Some(SigningIn(m, server, email).id)
  {
    var a := Adopt(m, SigningIn(m, server, email), token);
    var chosen := ApplyStores(a, stores);
    SaveStoreTouches(chosen);
    ConfigureTouches(SaveSelectedStore(chosen));
  }

  lemma FinishLoginStaysOut(
      m: Session, server: string, token: string, email: string, stores: seq<string>, writeFails: bool, id: nat)
    requires SignedOut(m, id)
    requires token != "" && !writeFails ==>
      FinishLogin(m, server, token, email, stores, writeFails).activeProfile != Some(id)
    ensures StaysOut(m, FinishLogin(m, server, token, email, stores, writeFails), id)
  {
    if token != "" && !writeFails {
      var p := SigningIn(m, server, email);
      FinishLoginActivates(m, server, token, email, stores, writeFails);
      FindReplaced(m.profiles, p, id);
      var a := Adopt(m, p, token);
      assert a.profiles == Replaced(m.profiles, p) && a.keychain == m.keychain[p.id := token];
      ApplyStaysOut(a, stores, id);
    }
  }

  lemma SignInStaysOut(s: System, c: nat, signed: Signed, id: nat)
    requires SignedOut(s.session, id) && !SignsInto(s, SignInAnswer(c, signed), id)
    ensures StaysOut(s.session, Step(s, SignInAnswer(c, signed)).session, id)
  {
    if Finishes(s, c, signed) {
      FinishingAnswerLogsIn(s, c, signed);
      FinishLoginStaysOut(
        s.session, Server(s.calls[c]), signed.token, signed.email, signed.stores, false, id);
    }
  }

  lemma MeStaysOut(m: Session, call: Call, answer: Answer, readFails: bool, removeFails: bool, id: nat)
    requires call.Me? && SignedOut(m, id)
    ensures StaysOut(m, MeAnswered(m, call, answer, readFails, removeFails), id)
  {
    var t := LateEffect(m, call, answer, readFails, removeFails);
    if call.hook.Some? { InvalidateStaysOut(m, call.hook.value, readFails, removeFails, id); }
    if answer.Account? {
      ApplyStaysOut(t, answer.stores, id);
      if call.profile in t.revisions {
        InvalidateStaysOut(t, Hook(call.profile, call.stored, t.revisions[call.profile]), readFails, removeFails, id);
      }
    }
  }

  /** A switch changes no profile and no credential, and asks nothing for a profile that wants a sign-in. */
  lemma SwitchStaysOut(m: Session, to: nat, readFails: bool, id: nat)
    requires SignedOut(m, id)
    ensures
      var (t, call) := SwitchProfile(m, to, readFails);
      StaysOut(m, t, id) && (call.Some? ==> call.value.Me? && call.value.profile != id)
  {
  }

  lemma ResumeStaysOut(m: Session, activation: nat, attempt: nat, readFails: bool, id: nat)
    requires SignedOut(m, id)
    ensures
      var (t, call) := Resume(m, activation, attempt, readFails);
      StaysOut(m, t, id) && (call.Some? ==> call.value.Me? && call.value.profile != id)
  {
    if Preferred(m).Some? { SwitchStaysOut(m, Preferred(m).value, readFails, id); }
  }

  lemma BootstrapStaysOut(m: Session, legacy: Legacy, readFails: bool, id: nat)
    requires SignedOut(m, id)
    ensures
      var (t, call) := Bootstrap(m, legacy, readFails);
      StaysOut(m, t, id) && (call.Some? && call.value.Me? ==> call.value.profile != id)
  {
    ResumeStaysOut(m, m.activation, m.loginAttempt, readFails, id);
  }

  lemma LegacyStaysOut(m: Session, call: Call, answer: Answer, readFails: bool, id: nat)
    requires call.LegacyMe? && SignedOut(m, id)
    ensures
      var (t, next) := LegacyAnswered(m, call, answer, readFails);
      StaysOut(m, t, id) && (next.Some? ==> next.value.Me? && next.value.profile != id)
  {
    ResumeStaysOut(Migrated(m, call, answer), call.activation, call.attempt, readFails, id);
  }

  /** No profile request for this profile is begun by the step. */
  predicate AsksNothing(s: System, t: System, id: nat) {
    forall c :: c in t.calls && c >= s.nextCall && t.calls[c].Me? ==> t.calls[c].profile != id
  }

  lemma StepStaysOut(s: System, e: Event, id: nat)
    requires Saved(s.session) && SignedOut(s.session, id) && !SignsInto(s, e, id)
    ensures StaysOut(s.session, Step(s, e).session, id)
  {
    var m := s.session;
    match e
    case Bootstraps(legacy, rf) => BootstrapStaysOut(m, legacy, rf, id);
    case Switch(to, rf) => SwitchStaysOut(m, to, rf, id);
    case Logout(rf) => LogoutStaysOut(m, rf, id);
    case Select(store) => SelectStaysOut(m, store, id);
    case SignInAnswer(c, signed) => SignInStaysOut(s, c, signed, id);
    case MeAnswer(c, answer, rf, vf) =>
      if c in s.calls && s.calls[c].Me? { MeStaysOut(m, s.calls[c], answer, rf, vf, id); }
    case LegacyAnswer(c, answer, rf) =>
      if c in s.calls && s.calls[c].LegacyMe? { LegacyStaysOut(m, s.calls[c], answer, rf, id); }
    case LateUnauthorized(h, rf, vf) => InvalidateStaysOut(m, h, rf, vf, id);
    case Relaunches => RelaunchStaysOut(s, id);
    case _ =>
  }

  /** What is saved is what a relaunch finds. */
  lemma RelaunchStaysOut(s: System, id: nat)
    requires SignedOut(s.session, id)
    ensures s.session.savedProfiles == s.session.profiles ==> StaysOut(s.session, Step(s, Relaunches).session, id)
  {
  }

  lemma StepAsksNothing(s: System, e: Event, id: nat)
    requires Inv(s) && SignedOut(s.session, id)
    ensures AsksNothing(s, Step(s, e), id) && s.nextCall <= Step(s, e).nextCall
  {
    var m := s.session;
    match e
    case Bootstraps(legacy, rf) => BootstrapStaysOut(m, legacy, rf, id);
    case Switch(to, rf) => SwitchStaysOut(m, to, rf, id);
    case LegacyAnswer(c, answer, rf) =>
      if c in s.calls && s.calls[c].LegacyMe? { LegacyStaysOut(m, s.calls[c], answer, rf, id); }
    case _ =>
  }

  lemma {:induction false} RunStaysOut(s: System, events: seq<Event>, id: nat)
    requires Whole(s) && SignedOut(s.session, id) && NobodySignsInto(s, events, id)
    ensures
      var t := Run(s, events);
      StaysOut(s.session, t.session, id) && Whole(t) && s.nextCall <= t.nextCall && AsksNothing(s, t, id)
    decreases |events|
  {
    if events != [] {
      var t := Step(s, events[0]);
      StepStaysOut(s, events[0], id);
      StepAsksNothing(s, events[0], id);
      StepKeepsWhole(s, events[0]);
      RunStaysOut(t, events[1..], id);
      LaterAsksNothing(s, t, events[1..], id);
    }
  }

  lemma LaterAsksNothing(s: System, t: System, events: seq<Event>, id: nat)
    requires s.nextCall <= t.nextCall <= Run(t, events).nextCall
    requires AsksNothing(s, t, id) && AsksNothing(t, Run(t, events), id)
    ensures AsksNothing(s, Run(t, events), id)
  {
    var n := Run(t, events);
    forall c | c in n.calls && c >= s.nextCall && n.calls[c].Me? ensures n.calls[c].profile != id {
      if c < t.nextCall { CallsAreStable(t, events, c); }
    }
  }

  /**
   * A profile that wants a sign-in, in any reachable state, goes on wanting one until it signs in: over relaunches,
   * switches and late answers of every kind it is never logged in, no profile request is begun for it, and a credential
   * that is gone stays gone.
   */
  lemma SignedOutUntilSignIn(s: System, events: seq<Event>, id: nat, later: seq<Event>)
    requires Initial(s) && SignedOut(Run(s, events).session, id) && NobodySignsInto(Run(s, events), later, id)
    ensures
      var m, t := Run(s, events), Run(Run(s, events), later);
      && SignedOut(t.session, id) && AsksNothing(m, t, id)
      && !(t.session.phase == LoggedIn && t.session.activeProfile == Some(id))
      && (id !in m.session.keychain ==> id !in t.session.keychain)
  {
    EveryRunIsWhole(s, events);
    RunStaysOut(Run(s, events), later, id);
  }

  // ---------------------------------------------------------------- signing out

  /**
   * Signing out marks the active profile, in memory and where it is saved, removes its credential unless the Keychain
   * throws, leaves every other profile and credential alone, and hands the client of the session to the push manager.
   */
  lemma LogoutSignsOut(s: System, removeFails: bool, id: nat, other: nat)
    requires other != id && s.session.activeProfile == Some(id) && Find(s.session.profiles, id).Some?
    ensures
      var m, t := s.session, Step(s, Logout(removeFails)).session;
      && t.phase == LoggedOut && t.activeProfile == Some(id) && t.token == None && t.pushIdentity == None
      && SignedOut(t, id) && t.savedProfiles == t.profiles
      && (!removeFails ==> id !in t.keychain)
      && Find(t.profiles, other) == Find(m.profiles, other)
      && (other in t.keychain <==> other in m.keychain)
      && (other in m.keychain ==> t.keychain[other] == m.keychain[other])
      && t.revoked == m.revoked + [Client(m.server, m.token, m.activeStore)]
  {
    LogoutMarks(s.session, Find(s.session.profiles, id).value, removeFails, other);
  }

  lemma LogoutMarks(m: Session, p: Profile, removeFails: bool, other: nat)
    requires m.activeProfile.Some? && Find(m.profiles, m.activeProfile.value) == Some(p)
    requires other != m.activeProfile.value
    ensures
      var t := SessionModel.Logout(m, removeFails);
      && t.phase == LoggedOut && t.activeProfile == m.activeProfile && t.token == None && t.pushIdentity == None
      && SignedOut(t, p.id) && p.id == m.activeProfile.value && t.savedProfiles == t.profiles
      && (!removeFails ==> p.id !in t.keychain)
      && Find(t.profiles, other) == Find(m.profiles, other)
      && (other in t.keychain <==> other in m.keychain)
      && (other in m.keychain ==> t.keychain[other] == m.keychain[other])
      && t.revoked == m.revoked + [Client(m.server, m.token, m.activeStore)]
  {
    FindGivesId(m.profiles, m.activeProfile.value);
    FindReplaced(m.profiles, p.(requiresLogin := true), p.id);
    FindReplaced(m.profiles, p.(requiresLogin := true), other);
    var t := SignOut(m, p);
    assert t.profiles == Replaced(m.profiles, p.(requiresLogin := true)) && t.savedProfiles == t.profiles;
    assert t.keychain == m.keychain;
  }

  /** The client handed over is the one of the session in use: its server, and the credential stored for its profile. */
  lemma LogoutRevokesItsSession(s: System, events: seq<Event>, removeFails: bool)
    requires Initial(s) && Run(s, events).session.phase == LoggedIn
    ensures
      var m, t := Run(s, events).session, Step(Run(s, events), Logout(removeFails)).session;
      && m.activeProfile.Some? && m.activeProfile.value in m.keychain
      && Find(m.profiles, m.activeProfile.value).Some?
      && var id := m.activeProfile.value;
         t.revoked == m.revoked
           + [Client(Find(m.profiles, id).value.server, Some(m.keychain[id]), m.activeStore)]
  {
    var m := Run(s, events).session;
    LoggedInIsBacked(s, events);
    LogoutMarks(m, Find(m.profiles, m.activeProfile.value).value, removeFails, m.activeProfile.value + 1);
  }
}
