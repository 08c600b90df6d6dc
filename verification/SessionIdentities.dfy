/** Every identity handed to the push manager is new, which is what its protocol relies on. */
module SessionIdentities {
  import opened Wrappers
  import opened SessionModel
  import opened SessionSystem
  import opened SessionSafety

  predicate Older(m: Session) {
    && m.generation < m.nextStamp
    && forall i :: i in m.given ==> i.generation < m.nextStamp
  }

  /** Outside a login, the current generation has not been handed out. */
  predicate Unused(m: Session) {
    m.phase != LoggedIn ==> forall i :: i in m.given ==> i.generation != m.generation
  }

  predicate Fresh(m: Session) {
    Older(m) && Unused(m)
  }

  /** The only identities handed out between two states are ones never given before. */
  predicate GivesNew(m: Session, m': Session) {
    && m.given <= m'.given
    && (m'.pushIdentity.Some? && m'.pushIdentity != m.pushIdentity ==> m'.pushIdentity.value !in m.given)
  }

  predicate Hands(m: Session, m': Session) {
    Fresh(m') && GivesNew(m, m')
  }

  lemma ApplyHands(m: Session, stores: seq<string>)
    requires Fresh(m) && m.phase != LoggedIn
    ensures Hands(m, Apply(m, stores))
  {
  }

  lemma ResetHands(m: Session)
    requires Older(m)
    ensures var r := ResetActiveState(m);
      Fresh(r) && r.given == m.given && r.phase == Loading && r.pushIdentity == None
  {
  }

  lemma FinishLoginHands(
      m: Session, server: string, token: string, email: string, stores: seq<string>, writeFails: bool)
    requires Fresh(m)
    ensures Hands(m, FinishLogin(m, server, token, email, stores, writeFails))
  {
    if token != "" && !writeFails {
      var p := SigningIn(m, server, email);
      var kept := Upsert(m.(keychain := m.keychain[p.id := token], nextStamp := m.nextStamp + 1), p);
      ResetHands(SessionModel.CancelLogin(Renew(kept, p.id)));
      ApplyHands(Adopt(m, p, token), stores);
    }
  }

  lemma InvalidateHands(m: Session, h: Hook, readFails: bool, removeFails: bool)
    requires Fresh(m)
    ensures Hands(m, InvalidateProfile(m, h, readFails, removeFails))
  {
  }

  lemma SwitchHands(m: Session, id: nat, readFails: bool)
    requires Fresh(m)
    ensures Hands(m, SwitchProfile(m, id, readFails).0)
  {
  }

  lemma LogoutHands(m: Session, removeFails: bool)
    requires Fresh(m)
    ensures Hands(m, SessionModel.Logout(m, removeFails))
  {
  }

  lemma SelectHands(m: Session, store: Option<string>)
    requires Fresh(m)
    ensures Hands(m, SelectStore(m, store))
  {
  }

  lemma ResumeHands(m: Session, activation: nat, attempt: nat, readFails: bool)
    requires Fresh(m) && Good(m)
    ensures Hands(m, Resume(m, activation, attempt, readFails).0)
  {
    if m.activeProfile == None && Preferred(m).Some? {
      SwitchHands(m, Preferred(m).value, readFails);
    }
  }

  lemma MeAnsweredHands(m: Session, call: Call, answer: Answer, readFails: bool, removeFails: bool)
    requires call.Me? && Fresh(m) && Good(m)
    requires call.activation == m.activation ==> Activating(m, call.profile)
    ensures Hands(m, MeAnswered(m, call, answer, readFails, removeFails))
  {
    if call.hook.Some? {
      InvalidateHands(m, call.hook.value, readFails, removeFails);
    }
    var t := if answer.Unauthorized? && call.hook.Some?
        then InvalidateProfile(m, call.hook.value, readFails, removeFails) else m;
    if t.activation == call.activation && t.activeProfile == Some(call.profile) && answer.Account? {
      ApplyHands(t, answer.stores);
      if call.profile in t.revisions {
        InvalidateHands(t, Hook(call.profile, call.stored, t.revisions[call.profile]), readFails, removeFails);
      }
    }
  }

  lemma StepHands(s: System, e: Event)
    requires Inv(s) && Fresh(s.session)
    ensures Hands(s.session, Step(s, e).session)
  {
    match e
    case SignInAnswer(c, signed) => SignInHands(s, c, signed);
    case MeAnswer(c, answer, rf, vf) => MeHands(s, c, answer, rf, vf);
    case LegacyAnswer(c, answer, rf) => LegacyAnswerHands(s, c, answer, rf);
    case Bootstraps(_, _) => BootstrapHands(s, e);
    case Switch(id, rf) => SwitchHands(s.session, id, rf);
    case Logout(rf) => LogoutHands(s.session, rf);
    case Select(store) => SelectHands(s.session, store);
    case LateUnauthorized(h, rf, vf) => InvalidateHands(s.session, h, rf, vf);
    case _ =>
  }

  lemma BootstrapHands(s: System, e: Event)
    requires Inv(s) && Fresh(s.session) && e.Bootstraps?
    ensures Hands(s.session, Step(s, e).session)
  {
    var m := s.session;
    ResumeHands(m, m.activation, m.loginAttempt, e.readFails);
    if m.phase == Loading { ResumeHands(SetPush(m, None), m.activation, m.loginAttempt, e.readFails); }
  }

  lemma SignInHands(s: System, c: nat, signed: Signed)
    requires Inv(s) && Fresh(s.session)
    ensures Hands(s.session, Step(s, SignInAnswer(c, signed)).session)
  {
    if c in s.calls && (s.calls[c].SignIn? || s.calls[c].SecondStep?) && signed.Complete? {
      var call := s.calls[c];
      FinishLoginHands(s.session, if call.SignIn? then call.server else call.draft.server,
                       signed.token, signed.email, signed.stores, signed.writeFails);
    }
  }

  lemma MeHands(s: System, c: nat, answer: Answer, readFails: bool, removeFails: bool)
    requires Inv(s) && Fresh(s.session)
    ensures Hands(s.session, Step(s, MeAnswer(c, answer, readFails, removeFails)).session)
  {
    if c in s.calls && s.calls[c].Me? { MeAnsweredHands(s.session, s.calls[c], answer, readFails, removeFails); }
  }

  lemma LegacyAnswerHands(s: System, c: nat, answer: Answer, readFails: bool)
    requires Inv(s) && Fresh(s.session)
    ensures Hands(s.session, Step(s, LegacyAnswer(c, answer, readFails)).session)
  {
    if c in s.calls && s.calls[c].LegacyMe? { LegacyHands(s.session, s.calls[c], answer, readFails); }
  }

  lemma LegacyHands(m: Session, call: Call, answer: Answer, readFails: bool)
    requires call.LegacyMe? && Fresh(m) && Good(m)
    requires call.activation == m.activation ==> m.activeProfile == None
    ensures Hands(m, LegacyAnswered(m, call, answer, readFails).0)
  {
    if OwnStamps(m) { MigrateKeeps(m, call, answer); }
    var t := Migrated(m, call, answer);
    assert Fresh(t) && t.given == m.given && (t.pushIdentity == m.pushIdentity || t.pushIdentity == None);
    if Good(t) { ResumeHands(t, call.activation, call.attempt, readFails); }
  }

  lemma {:induction false} RunHands(s: System, events: seq<Event>)
    requires Inv(s) && Fresh(s.session)
    ensures Inv(Run(s, events)) && Fresh(Run(s, events).session)
    decreases |events|
  {
    if events != [] {
      StepHands(s, events[0]);
      StepKeepsInv(s, events[0]);
      RunHands(Step(s, events[0]), events[1..]);
    }
  }

  lemma InitialFresh(s: System)
    requires Initial(s)
    ensures Inv(s) && Fresh(s.session)
  {
    InitialInv(s);
  }

  /** In every run, a step that gives the push manager an identity gives one it has never had. */
  lemma IdentitiesAreNew(s: System, events: seq<Event>, e: Event, given: Identity)
    requires Initial(s)
    requires Step(Run(s, events), e).session.pushIdentity == Some(given)
    requires Run(s, events).session.pushIdentity != Some(given)
    ensures given !in Run(s, events).session.given
  {
    InitialFresh(s);
    RunHands(s, events);
    var m := Run(s, events);
    StepHands(m, e);
    assert GivesNew(m.session, Step(m, e).session);
  }
}
