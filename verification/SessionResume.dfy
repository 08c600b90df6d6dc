/** What an answer that still counts does: it completes a sign-in, resumes a profile, or expires it. */
module SessionResume {
  import opened Wrappers
  import opened SessionModel
  import opened SessionSystem
  import opened SessionSafety
  import opened SessionLateness
  import opened SessionSaved
  import opened SessionSignOut

  // ---------------------------------------------------------------- a session in use

  /** The store a profile opens with: the one it was left with while that is offered, else the first one. */
  predicate Opens(stores: seq<string>, last: Option<string>, store: Option<string>) {
    if last.Some? && last.value in stores then store == last
    else if stores == [] then store == None
    else store == Some(stores[0])
  }

  /** Logged in with this profile, its credential and these stores, opened where the profile was left. */
  predicate InUse(m: Session, id: nat, token: string, stores: seq<string>, last: Option<string>) {
    && m.phase == LoggedIn && m.activeProfile == Some(id) && m.token == Some(token)
    && m.stores == stores && Opens(stores, last, m.activeStore)
    && id in m.keychain && m.keychain[id] == token
    && Find(m.profiles, id).Some?
    && Find(m.profiles, id).value.store == m.activeStore && !Find(m.profiles, id).value.requiresLogin
    && m.server == Find(m.profiles, id).value.server
  }

  /** What applying an account leaves of the rest. */
  lemma ApplyOpens(m: Session, id: nat, stores: seq<string>)
    requires m.activeProfile == Some(id) && Find(m.profiles, id).Some? && !Find(m.profiles, id).value.requiresLogin
    requires id in m.keychain && m.token == Some(m.keychain[id]) && m.server == Find(m.profiles, id).value.server
    ensures
      var t, p := Apply(m, stores), Find(m.profiles, id).value;
      && InUse(t, id, m.keychain[id], stores, p.store)
      && Find(t.profiles, id) == Some(p.(store := t.activeStore)) && t.keychain == m.keychain
      && t.savedProfiles == (if m.savedProfiles == m.profiles then t.profiles else t.savedProfiles)
  {
    var p := Find(m.profiles, id).value;
    var chosen := m.(stores := stores, activeStore := PickStore(stores, p.store), phase := LoggedIn);
    FindSaved(chosen, id);
    SaveStoreKeepsRest(chosen);
    ConfigureKeepsRest(SaveSelectedStore(chosen));
  }

  lemma SaveStoreKeepsRest(m: Session)
    ensures
      var t := SaveSelectedStore(m);
      && SameSession(m, t) && t.activeStore == m.activeStore && t.stores == m.stores && t.server == m.server
      && (m.savedProfiles == m.profiles ==> t.savedProfiles == t.profiles)
  {
  }

  lemma ConfigureKeepsRest(m: Session)
    ensures
      var t := ConfigurePush(m);
      && SameSession(m, t) && t.activeStore == m.activeStore && t.stores == m.stores && t.server == m.server
      && t.profiles == m.profiles && t.savedProfiles == m.savedProfiles
  {
  }

  // ---------------------------------------------------------------- a completed sign-in

  /**
   * An answer that completes a sign-in logs in with the account it names, under the saved profile of that account if
   * there is one: its credential is stored and in use, and every other profile and credential is as it was.
   */
  lemma SignInLogsIn(s: System, events: seq<Event>, c: nat, signed: Signed, other: nat)
    requires Initial(s) && Finishes(Run(s, events), c, signed)
    ensures
      var m, t := Run(s, events), Step(Run(s, events), SignInAnswer(c, signed)).session;
      var known := FindAccount(m.session.profiles, Server(m.calls[c]), signed.email);
      && t.activeProfile.Some?
      && var id := t.activeProfile.value;
         && (known.Some? ==> id == known.value.id)
         && InUse(t, id, signed.token, signed.stores, if known.Some? then known.value.store else None)
         && Find(t.profiles, id).value.server == Server(m.calls[c]) && Find(t.profiles, id).value.email == signed.email
         && (other != id ==>
               && Find(t.profiles, other) == Find(m.session.profiles, other)
               && (other in t.keychain <==> other in m.session.keychain)
               && (other in t.keychain ==> t.keychain[other] == m.session.keychain[other]))
  {
    var m := Run(s, events);
    FinishingAnswerLogsIn(m, c, signed);
    FinishOpens(m.session, Server(m.calls[c]), signed.token, signed.email, signed.stores, other);
  }

  lemma FinishOpens(m: Session, server: string, token: string, email: string, stores: seq<string>, other: nat)
    requires token != ""
    ensures
      var t, p := FinishLogin(m, server, token, email, stores, false), SigningIn(m, server, email);
      && t.activeProfile == Some(p.id) && p.server == server && p.email == email
      && InUse(t, p.id, token, stores, p.store)
      && Find(t.profiles, p.id) == Some(p.(store := t.activeStore))
      && (other != p.id ==>
            && Find(t.profiles, other) == Find(m.profiles, other)
            && (other in t.keychain <==> other in m.keychain)
            && (other in t.keychain ==> t.keychain[other] == m.keychain[other]))
  {
    var p := SigningIn(m, server, email);
    var a := Adopt(m, p, token);
    FindAccountGives(m.profiles, server, email);
    AdoptMeans(m, p, token);
    FindReplaced(m.profiles, p, other);
    FindReplaced(m.profiles, p, p.id);
    ApplyOpens(a, p.id, stores);
    if other != p.id { ApplySpares(a, stores, other); }
  }

  lemma AdoptMeans(m: Session, p: Profile, token: string)
    ensures
      var a := Adopt(m, p, token);
      && a.profiles == Replaced(m.profiles, p) && a.keychain == m.keychain[p.id := token]
      && a.activeProfile == Some(p.id) && a.server == p.server && a.token == Some(token)
  {
  }

  lemma ApplySpares(m: Session, stores: seq<string>, other: nat)
    requires m.activeProfile.Some? && other != m.activeProfile.value
    ensures Find(Apply(m, stores).profiles, other) == Find(m.profiles, other)
  {
    var chosen := ApplyStores(m, stores);
    FindSaved(chosen, other);
    ConfigureTouches(SaveSelectedStore(chosen));
  }

  /**
   * A sign-in that needs a code goes on only with the challenge it was given, and a complete answer to its second step
   * finishes it while no other sign-in was begun.
   */
  lemma CodeFinishesSignIn(s: System, server: string, challenge: string, given: string, signed: Signed)
    requires signed.Complete? && signed.token != "" && !signed.writeFails
    ensures
      var a := Step(s, Login(server));
      var b := Step(a, SignInAnswer(s.nextCall, NeedsCode(challenge)));
      var t := Step(b, CompleteLogin(given));
      && s.nextCall in a.calls && a.calls[s.nextCall] == SignIn(a.session.loginAttempt, server)
      && Finishes(a, s.nextCall, signed)
      && (if given == challenge
          then a.nextCall in t.calls && t.calls[a.nextCall].SecondStep? && Server(t.calls[a.nextCall]) == server
              && Finishes(t, a.nextCall, signed)
          else t == b)
  {
  }

  /** The user begins or cancels a sign-in, signs out, or picks a saved profile. */
  predicate Leaves(m: Session, e: Event) {
    e.Login? || e.CancelLogin? || e.Logout? || (e.Switch? && Find(m.profiles, e.profile).Some?)
  }

  lemma LogoutRenews(m: Session, removeFails: bool)
    ensures SessionModel.Logout(m, removeFails).loginAttempt == m.nextStamp
  {
    var p := if m.activeProfile.Some? then Find(m.profiles, m.activeProfile.value) else None;
    if p.Some? { SignOutRenews(m, p.value); }
  }

  lemma SignOutRenews(m: Session, p: Profile)
    ensures SignOut(m, p).loginAttempt == m.nextStamp
  {
  }

  lemma SwitchRenews(m: Session, id: nat, readFails: bool)
    requires Find(m.profiles, id).Some?
    ensures SwitchProfile(m, id, readFails).0.loginAttempt == m.nextStamp
  {
  }

  lemma LeavingRenews(s: System, e: Event)
    requires Leaves(s.session, e)
    ensures Step(s, e).session.loginAttempt == s.session.nextStamp
  {
    match e
    case Switch(id, rf) => SwitchRenews(s.session, id, rf);
    case Logout(rf) => LogoutRenews(s.session, rf);
    case _ =>
  }

  /** Whatever the user turns to next cancels the sign-ins under way: no answer to one of them finishes it later. */
  lemma LeavingCancelsSignIns(s: System, events: seq<Event>, e: Event, c: nat, later: seq<Event>, answer: Signed)
    requires Initial(s) && Leaves(Run(s, events).session, e) && IsSignIn(Run(s, events), c)
    ensures
      var end := Run(Step(Run(s, events), e), later);
      Step(end, SignInAnswer(c, answer)).session == end.session
  {
    var m := Run(s, events);
    InitialInv(s);
    RunKeepsInv(s, events);
    LeavingRenews(m, e);
    StaleSignIn(m, e, c, later, answer);
  }

  /**
   * A migrated session becomes a saved profile of the legacy account, with its store, that wants a new sign-in; its old
   * credential is not taken over.
   */
  lemma MigrationNeedsSignIn(m: System, c: nat, email: string, stores: seq<string>, readFails: bool)
    requires c in m.calls && m.calls[c].LegacyMe? && m.session.profiles == []
    requires m.calls[c].activation == m.session.activation && m.calls[c].attempt == m.session.loginAttempt
    ensures
      var t := Step(m, LegacyAnswer(c, Account(email, stores), readFails)).session;
      && |t.profiles| == 1 && t.savedProfiles == t.profiles && t.keychain == m.session.keychain
      && var p := t.profiles[0];
         && p.server == m.calls[c].server && p.email == email && p.store == m.calls[c].store && p.requiresLogin
         && t.lastActive == Some(p.id)
  {
    var call := m.calls[c];
    var n := Migrated(m.session, call, Account(email, stores));
    assert n.profiles == [Profile(m.session.nextStamp, call.server, email, call.store, true)];
    ResumeChangesNoProfile(n, call.activation, call.attempt, readFails);
  }

  lemma ResumeChangesNoProfile(m: Session, activation: nat, attempt: nat, readFails: bool)
    requires |m.profiles| == 1 && m.lastActive == Some(m.profiles[0].id)
    ensures
      var t := Resume(m, activation, attempt, readFails).0;
      && t.profiles == m.profiles && t.savedProfiles == m.savedProfiles && t.keychain == m.keychain
      && t.lastActive == m.lastActive
  {
  }

  // ---------------------------------------------------------------- the answer of the current activation

  /** The profile is marked and logged out; its credential is gone unless the Keychain throws. */
  predicate Expired(t: Session, id: nat, removeFails: bool) {
    && t.phase == LoggedOut && t.activeProfile == Some(id) && t.token == None && SignedOut(t, id)
    && (!removeFails ==> id !in t.keychain)
  }

  lemma ActiveExpires(m: Session, h: Hook, removeFails: bool)
    requires m.activeProfile == Some(h.profile) && Find(m.profiles, h.profile).Some?
    requires h.profile in m.revisions && m.revisions[h.profile] == h.revision
    requires h.profile in m.keychain && m.keychain[h.profile] == h.token
    ensures Expired(InvalidateProfile(m, h, false, removeFails), h.profile, removeFails)
  {
    var p := Find(m.profiles, h.profile).value;
    FindGivesId(m.profiles, h.profile);
    FindReplaced(m.profiles, p.(requiresLogin := true), h.profile);
  }

  /**
   * The profile answer of the current activation decides it: the account it was asked for logs in, another account or a
   * 401 expires the profile, and any other failure logs out and keeps the credential for another try.
   */
  lemma CurrentAnswerDecides(s: System, events: seq<Event>, c: nat, answer: Answer, readFails: bool, removeFails: bool)
    requires Initial(s)
    requires var m := Run(s, events); c in m.calls && m.calls[c].Me? && m.calls[c].activation == m.session.activation
    ensures
      var m := Run(s, events).session;
      var id := Run(s, events).calls[c].profile;
      var t := Step(Run(s, events), MeAnswer(c, answer, readFails, removeFails)).session;
      && Find(m.profiles, id).Some? && id in m.keychain
      && (match answer
          case Account(email, stores) =>
            if email == Find(m.profiles, id).value.email
            then InUse(t, id, m.keychain[id], stores, Find(m.profiles, id).value.store) && t.keychain == m.keychain
            else !readFails ==> Expired(t, id, removeFails)
          case Unauthorized => !readFails ==> Expired(t, id, removeFails)
          case Failed =>
            && t.phase == LoggedOut && t.activeProfile == Some(id) && t.token == None
            && t.profiles == m.profiles && t.keychain == m.keychain)
  {
    var m := Run(s, events);
    EveryRunIsWhole(s, events);
    assert Current(m.session, m.calls[c]) && Activating(m.session, m.calls[c].profile);
    AnswerDecides(m.session, m.calls[c], answer, readFails, removeFails);
  }

  lemma AnswerDecides(m: Session, call: Call, answer: Answer, readFails: bool, removeFails: bool)
    requires call.Me? && call.activation == m.activation && Current(m, call) && Activating(m, call.profile)
    requires OwnStamps(m)
    ensures
      var id := call.profile;
      var t := MeAnswered(m, call, answer, readFails, removeFails);
      match answer
      case Account(email, stores) =>
        if email == Find(m.profiles, id).value.email
        then InUse(t, id, m.keychain[id], stores, Find(m.profiles, id).value.store) && t.keychain == m.keychain
        else !readFails ==> Expired(t, id, removeFails)
      case Unauthorized => !readFails ==> Expired(t, id, removeFails)
      case Failed =>
        && t.phase == LoggedOut && t.activeProfile == Some(id) && t.token == None
        && t.profiles == m.profiles && t.keychain == m.keychain
  {
    match answer
    case Account(email, stores) =>
      if email == call.email {
        ApplyOpens(m, call.profile, stores);
      } else if !readFails {
        ActiveExpires(m, Hook(call.profile, call.stored, m.revisions[call.profile]), removeFails);
      }
    case Unauthorized => if !readFails { ActiveExpires(m, call.hook.value, removeFails); }
    case Failed =>
  }

  /** A 401 of a client built from the session in use expires its profile. */
  lemma OwnUnauthorizedExpires(s: System, events: seq<Event>, removeFails: bool)
    requires Initial(s) && Run(s, events).session.phase == LoggedIn
    ensures
      var m := Run(s, events);
      && CurrentHook(m.session).Some?
      && var unauthorized := LateUnauthorized(CurrentHook(m.session).value, false, removeFails);
         var t := Step(Step(m, BuildClient), unauthorized).session;
         m.session.activeProfile.Some? && Expired(t, m.session.activeProfile.value, removeFails)
  {
    EveryRunIsWhole(s, events);
    OwnHookExpires(Run(s, events), removeFails);
  }

  lemma OwnHookExpires(m: System, removeFails: bool)
    requires Listed(m.session) && SignedIn(m.session)
    ensures CurrentHook(m.session).Some?
    ensures
      var t := Step(Step(m, BuildClient), LateUnauthorized(CurrentHook(m.session).value, false, removeFails)).session;
      Expired(t, m.session.activeProfile.value, removeFails)
  {
    var h := CurrentHook(m.session).value;
    assert h in Step(m, BuildClient).hooks && Step(m, BuildClient).session == m.session;
    ActiveExpires(m.session, h, removeFails);
  }

  /**
   * A late 401 changes the session exactly when its client's revision of the profile is still the current one and its
   * token is still the one stored.
   */
  lemma ExpiresExactly(m: System, h: Hook, readFails: bool, removeFails: bool)
    ensures
      Step(m, LateUnauthorized(h, readFails, removeFails)).session != m.session <==>
        && h in m.hooks && Find(m.session.profiles, h.profile).Some?
        && h.profile in m.session.revisions && m.session.revisions[h.profile] == h.revision
        && !readFails && h.profile in m.session.keychain && m.session.keychain[h.profile] == h.token
  {
    RenewIsNew(m.session, h, readFails, removeFails);
  }

  lemma RenewIsNew(m: Session, h: Hook, readFails: bool, removeFails: bool)
    ensures
      var t := InvalidateProfile(m, h, readFails, removeFails);
      t == m || t.nextStamp > m.nextStamp
  {
  }

  // ---------------------------------------------------------------- switching and coming back

  /**
   * A switch to a saved profile asks for it with its stored credential, unless it wants a sign-in or has none; then it
   * is logged out with nothing asked.
   */
  lemma SwitchAsks(m: System, id: nat)
    requires Find(m.session.profiles, id).Some?
    ensures
      var t := Step(m, Switch(id, false));
      && t.session.activeProfile == Some(id) && t.session.keychain == m.session.keychain
      && t.session.profiles == m.session.profiles
      && if !SignedOut(m.session, id) && id in m.session.keychain && m.session.keychain[id] != ""
         then Asked(m, t, id) && t.session.token == Some(m.session.keychain[id])
         else t.calls == m.calls && t.session.phase == LoggedOut && t.session.token == None
  {
  }

  /** One request more: the profile's, with its stored credential, by the current activation. */
  predicate Asked(m: System, t: System, id: nat) {
    && t.nextCall == m.nextCall + 1 && m.nextCall in t.calls && t.calls[m.nextCall].Me?
    && var call := t.calls[m.nextCall];
       call.profile == id && call.activation == t.session.activation
  }

  /**
   * The first start of a process without saved profiles: with nothing to migrate it ends logged out; a legacy session
   * that was retired is asked for its account first.
   */
  lemma FirstStart(m: System, legacy: Legacy, readFails: bool)
    requires m.session.phase == Loading && m.session.activeProfile == None && m.session.profiles == []
    ensures
      var t := Step(m, Bootstraps(legacy, readFails));
      match legacy
      case Retired(server, store) =>
        && t.session == m.session && m.nextCall in t.calls
        && t.calls[m.nextCall] == LegacyMe(m.session.activation, m.session.loginAttempt, server, store)
      case _ => t.session.phase == LoggedOut && t.session.activeProfile == None && t.calls == m.calls
  {
  }

  /** After a relaunch, a bootstrap resumes the profile that was in use. */
  lemma RelaunchAsks(s: System, events: seq<Event>, legacy: Legacy)
    requires Initial(s) && Run(s, events).session.phase == LoggedIn
    ensures
      var m := Run(s, events);
      var n := Step(m, Relaunches);
      var t := Step(n, Bootstraps(legacy, false));
      && m.session.activeProfile.Some? && Asked(n, t, m.session.activeProfile.value)
      && t.session.profiles == m.session.profiles && t.session.keychain == m.session.keychain
  {
    EveryRunIsWhole(s, events);
    ResumedAsks(Run(s, events), legacy);
  }

  lemma ResumedAsks(m: System, legacy: Legacy)
    requires Whole(m) && m.session.phase == LoggedIn
    ensures
      var n := Step(m, Relaunches);
      var t := Step(n, Bootstraps(legacy, false));
      && n.nextCall == m.nextCall && Asked(n, t, m.session.activeProfile.value)
      && t.session.profiles == m.session.profiles && t.session.keychain == m.session.keychain
  {
    var n := Relaunch(m.session);
    assert n.profiles == m.session.profiles && n.keychain == m.session.keychain;
    assert n.lastActive == m.session.activeProfile && n.profiles != [];
    assert Preferred(n) == m.session.activeProfile;
    SwitchAsks(Step(m, Relaunches), m.session.activeProfile.value);
  }

  /** The request of a bootstrap after a relaunch, answered by its account. */
  lemma AskedIsAnswered(n: System, t: System, id: nat, stores: seq<string>)
    requires Whole(t) && Asked(n, t, id)
    ensures
      var m := t.session;
      && Find(m.profiles, id).Some? && id in m.keychain
      && var p := Find(m.profiles, id).value;
         InUse(Step(t, MeAnswer(n.nextCall, Account(p.email, stores), false, false)).session,
               id, m.keychain[id], stores, p.store)
  {
    var call := t.calls[n.nextCall];
    assert Current(t.session, call) && Activating(t.session, id);
    AnswerDecides(t.session, call, Account(call.email, stores), false, false);
  }

  /**
   * A session survives its process: after a relaunch and a bootstrap, the account's answer brings back the profile, its
   * credential and, while it is offered, its store.
   */
  lemma RelaunchBringsBack(s: System, events: seq<Event>, legacy: Legacy, stores: seq<string>)
    requires Initial(s) && Run(s, events).session.phase == LoggedIn
    ensures
      var m := Run(s, events);
      var t := Step(Step(m, Relaunches), Bootstraps(legacy, false));
      && m.session.activeProfile.Some? && Find(m.session.profiles, m.session.activeProfile.value).Some?
      && m.session.token.Some?
      && var p := Find(m.session.profiles, m.session.activeProfile.value).value;
         InUse(Step(t, MeAnswer(m.nextCall, Account(p.email, stores), false, false)).session,
               m.session.activeProfile.value, m.session.token.value, stores, m.session.activeStore)
  {
    EveryRunIsWhole(s, events);
    ComesBack(Run(s, events), legacy, stores);
  }

  lemma ComesBack(m: System, legacy: Legacy, stores: seq<string>)
    requires Whole(m) && m.session.phase == LoggedIn
    ensures
      var t := Step(Step(m, Relaunches), Bootstraps(legacy, false));
      var p := Find(m.session.profiles, m.session.activeProfile.value).value;
      InUse(Step(t, MeAnswer(m.nextCall, Account(p.email, stores), false, false)).session,
            m.session.activeProfile.value, m.session.token.value, stores, m.session.activeStore)
  {
    var n := Step(m, Relaunches);
    ResumedAsks(m, legacy);
    StepKeepsWhole(m, Relaunches);
    StepKeepsWhole(n, Bootstraps(legacy, false));
    BroughtBack(m, n, Step(n, Bootstraps(legacy, false)), stores);
  }

  lemma BroughtBack(m: System, n: System, t: System, stores: seq<string>)
    requires SignedIn(m.session) && Resumable(m.session) && n.nextCall == m.nextCall
    requires Whole(t) && Asked(n, t, m.session.activeProfile.value)
    requires t.session.profiles == m.session.profiles && t.session.keychain == m.session.keychain
    ensures
      var p := Find(m.session.profiles, m.session.activeProfile.value).value;
      InUse(Step(t, MeAnswer(m.nextCall, Account(p.email, stores), false, false)).session,
            m.session.activeProfile.value, m.session.token.value, stores, m.session.activeStore)
  {
    AskedIsAnswered(n, t, m.session.activeProfile.value, stores);
  }
}
