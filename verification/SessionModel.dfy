/**
 * The app's session across saved profiles, as a step system. Every function below is a stretch of main-actor code
 * between two suspension points; the answers that end a suspension, and the Keychain calls that throw, are
 * parameters.
 *
 * UUIDs are numbers taken from `nextStamp`, so a new one differs from every earlier one. Addresses and e-mails are
 * already in their normal form. What the session asks of the push manager is kept as the identity it was last given;
 * `given` records every identity it ever was, and `revoked` the clients it was handed to log out, in order.
 */
module SessionModel {
  import opened Wrappers

  datatype Phase = Loading | LoggedOut | LoggedIn

  datatype Profile = Profile(id: nat, server: string, email: string, store: Option<string>, requiresLogin: bool)

  /** The identity string: generation, profile and store. */
  datatype Identity = Identity(generation: nat, profile: Option<nat>, store: Option<string>)

  datatype Draft = Draft(attempt: nat, server: string, challenge: string)

  /** What a client captures for its 401s. */
  datatype Hook = Hook(profile: nat, token: string, revision: nat)

  /** A client handed to the push manager to end its session. */
  datatype Client = Client(server: string, token: Option<string>, store: Option<string>)

  /** A suspended call. */
  datatype Call =
    | SignIn(attempt: nat, server: string)
    | SecondStep(draft: Draft)
    | Me(activation: nat, profile: nat, email: string, stored: string, hook: Option<Hook>)
    | LegacyMe(activation: nat, attempt: nat, server: string, store: Option<string>)

  datatype Session = Session(
    phase: Phase,
    profiles: seq<Profile>,
    activeProfile: Option<nat>,
    server: string,
    token: Option<string>,
    revisions: map<nat, nat>,
    activation: nat,
    loginAttempt: nat,
    pendingLogin: Option<Draft>,
    stores: seq<string>,
    activeStore: Option<string>,
    generation: nat,
    pushIdentity: Option<Identity>,
    pushUsed: bool,
    given: set<Identity>,
    revoked: seq<Client>,
    lastActive: Option<nat>,
    savedProfiles: seq<Profile>,
    keychain: map<nat, string>,
    nextStamp: nat)

  function Find(profiles: seq<Profile>, id: nat): Option<Profile> {
    if profiles == [] then None
    else if profiles[0].id == id then Some(profiles[0])
    else Find(profiles[1..], id)
  }

  function FindAccount(profiles: seq<Profile>, server: string, email: string): Option<Profile> {
    if profiles == [] then None
    else if profiles[0].server == server && profiles[0].email == email then Some(profiles[0])
    else FindAccount(profiles[1..], server, email)
  }

  /** The first profile with this id is replaced; without one, the profile is appended. */
  function Replaced(profiles: seq<Profile>, p: Profile): seq<Profile> {
    if profiles == [] then [p]
    else if profiles[0].id == p.id then [p] + profiles[1..]
    else [profiles[0]] + Replaced(profiles[1..], p)
  }

  function Upsert(s: Session, p: Profile): Session {
    s.(profiles := Replaced(s.profiles, p), savedProfiles := Replaced(s.profiles, p))
  }

  function CurrentIdentity(s: Session): Identity {
    Identity(s.generation, s.activeProfile, s.activeStore)
  }

  function CurrentHook(s: Session): Option<Hook> {
    if s.activeProfile.Some? && s.token.Some? && s.activeProfile.value in s.revisions then
      Some(Hook(s.activeProfile.value, s.token.value, s.revisions[s.activeProfile.value]))
    else None
  }

  function SetPush(s: Session, identity: Option<Identity>): Session {
    s.(pushIdentity := identity, pushUsed := true, given := if identity.Some? then s.given + {identity.value}
        else s.given)
  }

  function ConfigurePush(s: Session): Session {
    if s.phase == LoggedIn && s.activeStore.Some? then SetPush(s, Some(CurrentIdentity(s))) else SetPush(s, None)
  }

  function CancelLogin(s: Session): Session {
    s.(loginAttempt := s.nextStamp, nextStamp := s.nextStamp + 1, pendingLogin := None)
  }

  function Renew(s: Session, id: nat): Session {
    s.(revisions := s.revisions[id := s.nextStamp], nextStamp := s.nextStamp + 1)
  }

  function ResetActiveState(s: Session): Session {
    SetPush(s, None).(
      activation := s.nextStamp, generation := s.nextStamp + 1, nextStamp := s.nextStamp + 2,
      token := None, stores := [], activeStore := None, activeProfile := None, server := "", phase := Loading)
  }

  function SaveSelectedStore(s: Session): Session {
    if s.activeProfile == None then s
    else match Find(s.profiles, s.activeProfile.value)
      case None => s
      case Some(p) => Upsert(s, p.(store := s.activeStore))
  }

  function PickStore(stores: seq<string>, last: Option<string>): Option<string> {
    if last.Some? && last.value in stores then last
    else if stores != [] then Some(stores[0]) else None
  }

  function Apply(s: Session, stores: seq<string>): Session {
    var p := if s.activeProfile.Some? then Find(s.profiles, s.activeProfile.value) else None;
    var last := if p.Some? then p.value.store else None;
    ConfigurePush(SaveSelectedStore(s.(stores := stores, activeStore := PickStore(stores, last), phase := LoggedIn)))
  }

  /** The observer of the active store; a store with the same slug changes nothing. */
  function SelectStore(s: Session, store: Option<string>): Session {
    if store == s.activeStore then s
    else ConfigurePush(SaveSelectedStore(s.(activeStore := store, generation := s.nextStamp,
        nextStamp := s.nextStamp + 1)))
  }

  // ---------------------------------------------------------------- sign-in

  /** The account signing in: a saved profile for it, or a new one. */
  function SigningIn(s: Session, server: string, email: string): Profile {
    match FindAccount(s.profiles, server, email)
    case Some(p) => p.(requiresLogin := false)
    case None => Profile(s.nextStamp, server, email, None, false)
  }

  /** The credential is stored before the saved profile or the current session changes. */
  function Adopt(s: Session, p: Profile, token: string): Session {
    var kept := Upsert(s.(keychain := s.keychain[p.id := token], nextStamp := s.nextStamp + 1), p);
    ResetActiveState(CancelLogin(Renew(kept, p.id))).(
      activeProfile := Some(p.id), server := p.server, token := Some(token), lastActive := Some(p.id))
  }

  function FinishLogin(
      s: Session, server: string, token: string, email: string, stores: seq<string>, writeFails: bool): Session {
    if token == "" || writeFails then s else Apply(Adopt(s, SigningIn(s, server, email), token), stores)
  }

  /** The body of a sign-in answer. Incomplete stands for a missing token or account. */
  datatype Signed =
    | Rejected
    | Incomplete
    | NeedsCode(challenge: string)
    | Complete(token: string, email: string, stores: seq<string>, writeFails: bool)

  function SignInAnswered(s: Session, call: Call, answer: Signed): Session
    requires call.SignIn? || call.SecondStep?
  {
    var attempt := if call.SignIn? then call.attempt else call.draft.attempt;
    var server := if call.SignIn? then call.server else call.draft.server;
    if attempt != s.loginAttempt then s
    else match answer
      case NeedsCode(challenge) => if call.SignIn? then s.(pendingLogin := Some(Draft(attempt, server, challenge)))
          else s
      case Complete(token, email, stores, writeFails) => FinishLogin(s, server, token, email, stores, writeFails)
      case _ => s
  }

  // ---------------------------------------------------------------- profiles

  function InvalidateProfile(s: Session, h: Hook, readFails: bool, removeFails: bool): Session {
    var p := Find(s.profiles, h.profile);
    if !(h.profile in s.revisions && s.revisions[h.profile] == h.revision) || p == None
       || readFails || !(h.profile in s.keychain && s.keychain[h.profile] == h.token) then s
    else
      var marked := Upsert(Renew(s, h.profile), p.value.(requiresLogin := true));
      var removed := if removeFails then marked
          else marked.(keychain := map k | k in s.keychain && k != h.profile :: s.keychain[k]);
      if s.activeProfile != Some(h.profile) then removed
      else ResetActiveState(removed).(activeProfile := Some(h.profile), server := p.value.server, phase := LoggedOut)
  }

  /** A profile switch up to its request; the second result is the request, if one is sent. */
  function SwitchProfile(s: Session, id: nat, readFails: bool): (Session, Option<Call>) {
    match Find(s.profiles, id)
    case None => (s, None)
    case Some(p) =>
      var t := ResetActiveState(CancelLogin(s)).(activeProfile := Some(id), server := p.server, lastActive := Some(id));
      if p.requiresLogin || readFails || !(id in s.keychain && s.keychain[id] != "") then (t.(phase := LoggedOut), None)
      else
        var u := t.(token := Some(s.keychain[id]));
        (u, Some(Me(u.activation, id, p.email, s.keychain[id], CurrentHook(u))))
  }

  datatype Answer = Account(email: string, stores: seq<string>) | Unauthorized | Failed

  function MeAnswered(s: Session, call: Call, answer: Answer, readFails: bool, removeFails: bool): Session
    requires call.Me?
  {
    var t := if answer.Unauthorized? && call.hook.Some?
        then InvalidateProfile(s, call.hook.value, readFails, removeFails) else s;
    if t.activation != call.activation || t.activeProfile != Some(call.profile) then t
    else match answer
      case Account(email, stores) =>
        if email != call.email then
          if call.profile in t.revisions then
            InvalidateProfile(t, Hook(call.profile, call.stored, t.revisions[call.profile]), readFails, removeFails)
          else t
        else Apply(t, stores)
      case _ => t.(token := None, phase := LoggedOut)
  }

  /** The profile is signed out in memory and on disk before its credential goes. */
  function SignOut(s: Session, p: Profile): Session {
    ResetActiveState(Renew(Upsert(CancelLogin(s), p.(requiresLogin := true)), p.id)).(
      activeProfile := Some(p.id), server := p.server, phase := LoggedOut)
  }

  /** The client is captured before anything changes, and handed to the push manager last. */
  function Logout(s: Session, removeFails: bool): Session {
    var p := if s.activeProfile.Some? then Find(s.profiles, s.activeProfile.value) else None;
    if p == None then ResetActiveState(CancelLogin(s)).(phase := LoggedOut)
    else
      var t := SignOut(s, p.value);
      var u := if removeFails then t
          else t.(keychain := map k | k in s.keychain && k != p.value.id :: s.keychain[k]);
      u.(revoked := s.revoked + [Client(s.server, s.token, s.activeStore)])
  }

  // ---------------------------------------------------------------- bootstrap

  /** The last active profile if it is still saved, else the first one. */
  function Preferred(s: Session): Option<nat> {
    if s.lastActive.Some? && Find(s.profiles, s.lastActive.value).Some? then s.lastActive
    else if s.profiles != [] then Some(s.profiles[0].id) else None
  }

  /** Bootstrap after its migration: resume a profile, unless something else happened meanwhile. */
  function Resume(s: Session, activation: nat, attempt: nat, readFails: bool): (Session, Option<Call>) {
    if s.activeProfile != None || s.activation != activation || s.loginAttempt != attempt then (s, None)
    else match Preferred(s)
      case Some(id) => SwitchProfile(s, id, readFails)
      case None => (s.(phase := LoggedOut), None)
  }

  /** What the legacy keys and the retirement give. NothingLegacy also stands for a legacy address without a credential,
   *  RetireThrows for any Keychain call that throws. */
  datatype Legacy = NothingLegacy | RetireThrows | Retired(server: string, store: Option<string>)

  function Bootstrap(s: Session, legacy: Legacy, readFails: bool): (Session, Option<Call>) {
    if s.phase != Loading || s.activeProfile != None then (s, None)
    else if s.profiles != [] then Resume(s, s.activation, s.loginAttempt, readFails)
    else match legacy
      case NothingLegacy => Resume(s, s.activation, s.loginAttempt, readFails)
      case RetireThrows => Resume(SetPush(s, None), s.activation, s.loginAttempt, readFails)
      case Retired(server, store) => (s, Some(LegacyMe(s.activation, s.loginAttempt, server, store)))
  }

  function Migrated(s: Session, call: Call, answer: Answer): Session
    requires call.LegacyMe?
  {
    if answer.Account? then
      if call.activation != s.activation || call.attempt != s.loginAttempt || s.profiles != [] then s
      else
        var p := Profile(s.nextStamp, call.server, answer.email, call.store, true);
        SetPush(Renew(Upsert(s.(nextStamp := s.nextStamp + 1), p), p.id).(lastActive := Some(p.id)), None)
    else if call.activation != s.activation then s
    else SetPush(s, None)
  }

  function LegacyAnswered(s: Session, call: Call, answer: Answer, readFails: bool): (Session, Option<Call>)
    requires call.LegacyMe?
  {
    Resume(Migrated(s, call, answer), call.activation, call.attempt, readFails)
  }

  /** A new process: only the profiles, the last active one and the Keychain are left. */
  function Relaunch(s: Session): Session {
    Session(Loading, s.savedProfiles, None, "", None, map p | p in s.savedProfiles :: p.id := s.nextStamp,
            s.nextStamp + 1, s.nextStamp + 2, None, [], None, s.nextStamp + 3, None, false, s.given,
            s.revoked, s.lastActive, s.savedProfiles, s.keychain, s.nextStamp + 4)
  }
}
