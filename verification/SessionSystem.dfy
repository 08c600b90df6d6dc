/** The session with its suspended calls and the clients it handed out, under every interleaving of events. */
module SessionSystem {
  import opened Wrappers
  import opened SessionModel

  datatype System = System(session: Session, calls: map<nat, Call>, nextCall: nat, hooks: set<Hook>)

  datatype Event =
    | Bootstraps(legacy: Legacy, readFails: bool)
    | Login(server: string)
    | CompleteLogin(challenge: string)
    | CancelLogin
    | Switch(profile: nat, readFails: bool)
    | Logout(removeFails: bool)
    | Select(store: Option<string>)
    | BuildClient
    | SignInAnswer(call: nat, signed: Signed)
    | MeAnswer(call: nat, answer: Answer, readFails: bool, removeFails: bool)
    | LegacyAnswer(call: nat, answer: Answer, readFails: bool)
    | LateUnauthorized(hook: Hook, readFails: bool, removeFails: bool)
    | Relaunches

  function Begin(s: System, call: Option<Call>): System {
    if call == None then s else s.(calls := s.calls[s.nextCall := call.value], nextCall := s.nextCall + 1)
  }

  function Ended(calls: map<nat, Call>, id: nat): map<nat, Call> {
    map c | c in calls && c != id :: calls[c]
  }

  function Step(s: System, e: Event): System {
    var m := s.session;
    match e
    case Bootstraps(legacy, rf) =>
      var (t, call) := Bootstrap(m, legacy, rf);
      Begin(s.(session := t), call)
    case Login(server) =>
      var t := SessionModel.CancelLogin(m);
      Begin(s.(session := t), Some(SignIn(t.loginAttempt, server)))
    case CompleteLogin(challenge) =>
      if m.pendingLogin.Some? && m.pendingLogin.value.challenge == challenge
          && m.pendingLogin.value.attempt == m.loginAttempt
      then Begin(s, Some(SecondStep(m.pendingLogin.value))) else s
    case CancelLogin => s.(session := SessionModel.CancelLogin(m))
    case Switch(id, rf) =>
      var (t, call) := SwitchProfile(m, id, rf);
      Begin(s.(session := t), call)
    case Logout(rf) => s.(session := SessionModel.Logout(m, rf))
    case Select(store) => s.(session := SelectStore(m, store))
    case BuildClient => if CurrentHook(m).Some? then s.(hooks := s.hooks + {CurrentHook(m).value}) else s
    case SignInAnswer(c, signed) =>
      if !(c in s.calls && (s.calls[c].SignIn? || s.calls[c].SecondStep?)) then s
      else s.(session := SignInAnswered(m, s.calls[c], signed), calls := Ended(s.calls, c))
    case MeAnswer(c, answer, rf, vf) =>
      if !(c in s.calls && s.calls[c].Me?) then s
      else s.(session := MeAnswered(m, s.calls[c], answer, rf, vf), calls := Ended(s.calls, c))
    case LegacyAnswer(c, answer, rf) =>
      if !(c in s.calls && s.calls[c].LegacyMe?) then s
      else
        var (t, call) := LegacyAnswered(m, s.calls[c], answer, rf);
        Begin(s.(session := t, calls := Ended(s.calls, c)), call)
    case LateUnauthorized(h, rf, vf) => if h in s.hooks then s.(session := InvalidateProfile(m, h, rf, vf)) else s
    case Relaunches => System(Relaunch(m), map[], s.nextCall, {})
  }

  function Run(s: System, events: seq<Event>): System
    decreases |events|
  {
    if events == [] then s else Run(Step(s, events[0]), events[1..])
  }

  /** A process that has just started over whatever was saved. */
  ghost predicate Initial(s: System) {
    && (exists before: Session :: s.session == Relaunch(before))
    && s.calls == map[] && s.hooks == {}
    && (forall i :: i in s.session.given ==> i.generation < s.session.generation)
  }

  // ---------------------------------------------------------------- stamps

  /** Every stamp in use was taken earlier. */
  predicate CallStamps(c: Call, n: nat) {
    match c
    case SignIn(a, _) => a < n
    case SecondStep(d) => d.attempt < n
    case Me(a, _, _, _, h) => a < n && (h.Some? ==> h.value.revision < n)
    case LegacyMe(a, b, _, _) => a < n && b < n
  }

  predicate Stamped(s: System) {
    var m := s.session;
    && m.activation < m.nextStamp && m.loginAttempt < m.nextStamp
    && (m.pendingLogin.Some? ==> m.pendingLogin.value.attempt < m.nextStamp)
    && (forall id :: id in m.revisions ==> m.revisions[id] < m.nextStamp)
    && (forall c :: c in s.calls ==> c < s.nextCall && CallStamps(s.calls[c], m.nextStamp))
    && (forall h :: h in s.hooks ==> h.revision < m.nextStamp)
  }

  /** A stamp that has changed is newer than everything that existed before. */
  predicate Fresher(m: Session, m': Session) {
    && m.nextStamp <= m'.nextStamp
    && (m'.activation != m.activation ==> m'.activation >= m.nextStamp)
    && (m'.loginAttempt != m.loginAttempt ==> m'.loginAttempt >= m.nextStamp)
    && (forall id :: id in m'.revisions ==>
          (id in m.revisions && m'.revisions[id] == m.revisions[id]) || m'.revisions[id] >= m.nextStamp)
  }
}
