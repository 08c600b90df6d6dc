/** Late answers never commit: stamps that have changed never come back. */
module SessionLateness {
  import opened Wrappers
  import opened SessionModel
  import opened SessionSystem
  import opened SessionSafety

  lemma StepIsFresher(s: System, e: Event)
    requires Inv(s)
    ensures Fresher(s.session, Step(s, e).session)
  {
    var m := s.session;
    match e
    case Bootstraps(legacy, rf) => BootstrapKeeps(m, legacy, rf);
    case Switch(id, rf) => SwitchKeeps(m, id, rf);
    case Logout(rf) => LogoutKeeps(m, rf);
    case Select(store) => SelectKeeps(m, store);
    case SignInAnswer(c, signed) => SignInIsFresher(s, c, signed);
    case MeAnswer(c, answer, rf, vf) => MeIsFresher(s, c, answer, rf, vf);
    case LegacyAnswer(c, answer, rf) => LegacyIsFresher(s, c, answer, rf);
    case LateUnauthorized(h, rf, vf) => InvalidateKeeps(m, h, rf, vf);
    case _ =>
  }

  lemma SignInIsFresher(s: System, c: nat, signed: Signed)
    requires Inv(s)
    ensures Fresher(s.session, Step(s, SignInAnswer(c, signed)).session)
  {
    if c in s.calls && (s.calls[c].SignIn? || s.calls[c].SecondStep?) {
      SignInAnsweredKeeps(s.session, s.calls[c], signed);
    }
  }

  lemma MeIsFresher(s: System, c: nat, answer: Answer, readFails: bool, removeFails: bool)
    requires Inv(s)
    ensures Fresher(s.session, Step(s, MeAnswer(c, answer, readFails, removeFails)).session)
  {
    if c in s.calls && s.calls[c].Me? { MeAnsweredKeeps(s.session, s.calls[c], answer, readFails, removeFails); }
  }

  lemma LegacyIsFresher(s: System, c: nat, answer: Answer, readFails: bool)
    requires Inv(s)
    ensures Fresher(s.session, Step(s, LegacyAnswer(c, answer, readFails)).session)
  {
    if c in s.calls && s.calls[c].LegacyMe? { LegacyAnsweredKeeps(s.session, s.calls[c], answer, readFails); }
  }

  lemma {:induction false} RunIsFresher(s: System, events: seq<Event>)
    requires Inv(s)
    ensures Fresher(s.session, Run(s, events).session)
    decreases |events|
  {
    if events != [] {
      StepIsFresher(s, events[0]);
      StepKeepsInv(s, events[0]);
      RunIsFresher(Step(s, events[0]), events[1..]);
    }
  }

  lemma CallKept(s: System, e: Event, c: nat)
    requires c < s.nextCall
    ensures s.nextCall <= Step(s, e).nextCall
    ensures c in Step(s, e).calls ==> c in s.calls && Step(s, e).calls[c] == s.calls[c]
  {
  }

  /** A call keeps its number: later it is either gone or unchanged. */
  lemma {:induction false} CallsAreStable(s: System, events: seq<Event>, c: nat)
    requires c < s.nextCall && c in Run(s, events).calls
    ensures c in s.calls && Run(s, events).calls[c] == s.calls[c]
    decreases |events|
  {
    if events != [] {
      CallKept(s, events[0], c);
      CallsAreStable(Step(s, events[0]), events[1..], c);
    }
  }

  /** A call that is still outstanding keeps the activation it asked for; once that has passed, it never comes back. */
  lemma StaysStale(s: System, asked: seq<Event>, moved: seq<Event>, later: seq<Event>, c: nat)
    requires Initial(s)
    requires var m := Run(s, asked); c in m.calls && m.calls[c].Me?
    requires Run(Run(s, asked), moved).session.activation != Run(s, asked).calls[c].activation
    ensures
      var m, end := Run(s, asked), Run(Run(Run(s, asked), moved), later);
      c in end.calls ==> end.calls[c] == m.calls[c] && end.session.activation != m.calls[c].activation
  {
    var m := Run(s, asked);
    var n := Run(m, moved);
    InitialInv(s);
    RunKeepsInv(s, asked);
    RunKeepsInv(m, moved);
    RunIsFresher(m, moved);
    RunIsFresher(n, later);
    assert CallStamps(m.calls[c], m.session.nextStamp);
    if c in Run(n, later).calls {
      CallNumbers(m, moved);
      CallsAreStable(n, later, c);
      CallsAreStable(m, moved, c);
    }
  }

  /** What a stale profile answer does: nothing, or what its client's hook does on a 401. */
  function LateEffect(m: Session, call: Call, answer: Answer, readFails: bool, removeFails: bool): Session
    requires call.Me?
  {
    if answer.Unauthorized? && call.hook.Some? then InvalidateProfile(m, call.hook.value, readFails, removeFails) else m
  }

  lemma StaleAnswer(m: System, c: nat, answer: Answer, readFails: bool, removeFails: bool)
    requires Inv(m) && c in m.calls && m.calls[c].Me? && m.session.activation != m.calls[c].activation
    ensures Step(m, MeAnswer(c, answer, readFails, removeFails)).session ==
        LateEffect(m.session, m.calls[c], answer, readFails, removeFails)
  {
    assert CallStamps(m.calls[c], m.session.nextStamp);
  }

  /**
   * A profile answer is applied only for the activation that asked. Once anything else has been activated, an account
   * or a failure changes nothing, then or later, and a 401 does exactly what its client's hook does.
   */
  lemma LateProfileAnswerIsIgnored(
      s: System, asked: seq<Event>, moved: seq<Event>, later: seq<Event>, c: nat,
      answer: Answer, readFails: bool, removeFails: bool)
    requires Initial(s)
    requires var m := Run(s, asked); c in m.calls && m.calls[c].Me?
    requires Run(Run(s, asked), moved).session.activation != Run(s, asked).calls[c].activation
    ensures
      var end := Run(Run(Run(s, asked), moved), later);
      Step(end, MeAnswer(c, answer, readFails, removeFails)).session ==
        if c in end.calls then LateEffect(end.session, Run(s, asked).calls[c], answer, readFails, removeFails)
            else end.session
  {
    StaysStale(s, asked, moved, later, c);
    InvAfterThree(s, asked, moved, later);
    StaleOrGone(Run(Run(Run(s, asked), moved), later), c, Run(s, asked).calls[c], answer, readFails, removeFails);
  }

  lemma InvAfterThree(s: System, asked: seq<Event>, moved: seq<Event>, later: seq<Event>)
    requires Initial(s)
    ensures Inv(Run(s, asked)) && Inv(Run(Run(s, asked), moved)) && Inv(Run(Run(Run(s, asked), moved), later))
  {
    InitialInv(s);
    RunKeepsInv(s, asked);
    RunKeepsInv(Run(s, asked), moved);
    RunKeepsInv(Run(Run(s, asked), moved), later);
  }

  lemma StaleOrGone(m: System, c: nat, call: Call, answer: Answer, readFails: bool, removeFails: bool)
    requires Inv(m) && call.Me?
    requires c in m.calls ==> m.calls[c] == call && m.session.activation != call.activation
    ensures
      Step(m, MeAnswer(c, answer, readFails, removeFails)).session ==
        if c in m.calls then LateEffect(m.session, call, answer, readFails, removeFails) else m.session
  {
    if c in m.calls { StaleAnswer(m, c, answer, readFails, removeFails); }
  }

  lemma {:induction false} CallNumbers(s: System, events: seq<Event>)
    ensures s.nextCall <= Run(s, events).nextCall
    decreases |events|
  {
    if events != [] {
      CallNumbers(Step(s, events[0]), events[1..]);
    }
  }

  predicate IsSignIn(s: System, c: nat) {
    c in s.calls && (s.calls[c].SignIn? || s.calls[c].SecondStep?)
  }

  function Attempt(call: Call): nat
    requires call.SignIn? || call.SecondStep?
  {
    if call.SignIn? then call.attempt else call.draft.attempt
  }

  /** The answer completes a sign-in: its attempt is current, it carries a token, and the token could be stored. */
  predicate Finishes(s: System, c: nat, signed: Signed) {
    && IsSignIn(s, c) && Attempt(s.calls[c]) == s.session.loginAttempt
    && signed.Complete? && signed.token != "" && !signed.writeFails
  }

  function Server(call: Call): string
    requires call.SignIn? || call.SecondStep?
  {
    if call.SignIn? then call.server else call.draft.server
  }

  lemma FinishingAnswerLogsIn(m: System, c: nat, signed: Signed)
    requires Finishes(m, c, signed)
    ensures
      var n := Step(m, SignInAnswer(c, signed));
      && n.calls == Ended(m.calls, c) && n.nextCall == m.nextCall
      && n.session == FinishLogin(m.session, Server(m.calls[c]), signed.token, signed.email, signed.stores, false)
  {
  }

  lemma FinishRenewsStamps(m: System, c: nat, signed: Signed, n: System)
    requires Inv(m) && Finishes(m, c, signed) && n == Step(m, SignInAnswer(c, signed))
    ensures n.nextCall == m.nextCall && n.calls == Ended(m.calls, c)
    ensures n.session.loginAttempt > m.session.nextStamp && n.session.nextStamp > m.session.nextStamp
    ensures n.session.activeProfile.Some? && n.session.activeProfile.value in n.session.revisions
    ensures n.session.revisions[n.session.activeProfile.value] > m.session.nextStamp
  {
    FinishingAnswerLogsIn(m, c, signed);
    FinishLoginKeeps(m.session, Server(m.calls[c]), signed.token, signed.email, signed.stores, false);
  }

  lemma StaleSignIn(m: System, e: Event, c: nat, later: seq<Event>, answer: Signed)
    requires Inv(m) && IsSignIn(m, c) && Step(m, e).session.loginAttempt >= m.session.nextStamp
    ensures
      var end := Run(Step(m, e), later);
      Step(end, SignInAnswer(c, answer)).session == end.session
  {
    var n := Step(m, e);
    assert CallStamps(m.calls[c], m.session.nextStamp);
    CallKept(m, e, c);
    StepKeepsInv(m, e);
    StepIsFresher(m, e);
    AttemptIsOver(n, m.calls[c], c, later, answer);
  }

  /** A sign-in whose attempt is older than the current one never finishes. */
  lemma AttemptIsOver(n: System, call: Call, c: nat, later: seq<Event>, answer: Signed)
    requires Inv(n) && c < n.nextCall && (c in n.calls ==> n.calls[c] == call)
    requires (call.SignIn? || call.SecondStep?) && Attempt(call) < n.session.loginAttempt
    ensures
      var end := Run(n, later);
      Step(end, SignInAnswer(c, answer)).session == end.session
  {
    RunIsFresher(n, later);
    if c in Run(n, later).calls { CallsAreStable(n, later, c); }
  }

  /** Of several outstanding sign-ins at most one finishes: after that, every answer to the others changes nothing. */
  lemma AtMostOneSignInFinishes(
      s: System, events: seq<Event>, winner: nat, signed: Signed, loser: nat, later: seq<Event>, answer: Signed)
    requires Initial(s)
    requires var m := Run(s, events); Finishes(m, winner, signed) && IsSignIn(m, loser) && loser != winner
    ensures
      var end := Run(Step(Run(s, events), SignInAnswer(winner, signed)), later);
      Step(end, SignInAnswer(loser, answer)).session == end.session
  {
    var m := Run(s, events);
    InitialInv(s);
    RunKeepsInv(s, events);
    FinishRenewsStamps(m, winner, signed, Step(m, SignInAnswer(winner, signed)));
    StaleSignIn(m, SignInAnswer(winner, signed), loser, later, answer);
  }

  /** A hook whose revision has been replaced can never expire the profile again. */
  lemma StaleHookIsHarmless(m: Session, later: Session, h: Hook, readFails: bool, removeFails: bool)
    requires Fresher(m, later) && h.revision < m.nextStamp
    requires h.profile in m.revisions ==> m.revisions[h.profile] != h.revision
    ensures InvalidateProfile(later, h, readFails, removeFails) == later
  {
  }

  /** A client built before a sign-in to its profile: one handed out, or the one of an outstanding profile request. */
  predicate Built(m: System, h: Hook) {
    h in m.hooks || exists k :: k in m.calls && m.calls[k].Me? && m.calls[k].hook == Some(h)
  }

  lemma OldHookIsStale(m: System, h: Hook, c: nat, signed: Signed, n: System)
    requires Inv(m) && Built(m, h) && Finishes(m, c, signed) && n == Step(m, SignInAnswer(c, signed))
    requires n.session.activeProfile == Some(h.profile)
    ensures h.revision < n.session.nextStamp
    ensures h.profile in n.session.revisions && n.session.revisions[h.profile] != h.revision
  {
    FinishRenewsStamps(m, c, signed, n);
    if h !in m.hooks {
      var k :| k in m.calls && m.calls[k].Me? && m.calls[k].hook == Some(h);
      assert CallStamps(m.calls[k], m.session.nextStamp);
    }
    assert h.revision < m.session.nextStamp;
  }

  lemma UnauthorizedStep(m: System, h: Hook, readFails: bool, removeFails: bool)
    requires InvalidateProfile(m.session, h, readFails, removeFails) == m.session
    ensures Step(m, LateUnauthorized(h, readFails, removeFails)).session == m.session
  {
  }

  /**
   * Signing in to a profile again outlives every client built before: whenever a 401 of one runs its hook, the profile,
   * its credential and everything else stay as they are.
   */
  lemma ReauthenticatedProfileSurvivesOld401(
      s: System, events: seq<Event>, h: Hook, c: nat, signed: Signed, later: seq<Event>,
      readFails: bool, removeFails: bool)
    requires Initial(s)
    requires Built(Run(s, events), h) && Finishes(Run(s, events), c, signed)
    requires Step(Run(s, events), SignInAnswer(c, signed)).session.activeProfile == Some(h.profile)
    ensures
      var end := Run(Step(Run(s, events), SignInAnswer(c, signed)), later);
      && InvalidateProfile(end.session, h, readFails, removeFails) == end.session
      && Step(end, LateUnauthorized(h, readFails, removeFails)).session == end.session
  {
    InitialInv(s);
    RunKeepsInv(s, events);
    OldHookIsHarmless(Run(s, events), h, c, signed, later, readFails, removeFails);
    UnauthorizedStep(Run(Step(Run(s, events), SignInAnswer(c, signed)), later), h, readFails, removeFails);
  }

  lemma OldHookIsHarmless(
      m: System, h: Hook, c: nat, signed: Signed, later: seq<Event>, readFails: bool, removeFails: bool)
    requires Inv(m) && Built(m, h) && Finishes(m, c, signed)
    requires Step(m, SignInAnswer(c, signed)).session.activeProfile == Some(h.profile)
    ensures
      var end := Run(Step(m, SignInAnswer(c, signed)), later);
      InvalidateProfile(end.session, h, readFails, removeFails) == end.session
  {
    var n := Step(m, SignInAnswer(c, signed));
    LaterIsFresher(m, SignInAnswer(c, signed), later);
    OldHookIsStale(m, h, c, signed, n);
    StaleHookIsHarmless(n.session, Run(n, later).session, h, readFails, removeFails);
  }

  /** A sign-in is a new activation, so every outstanding profile request is stale after it. */
  lemma SignInLeavesRequestsBehind(m: System, c: nat, signed: Signed, k: nat, later: seq<Event>)
    requires Inv(m) && Finishes(m, c, signed) && k in m.calls && m.calls[k].Me?
    ensures
      var end := Run(Step(m, SignInAnswer(c, signed)), later);
      Inv(end) && (k in end.calls ==> end.calls[k] == m.calls[k] && end.session.activation != m.calls[k].activation)
  {
    var n := Step(m, SignInAnswer(c, signed));
    FinishRenewsStamps(m, c, signed, n);
    FinishActivates(m, c, signed);
    StepKeepsInv(m, SignInAnswer(c, signed));
    RunKeepsInv(n, later);
    RunIsFresher(n, later);
    assert CallStamps(m.calls[k], m.session.nextStamp);
    if k in Run(n, later).calls { CallsAreStable(n, later, k); }
  }

  lemma FinishActivates(m: System, c: nat, signed: Signed)
    requires Inv(m) && Finishes(m, c, signed)
    ensures Step(m, SignInAnswer(c, signed)).session.activation >= m.session.nextStamp
  {
    FinishingAnswerLogsIn(m, c, signed);
    FinishLoginKeeps(m.session, Server(m.calls[c]), signed.token, signed.email, signed.stores, false);
  }

  /**
   * A profile request outstanding while its profile signs in again changes nothing, whatever its answer and whenever.
   */
  lemma ReauthenticatedProfileSurvivesOldRequest(
      s: System, events: seq<Event>, k: nat, c: nat, signed: Signed, later: seq<Event>,
      answer: Answer, readFails: bool, removeFails: bool)
    requires Initial(s) && Finishes(Run(s, events), c, signed)
    requires k in Run(s, events).calls && Run(s, events).calls[k].Me? && Run(s, events).calls[k].hook.Some?
    requires Step(Run(s, events), SignInAnswer(c, signed)).session.activeProfile ==
        Some(Run(s, events).calls[k].hook.value.profile)
    ensures
      var end := Run(Step(Run(s, events), SignInAnswer(c, signed)), later);
      Step(end, MeAnswer(k, answer, readFails, removeFails)).session == end.session
  {
    InitialInv(s);
    RunKeepsInv(s, events);
    OldRequestIsHarmless(Run(s, events), k, c, signed, later, answer, readFails, removeFails);
  }

  lemma OldRequestIsHarmless(
      m: System, k: nat, c: nat, signed: Signed, later: seq<Event>, answer: Answer, readFails: bool, removeFails: bool)
    requires Inv(m) && Finishes(m, c, signed) && k in m.calls && m.calls[k].Me? && m.calls[k].hook.Some?
    requires Step(m, SignInAnswer(c, signed)).session.activeProfile == Some(m.calls[k].hook.value.profile)
    ensures
      var end := Run(Step(m, SignInAnswer(c, signed)), later);
      Step(end, MeAnswer(k, answer, readFails, removeFails)).session == end.session
  {
    var end := Run(Step(m, SignInAnswer(c, signed)), later);
    SignInLeavesRequestsBehind(m, c, signed, k, later);
    OldHookIsHarmless(m, m.calls[k].hook.value, c, signed, later, readFails, removeFails);
    StaleOrGone(end, k, m.calls[k], answer, readFails, removeFails);
  }

  lemma LaterIsFresher(m: System, e: Event, later: seq<Event>)
    requires Inv(m)
    ensures Fresher(Step(m, e).session, Run(Step(m, e), later).session)
  {
    StepKeepsInv(m, e);
    RunIsFresher(Step(m, e), later);
  }

  // ---------------------------------------------------------------- bootstrap comes before any push operation

  predicate Starting(m: Session) {
    m.phase == Loading && m.activeProfile == None
  }

  /**
   * The steps that ask the push manager for something and leave the app starting: a store picked that is not the active
   * one, and a legacy answer other than an account that comes after another sign-in was begun or cancelled.
   */
  predicate Disturbs(s: System, e: Event) {
    || (e.Select? && e.store != s.session.activeStore)
    || (e.LegacyAnswer? && e.call in s.calls && s.calls[e.call].LegacyMe? && !e.answer.Account?
        && s.calls[e.call].activation == s.session.activation && s.calls[e.call].attempt != s.session.loginAttempt)
  }

  /** Event `i` disturbed the start of the process that is still running at the end. */
  predicate DisturbedAt(s: System, events: seq<Event>, i: nat) {
    i < |events| && Disturbs(Run(s, events[..i]), events[i]) && forall j :: i < j < |events| ==> !events[j].Relaunches?
  }

  /** Some step since the process was launched disturbed the start. */
  predicate Disturbed(s: System, events: seq<Event>) {
    exists i: nat :: i < |events| && DisturbedAt(s, events, i)
  }

  /**
   * The app is starting after the step only if it was before, and the push manager was asked just as `Disturbs` says.
   */
  predicate StartsAs(s: System, e: Event) {
    Starting(Step(s, e).session) ==>
      Starting(s.session) && (Step(s, e).session.pushUsed <==> s.session.pushUsed || Disturbs(s, e))
  }

  lemma PreferredIsSaved(m: Session)
    ensures Preferred(m).Some? ==> Find(m.profiles, Preferred(m).value).Some?
  {
  }

  /** A bootstrap that goes on past its migration leaves the start. */
  lemma ResumeLeavesStart(m: Session, activation: nat, attempt: nat, readFails: bool)
    requires m.activeProfile == None && m.activation == activation && m.loginAttempt == attempt
    ensures !Starting(Resume(m, activation, attempt, readFails).0)
  {
    PreferredIsSaved(m);
  }

  lemma BootstrapsStart(s: System, e: Event)
    requires e.Bootstraps?
    ensures StartsAs(s, e)
  {
    var m := s.session;
    if m.phase == Loading && m.activeProfile == None {
      ResumeLeavesStart(m, m.activation, m.loginAttempt, e.readFails);
      ResumeLeavesStart(SetPush(m, None), m.activation, m.loginAttempt, e.readFails);
    }
  }

  lemma LegacyStarts(s: System, e: Event)
    requires Inv(s) && e.LegacyAnswer?
    ensures StartsAs(s, e)
  {
    if e.call in s.calls && s.calls[e.call].LegacyMe? {
      var call := s.calls[e.call];
      var t := Migrated(s.session, call, e.answer);
      if call.activation == s.session.activation && call.attempt == s.session.loginAttempt {
        ResumeLeavesStart(t, call.activation, call.attempt, e.readFails);
      }
    }
  }

  lemma SignInStarts(s: System, e: Event)
    requires Inv(s) && e.SignInAnswer?
    ensures StartsAs(s, e)
  {
    if Finishes(s, e.call, e.signed) { FinishRenewsStamps(s, e.call, e.signed, Step(s, e)); }
  }

  lemma AppliedLeavesStart(m: Session, stores: seq<string>)
    ensures !Starting(Apply(m, stores))
  {
  }

  lemma ExpiredLeavesStart(m: Session, h: Hook, readFails: bool, removeFails: bool)
    ensures
      var t := InvalidateProfile(m, h, readFails, removeFails);
      Starting(t) ==> Starting(m) && t.pushUsed == m.pushUsed
  {
  }

  lemma LateEffectStarts(m: Session, call: Call, answer: Answer, readFails: bool, removeFails: bool)
    requires call.Me?
    ensures
      var t := LateEffect(m, call, answer, readFails, removeFails);
      Starting(t) ==> Starting(m) && t.pushUsed == m.pushUsed
  {
    if call.hook.Some? { ExpiredLeavesStart(m, call.hook.value, readFails, removeFails); }
  }

  lemma MeAnswerStarts(m: Session, call: Call, answer: Answer, readFails: bool, removeFails: bool)
    requires call.Me?
    ensures
      var t := MeAnswered(m, call, answer, readFails, removeFails);
      Starting(t) ==> Starting(m) && t.pushUsed == m.pushUsed
  {
    var t := LateEffect(m, call, answer, readFails, removeFails);
    LateEffectStarts(m, call, answer, readFails, removeFails);
    if answer.Account? { AppliedLeavesStart(t, answer.stores); }
    if call.profile in t.revisions {
      ExpiredLeavesStart(t, Hook(call.profile, call.stored, t.revisions[call.profile]), readFails, removeFails);
    }
  }

  lemma MeStarts(s: System, e: Event)
    requires e.MeAnswer?
    ensures StartsAs(s, e)
  {
    if e.call in s.calls && s.calls[e.call].Me? {
      MeAnswerStarts(s.session, s.calls[e.call], e.answer, e.readFails, e.removeFails);
    }
  }

  lemma StepStarts(s: System, e: Event)
    requires Inv(s) && !e.Relaunches?
    ensures StartsAs(s, e)
  {
    match e
    case Bootstraps(_, _) => BootstrapsStart(s, e);
    case SignInAnswer(_, _) => SignInStarts(s, e);
    case MeAnswer(_, _, _, _) => MeStarts(s, e);
    case LegacyAnswer(_, _, _) => LegacyStarts(s, e);
    case LateUnauthorized(h, rf, vf) => ExpiredLeavesStart(s.session, h, rf, vf);
    case _ =>
  }

  lemma {:induction false} RunLast(s: System, events: seq<Event>, e: Event)
    ensures Run(s, events + [e]) == Step(Run(s, events), e)
    decreases |events|
  {
    if events == [] {
      assert [] + [e] == [e] && [e][1..] == [];
    } else {
      assert (events + [e])[1..] == events[1..] + [e];
      RunLast(Step(s, events[0]), events[1..], e);
    }
  }

  lemma InitialPart(events: seq<Event>, e: Event)
    ensures
      var all := events + [e];
      && all[..|events|] == events && all[|events|] == e
      && forall i :: 0 <= i < |events| ==> all[..i] == events[..i] && all[i] == events[i]
  {
    var all := events + [e];
    forall i | 0 <= i < |events| ensures all[..i] == events[..i] && all[i] == events[i] {}
  }

  lemma DisturbedStays(s: System, events: seq<Event>, e: Event, i: nat)
    requires i < |events|
    ensures DisturbedAt(s, events + [e], i) <==> DisturbedAt(s, events, i) && !e.Relaunches?
  {
    InitialPart(events, e);
    var all := events + [e];
    assert all[..i] == events[..i] && all[i] == events[i];
    assert !e.Relaunches? <==> !all[|events|].Relaunches?;
  }

  /** One step more: a relaunch forgets, any other step adds its own disturbance. */
  lemma DisturbedLast(s: System, events: seq<Event>, e: Event)
    ensures Disturbed(s, events + [e]) <==> Disturbs(Run(s, events), e) || (!e.Relaunches? && Disturbed(s, events))
  {
    InitialPart(events, e);
    assert DisturbedAt(s, events + [e], |events|) <==> Disturbs(Run(s, events), e);
    forall i: nat | i < |events|
      ensures DisturbedAt(s, events + [e], i) <==> DisturbedAt(s, events, i) && !e.Relaunches?
    {
      DisturbedStays(s, events, e, i);
    }
  }

  /**
   * In every reachable state in which the app is starting, the push manager was asked for something exactly when
   * disturbed.
   */
  lemma {:induction false} PushUsedMeansDisturbed(s: System, events: seq<Event>)
    requires Initial(s)
    ensures Starting(Run(s, events).session) ==> (Run(s, events).session.pushUsed <==> Disturbed(s, events))
    decreases |events|
  {
    if events != [] {
      var n := |events| - 1;
      var init, e := events[..n], events[n];
      assert events == init + [e];
      InitialInv(s);
      RunKeepsInv(s, init);
      RunLast(s, init, e);
      DisturbedLast(s, init, e);
      PushUsedMeansDisturbed(s, init);
      if !e.Relaunches? { StepStarts(Run(s, init), e); } else { assert !Run(s, events).session.pushUsed; }
    }
  }

  /**
   * While the app is starting it has been starting since its launch, and all that time the push manager had no
   * identity: whatever it was asked for was a session change to none.
   */
  lemma {:induction false} StartingSinceLaunch(s: System, events: seq<Event>, i: nat)
    requires Initial(s) && i <= |events| && Starting(Run(s, events).session)
    requires forall j :: i <= j < |events| ==> !events[j].Relaunches?
    ensures Starting(Run(s, events[..i]).session) && Run(s, events[..i]).session.pushIdentity == None
    decreases |events|
  {
    if i == |events| {
      assert events[..i] == events;
      InitialInv(s);
      RunKeepsInv(s, events);
    } else {
      var n := |events| - 1;
      var init, e := events[..n], events[n];
      assert events == init + [e] && init[..i] == events[..i];
      InitialInv(s);
      RunKeepsInv(s, init);
      RunLast(s, init, e);
      StepStarts(Run(s, init), e);
      StartingSinceLaunch(s, init, i);
    }
  }

  /** The bootstrap retires the legacy session: it saved its receipt and asked for the profile. */
  predicate Retires(m: System, e: Event) {
    e.Bootstraps? && e.legacy.Retired? && m.session.profiles == [] && Step(m, e).calls != m.calls
  }

  /**
   * When a bootstrap retires the legacy session, the push manager has not been asked for anything in this process
   * exactly when no step since the launch disturbed the start.
   */
  lemma LegacyRetiresFirst(s: System, events: seq<Event>, e: Event)
    requires Initial(s) && Retires(Run(s, events), e)
    ensures !Run(s, events).session.pushUsed <==> !Disturbed(s, events)
  {
    PushUsedMeansDisturbed(s, events);
  }

  /**
   * Both disturbances happen: a sign-in cancelled while the legacy answer is pending leaves the app loading with the
   * push manager already used, and a second bootstrap then retires after it.
   */
  lemma CancelledSignInBreaksTheOrder(s: System, server: string)
    requires Initial(s) && s.session.profiles == [] && s.nextCall == 0
    ensures
      var events := [Bootstraps(Retired(server, None), false), CancelLogin, LegacyAnswer(0, Failed, false)];
      var m := Run(s, events);
      && Starting(m.session) && m.session.pushUsed
      && Step(m, Bootstraps(Retired(server, None), false)).calls != m.calls
  {
    var e0, e1, e2: Event := Bootstraps(Retired(server, None), false), CancelLogin, LegacyAnswer(0, Failed, false);
    var s1 := Step(s, e0);
    var s2 := Step(s1, e1);
    var s3 := Step(s2, e2);
    assert 0 in s1.calls && s1.calls[0].LegacyMe?;
    assert [e0, e1, e2][1..] == [e1, e2] && [e1, e2][1..] == [e2];
    assert Run(s, [e0, e1, e2]) == Run(s1, [e1, e2]) == Run(s2, [e2]) == Run(s3, []);
    assert s3.nextCall == 1 && 1 !in s3.calls;
    var last := Step(s3, e0);
    assert 1 in last.calls;
  }

  /** So does a store picked before anything is active. */
  lemma PickedStoreBreaksTheOrder(s: System, server: string, store: string)
    requires Initial(s) && s.session.profiles == []
    ensures
      var m := Run(s, [Select(Some(store))]);
      Starting(m.session) && m.session.pushUsed && Retires(m, Bootstraps(Retired(server, None), false))
  {
    var m := Step(s, Select(Some(store)));
    assert [Select(Some(store))][1..] == [] && Run(s, [Select(Some(store))]) == Run(m, []) == m;
    PickedWhileStarting(s.session, store);
    RetirementIsAsked(m, server);
  }

  lemma PickedWhileStarting(m: Session, store: string)
    requires Starting(m) && m.profiles == [] && m.activeStore == None
    ensures
      var t := SelectStore(m, Some(store));
      Starting(t) && t.pushUsed && t.profiles == []
  {
  }

  lemma RetirementIsAsked(m: System, server: string)
    requires Starting(m.session) && m.session.profiles == [] && m.calls == map[]
    ensures Retires(m, Bootstraps(Retired(server, None), false))
  {
    assert m.nextCall in Step(m, Bootstraps(Retired(server, None), false)).calls;
  }
}
