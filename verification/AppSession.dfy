/**
 * The session object, each method proved against its step in SessionModel. Its fields are kept together in one record,
 * which the methods update one assignment at a time, in the order the app does.
 */
module AppSession {
  import opened Wrappers
  import opened SessionModel

  /** The first profile with this id, or the length of the list. */
  function FirstIndex(profiles: seq<Profile>, id: nat): (i: nat)
    ensures i <= |profiles| && (i < |profiles| ==> profiles[i].id == id)
    ensures forall k :: 0 <= k < i ==> profiles[k].id != id
  {
    if profiles == [] || profiles[0].id == id then 0 else 1 + FirstIndex(profiles[1..], id)
  }

  lemma {:induction false} ReplacedAt(profiles: seq<Profile>, p: Profile, i: nat)
    requires i <= |profiles| && (forall k :: 0 <= k < i ==> profiles[k].id != p.id)
    requires i < |profiles| ==> profiles[i].id == p.id
    ensures Replaced(profiles, p) == if i < |profiles| then profiles[i := p] else profiles + [p]
  {
    if i > 0 {
      ReplacedAt(profiles[1..], p, i - 1);
    }
  }

  lemma {:induction false} FindAt(profiles: seq<Profile>, id: nat)
    ensures
      var i := FirstIndex(profiles, id);
      Find(profiles, id) == if i < |profiles| then Some(profiles[i]) else None
  {
    if profiles != [] && profiles[0].id != id {
      FindAt(profiles[1..], id);
    }
  }

  lemma ChangedStore(m: Session, store: Option<string>)
    requires store != m.activeStore
    ensures
      var chosen := m.(activeStore := store);
      SelectStore(m, store)
        == ConfigurePush(SaveSelectedStore(chosen.(generation := chosen.nextStamp, nextStamp := chosen.nextStamp + 1)))
  {
    var chosen := m.(activeStore := store);
    assert chosen.(generation := chosen.nextStamp, nextStamp := chosen.nextStamp + 1)
      == m.(activeStore := store, generation := m.nextStamp, nextStamp := m.nextStamp + 1);
  }

  class Manager {
    var s: Session

    /** A process starts from what an earlier one saved. */
    constructor (saved: Session)
      ensures s == Relaunch(saved)
    {
      s := Relaunch(saved);
    }

    method CancelLogin()
      modifies this
      ensures s == SessionModel.CancelLogin(old(s))
    {
      s := s.(loginAttempt := s.nextStamp, nextStamp := s.nextStamp + 1);
      s := s.(pendingLogin := None);
    }

    method Upsert(profile: Profile)
      modifies this
      ensures s == SessionModel.Upsert(old(s), profile)
    {
      var i := FirstIndex(s.profiles, profile.id);
      ReplacedAt(s.profiles, profile, i);
      if i < |s.profiles| {
        s := s.(profiles := s.profiles[i := profile]);
      } else {
        s := s.(profiles := s.profiles + [profile]);
      }
      s := s.(savedProfiles := s.profiles);
    }

    method RenewRevision(id: nat)
      modifies this
      ensures s == Renew(old(s), id)
    {
      s := s.(revisions := s.revisions[id := s.nextStamp], nextStamp := s.nextStamp + 1);
    }

    method SetPush(identity: Option<Identity>)
      modifies this
      ensures s == SessionModel.SetPush(old(s), identity)
    {
      s := s.(pushIdentity := identity, pushUsed := true);
      if identity.Some? {
        s := s.(given := s.given + {identity.value});
      }
    }

    method ConfigurePush()
      modifies this
      ensures s == SessionModel.ConfigurePush(old(s))
    {
      if s.phase != LoggedIn || s.activeStore == None {
        SetPush(None);
        return;
      }
      SetPush(Some(CurrentIdentity(s)));
    }

    method ResetActiveState()
      modifies this
      ensures s == SessionModel.ResetActiveState(old(s))
    {
      s := s.(activation := s.nextStamp, nextStamp := s.nextStamp + 1);
      s := s.(generation := s.nextStamp, nextStamp := s.nextStamp + 1);
      SetPush(None);
      s := s.(token := None, stores := []);
      s := s.(activeStore := None);
      s := s.(activeProfile := None, server := "");
      s := s.(phase := Loading);
    }

    method SaveSelectedStore()
      modifies this
      ensures s == SessionModel.SaveSelectedStore(old(s))
    {
      if s.activeProfile == None {
        return;
      }
      var i := FirstIndex(s.profiles, s.activeProfile.value);
      FindAt(s.profiles, s.activeProfile.value);
      if i == |s.profiles| {
        return;
      }
      var p := s.profiles[i].(store := s.activeStore);
      ReplacedAt(s.profiles, p, i);
      s := s.(profiles := s.profiles[i := p]);
      s := s.(savedProfiles := s.profiles);
    }

    method Apply(available: seq<string>)
      modifies this
      ensures s == SessionModel.Apply(old(s), available)
    {
      s := s.(stores := available);
      var last: Option<string> := None;
      if s.activeProfile.Some? {
        var i := FirstIndex(s.profiles, s.activeProfile.value);
        FindAt(s.profiles, s.activeProfile.value);
        if i < |s.profiles| {
          last := s.profiles[i].store;
        }
      }
      s := s.(activeStore := PickStore(available, last));
      s := s.(phase := LoggedIn);
      SaveSelectedStore();
      ConfigurePush();
    }

    /** The observer of the active store. */
    method SelectStore(store: Option<string>)
      modifies this
      ensures s == SessionModel.SelectStore(old(s), store)
    {
      if store == s.activeStore {
        return;
      }
      ChangedStore(s, store);
      s := s.(activeStore := store);
      StoreChanged();
    }

    /** A new store means a new identity; it is saved and the push manager told. */
    method StoreChanged()
      modifies this
      ensures
        s == SessionModel.ConfigurePush(SessionModel.SaveSelectedStore(
          old(s).(generation := old(s).nextStamp, nextStamp := old(s).nextStamp + 1)))
    {
      s := s.(generation := s.nextStamp, nextStamp := s.nextStamp + 1);
      SaveSelectedStore();
      ConfigurePush();
    }

    method FinishLogin(address: string, newToken: string, email: string, available: seq<string>, writeFails: bool)
      modifies this
      ensures s == SessionModel.FinishLogin(old(s), address, newToken, email, available, writeFails)
    {
      if newToken == "" {
        return;
      }
      var found := FindAccount(s.profiles, address, email);
      var profile := if found.Some? then found.value else Profile(s.nextStamp, address, email, None, false);
      if writeFails {
        return;
      }
      s := s.(keychain := s.keychain[profile.id := newToken], nextStamp := s.nextStamp + 1);
      profile := profile.(requiresLogin := false);
      Upsert(profile);
      RenewRevision(profile.id);
      CancelLogin();
      ResetActiveState();
      s := s.(activeProfile := Some(profile.id));
      s := s.(server := profile.server);
      s := s.(token := Some(newToken));
      s := s.(lastActive := Some(profile.id));
      assert s == Adopt(old(s), profile, newToken);
      Apply(available);
    }

    method InvalidateProfile(h: Hook, readFails: bool, removeFails: bool)
      modifies this
      ensures s == SessionModel.InvalidateProfile(old(s), h, readFails, removeFails)
    {
      if !(h.profile in s.revisions && s.revisions[h.profile] == h.revision) {
        return;
      }
      var i := FirstIndex(s.profiles, h.profile);
      FindAt(s.profiles, h.profile);
      if i == |s.profiles| || readFails || !(h.profile in s.keychain && s.keychain[h.profile] == h.token) {
        return;
      }
      var profile := s.profiles[i];
      RenewRevision(h.profile);
      Upsert(profile.(requiresLogin := true));
      if !removeFails {
        s := s.(keychain := map k | k in s.keychain && k != h.profile :: s.keychain[k]);
      }
      if s.activeProfile != Some(h.profile) {
        return;
      }
      ResetActiveState();
      s := s.(activeProfile := Some(h.profile));
      s := s.(server := profile.server);
      s := s.(phase := LoggedOut);
    }

    /** Up to the profile request, which is returned when one is sent. */
    method SwitchProfile(id: nat, readFails: bool) returns (request: Option<Call>)
      modifies this
      ensures (s, request) == SessionModel.SwitchProfile(old(s), id, readFails)
    {
      var i := FirstIndex(s.profiles, id);
      FindAt(s.profiles, id);
      if i == |s.profiles| {
        return None;
      }
      var profile := s.profiles[i];
      CancelLogin();
      ResetActiveState();
      s := s.(activeProfile := Some(id));
      s := s.(server := profile.server);
      s := s.(lastActive := Some(id));
      if profile.requiresLogin {
        s := s.(phase := LoggedOut);
        return None;
      }
      if readFails || !(id in s.keychain && s.keychain[id] != "") {
        s := s.(phase := LoggedOut);
        return None;
      }
      s := s.(token := Some(s.keychain[id]));
      return Some(Me(s.activation, id, profile.email, s.keychain[id], CurrentHook(s)));
    }

    /** The rest of a switch, once its profile answer is there; a 401 has run the client's hook first. */
    method ProfileAnswered(call: Call, answer: Answer, readFails: bool, removeFails: bool)
      requires call.Me?
      modifies this
      ensures s == MeAnswered(old(s), call, answer, readFails, removeFails)
    {
      if answer.Unauthorized? && call.hook.Some? {
        InvalidateProfile(call.hook.value, readFails, removeFails);
      }
      if s.activation != call.activation || s.activeProfile != Some(call.profile) {
        return;
      }
      if !answer.Account? {
        s := s.(token := None);
        s := s.(phase := LoggedOut);
        return;
      }
      if answer.email != call.email {
        if call.profile in s.revisions {
          InvalidateProfile(Hook(call.profile, call.stored, s.revisions[call.profile]), readFails, removeFails);
        }
        return;
      }
      Apply(answer.stores);
    }

    method Logout(removeFails: bool)
      modifies this
      ensures s == SessionModel.Logout(old(s), removeFails)
    {
      var i := if s.activeProfile.Some? then FirstIndex(s.profiles, s.activeProfile.value) else |s.profiles|;
      if s.activeProfile.Some? {
        FindAt(s.profiles, s.activeProfile.value);
      }
      CancelLogin();
      if i == |s.profiles| {
        ResetActiveState();
        s := s.(phase := LoggedOut);
        return;
      }
      var profile, client := s.profiles[i], Client(s.server, s.token, s.activeStore);
      Upsert(profile.(requiresLogin := true));
      RenewRevision(profile.id);
      ResetActiveState();
      s := s.(activeProfile := Some(profile.id));
      s := s.(server := profile.server);
      s := s.(phase := LoggedOut);
      assert s == SignOut(old(s), profile);
      if !removeFails {
        s := s.(keychain := map k | k in s.keychain && k != profile.id :: s.keychain[k]);
      }
      s := s.(revoked := s.revoked + [client]);
    }
  }
}
