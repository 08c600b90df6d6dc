# SellRight: verified models

This Dafny project models the parts of SellRight whose correctness depends on interleaving, history or exact text, and
proves what they promise. It stands on its own and is checked with `dafny verify dfyconfig.toml`.

| files | what they model |
|---|---|
| `TaskChain`, `PushModel`, `PushSystem`, `PushCoverage`, `PushOrder`, `PushProgress`, `PushCleanup`, `PushManager` | the iOS push registrations beside the servers that hold device rows and sessions, with process death at any point |
| `SessionModel`, `SessionSystem`, `SessionSafety`, `SessionLateness`, `SessionIdentities`, `SessionSaved`, `SessionSignOut`, `SessionResume`, `AppSession` | the iOS session over saved profiles, with every late answer |
| `BodyLimit`, `BodySafety`, `BodyProgress`, `BodyAnswers`, `BodyStream`, `BodyPolicies` | the streamed body cap in front of plugin upload routes, and which routes get one |
| `HostSelect`, `HostStripping`, `OrderedCache`, `HostCache`, `HostCacheBounds`, `HostCacheHistory`, `HostInvalidation`, `HostCaching`, `StoreCaches` | finding the store of a host, and the caches over a changing registry |
| `Json`, `EdgeReads`, `LinkHeader`, `PlaceOnce` | the data blocks and headers of an edge-composed page |
| `CacheDirectives`, `CacheExceptions`, `CachePolicy` | the last word on a response's cache headers |
| `Branding`, `Paginated`, `PaginatedAnswers`, `Refunds` | readable store colours, the paged list, refund totals |
| `Wrappers`, `Text`, `Sequences` | shared result shapes, string operations, sums over sequences |

A protocol is a step system: a state, an event for each stretch of code between two suspension points and for each thing
the outside may do, and theorems over every list of events. An event that cannot happen in a state leaves it unchanged.
Beside it a class does the same steps in place, and each of its methods is proved to make the specified step. A loop of
the source is a method with that loop, proved against a function; theorems are about the function.

## Assumptions

- A new UUID differs from every earlier one.
- A request takes effect at the server before the app sees its outcome, or never. A server that commits a registration
  after the app has given the connection up is outside the model.
- A Keychain call that throws changes nothing, and the saved receipts are written in one piece.
- A server keeps one row per device token and rebinds it on a second registration, deletes a row only for the admin and
  store that own it, removes a session's rows with the session, and delivers nothing for a row whose session has ended
  (`packages/api/src/routes/admin-push.ts`, `packages/api/drizzle/0099_device_session.sql`, `packages/api/src/push/outbox.ts`).
- Bearers are minted once.
- The legacy session is retired only while the app is starting: no session has an identity, and whatever is queued is a
  session change to none (`SessionLateness.StartingSinceLaunch`). The retirement may come before any push operation or in
  the middle of one.
- HTMLRewriter runs one handler at a time and waits for it.
- Replacing a Hono response copies the previous headers onto it, all but the content type.
- The luminance curve never falls and goes from 0 to 1; colour arithmetic is exact.

Some promises hold under a condition, which the model states with an input that fails it: JSON keeps its value when it was
JSON (`EdgeReads.WrongTextMadeRight`), prefix stripping keeps the winner unless it leaves a bare name
(`HostStripping.StrippingKeepsWinner`), a label reads when the primary is a colour (`Branding.LabelReads`), and the
legacy session is retired before any push operation when nothing disturbs the start (`SessionLateness.LegacyRetiresFirst`).
Two things the code does not promise are made exact: the oldest entry of the slug cache is the nearest to expiry only while
every lookup meets a guard (`HostCacheBounds.SlugCacheOrder`), and patterns of cacheable exceptions, compared by identity
only, match a path once exactly when no two of them share it (`CacheExceptions.AcceptedMatchOnce`). And push registration comes
back after a cleanup exactly when no saved receipt has lost its credential (`PushCleanup.NewSessionRegisters`): a process that
dies between the removal of a bearer and the end of its cleanup loses one (`PushCleanup.CrashLosesCredential`), and from then
on no registration is sent (`PushCleanup.LostCredentialBlocks`).

## Model

| member | source | states |
|---|---|---|
| TaskChain.OneAtATimeInOrder | ios/SellRightAdmin/Core/PushManager.swift:176-185 | Under any scheduler, a queued task has begun only when every task queued before it is done. |
| TaskChain.BeginsTheOldest | ios/SellRightAdmin/Core/PushManager.swift:176-185 | The only task that may begin is the oldest unfinished one, so the chain of tails is a first-in first-out queue. |
| TaskChain.OldestMayBegin | ios/SellRightAdmin/Core/PushManager.swift:176-185 | Nor does the chain stick: while nothing runs and something is unfinished, the oldest unfinished task may begin. |
| TaskChain.Queue.Enqueue | ios/SellRightAdmin/Core/PushManager.swift:176-185 | A new task captures the last one and becomes the last. |
| PushCoverage.NoOrphanedRow | ios/SellRightAdmin/Core/PushManager.swift:187-276 | In every run with lost answers, refusals, Keychain failures and process deaths anywhere, each device row that can still be delivered to is covered by a saved receipt of its server, store and token (or whole session) whose Keychain entry is its bearer, or still by the untouched legacy keys of an older app version. |
| PushCoverage.BearerGoesOnlyWhenUnneeded | ios/SellRightAdmin/Core/PushManager.swift:232-270 | A cleanup bearer leaves the Keychain only when the request made with it was answered by a success or a 401, and at that moment no deliverable row needs it. |
| PushCoverage.RunKeepsInv | ios/SellRightAdmin/Core/PushManager.swift:117-276 | The invariant behind both: every step keeps saved receipts equal to the registrations and what was appended during a cleanup, captured clients in agreement with their bearers, and what a running cleanup has passed either kept or gone. |
| PushCoverage.WriteAheadKeepsInv | ios/SellRightAdmin/Core/PushManager.swift:187-207 | Before a registration is sent, the row it would make at any server answer is already covered. |
| PushCoverage.CleaningRetireKeepsInv | ios/SellRightAdmin/Core/PushManager.swift:150-161 | Retiring the legacy session while a cleanup walks over its own copy of the registrations keeps every row covered, though what is appended then is dropped when the cleanup stores what remains. |
| PushCoverage.LateIsNotNeeded | ios/SellRightAdmin/Core/PushManager.swift:232-270 | In every run, at any point of a cleanup, a deliverable row that is covered at all is covered without what was appended meanwhile. |
| PushOrder.RegistrationsFollowCleanup | ios/SellRightAdmin/Core/PushManager.swift:117-145 | Whenever a registration is sent its session is the current identity, and every outstanding receipt was made by that session's own client, for its server and with its bearer: no replacement push while an older cleanup is unfinished. |
| PushProgress.RevocationGoesOn | ios/SellRightAdmin/Core/PushManager.swift:163-172 | A revocation's cleanup, until the process dies, is still that cleanup after any event or has sent the logout of its session, whatever remains. |
| PushProgress.RevocationIsNotLost | ios/SellRightAdmin/Core/PushManager.swift:163-185 | Until the process dies, a queued revocation is in line or in its cleanup, or its logout has been sent. |
| PushProgress.LogoutEndsSession | ios/SellRightAdmin/Core/PushManager.swift:163-172 | The answer to that logout ends the session for good: in every later run its bearer is worth nothing and no row of it is delivered to. |
| PushProgress.OutageSendsEveryLogout | ios/SellRightAdmin/Core/PushManager.swift:163-185 | The queue never sticks: from every reachable state, with every request failing, it comes to its end, and every logout in line is sent on the way. |
| PushCleanup.HonestCleanup | ios/SellRightAdmin/Core/PushManager.swift:232-270 | When nothing fails, a cleanup keeps exactly the registrations of an earlier process whose credential is lost. |
| PushCleanup.NewSessionRegisters | ios/SellRightAdmin/Core/PushManager.swift:117-145 | A session given to an idle push manager gets the known device token registered, when nothing fails, exactly when no saved receipt has lost its credential. |
| PushCleanup.SessionChangeRegisters | ios/SellRightAdmin/Core/PushManager.swift:121-145 | The same for any session change that is still current when its turn comes. |
| PushCleanup.TokensAreSent | ios/SellRightAdmin/Core/PushManager.swift:136-145 | A queued token, the device token of a new session and then its Live Activity token are sent exactly when the session is still current and a receipt is there or can be written. |
| PushCleanup.NewTokensAreQueued | ios/SellRightAdmin/Core/PushManager.swift:280-299 | A new token is kept and queued for the session that has a registrar; an observer of an earlier identity is ignored. |
| PushCleanup.LostCredentialBlocks | ios/SellRightAdmin/Core/PushManager.swift:232-270 | Once a saved receipt has lost its credential outside a cleanup, it is never given up and no registration is ever sent again. |
| PushCleanup.CrashLosesCredential | ios/SellRightAdmin/Core/PushManager.swift:258-269 | It can happen: a process that dies after a bearer was removed and before the cleanup has stored what remains leaves such a receipt. |
| PushManager.TurnIsSendThenSettle | ios/SellRightAdmin/Core/PushManager.swift:234-266 | One uninterrupted turn of the cleanup loop is the protocol's send step followed by its settle step. |
| PushManager.CleanupKeepsUnconfirmed | ios/SellRightAdmin/Core/PushManager.swift:232-270 | A cleanup pass keeps, in order, exactly the registrations whose removal was not confirmed. |
| PushManager.Manager.constructor | ios/SellRightAdmin/Core/PushManager.swift:99-111 | A new manager is what a relaunch makes of the saved receipts and the Keychain. |
| PushManager.Manager.SetSession | ios/SellRightAdmin/Core/PushManager.swift:117-126 | The identity changes at once, the registrar goes, and the session change joins the queue. |
| PushManager.Manager.Revoke | ios/SellRightAdmin/Core/PushManager.swift:163-172 | A logout request is queued behind everything before it; `PushProgress.RevocationIsNotLost` says what becomes of it. |
| PushManager.Manager.DidRegister | ios/SellRightAdmin/Core/PushManager.swift:280-284 | The device token is kept and, with a registrar, its registration joins the queue. |
| PushManager.Manager.DidReceiveLiveToken | ios/SellRightAdmin/Core/PushManager.swift:292-299 | Only an observer of the current identity keeps its token and registers it. |
| PushManager.Manager.RetireLegacySession | ios/SellRightAdmin/Core/PushManager.swift:150-161 | Either the session has a revoking receipt already, or one is saved bearer first, or the Keychain write throws and nothing changes; during a cleanup it is saved beside the cleanup's own copy. |
| PushManager.Manager.PrepareRegistration | ios/SellRightAdmin/Core/PushManager.swift:187-207 | A registration is sent only with its receipt and bearer saved, or found saved. |
| PushManager.Manager.SendCleanup | ios/SellRightAdmin/Core/PushManager.swift:234-256 | The stretch of a cleanup turn up to its request: the request goes out, or the registration is kept for want of a credential. |
| PushManager.Manager.SettleCleanup | ios/SellRightAdmin/Core/PushManager.swift:249-265 | The rest of a turn: the bearer goes on a success or a 401, else the registration is kept. |
| PushManager.Manager.FinishCleanup | ios/SellRightAdmin/Core/PushManager.swift:267-269 | What remains replaces the registrations, receipts appended meanwhile included, and the operation that wanted the cleanup goes on. |
| PushManager.Manager.CleanupRegistrations | ios/SellRightAdmin/Core/PushManager.swift:232-270 | The loop over the registrations leaves exactly the unconfirmed ones and says whether none is left. |
| SessionSafety.LoggedInIsBacked | ios/SellRightAdmin/App/AppSession.swift:142-266 | In every reachable state, logged in means that the active profile is saved, does not require login and names the current server, and that its stored credential is the token in use. |
| SessionSafety.PushIdentityFollowsSession | ios/SellRightAdmin/App/AppSession.swift:239-284 | In every reachable state the push manager has the session's identity exactly while logged in with a store selected, and none otherwise. |
| SessionSafety.RunKeepsInv | ios/SellRightAdmin/App/AppSession.swift:56-327 | Every event, sign-in, switch, logout, store change, late answer, late 401 or relaunch, keeps the invariant of the two results above. |
| SessionLateness.LateProfileAnswerIsIgnored | ios/SellRightAdmin/App/AppSession.swift:164-198 | A profile answer is applied only for the activation that asked; after any other activation an account or a failure changes nothing, then or later, and a 401 does exactly what its client's hook does. |
| SessionLateness.AtMostOneSignInFinishes | ios/SellRightAdmin/App/AppSession.swift:112-140 | Of the sign-ins outstanding when one finishes, none can finish later. |
| SessionLateness.ReauthenticatedProfileSurvivesOld401 | ios/SellRightAdmin/App/AppSession.swift:222-237 | After a profile signs in again, the hook of any client built before, one handed out or one of an outstanding profile request, changes nothing, profile and credential included. |
| SessionLateness.ReauthenticatedProfileSurvivesOldRequest | ios/SellRightAdmin/App/AppSession.swift:182-198 | A profile request outstanding while its profile signs in again changes nothing, whatever its answer and whenever it comes. |
| SessionLateness.PushUsedMeansDisturbed | ios/SellRightAdmin/App/AppSession.swift:86-110 | In every reachable state in which the app is starting, the push manager was asked for something exactly when, since the launch, a store other than the active one was picked or a legacy answer other than an account came after another sign-in was begun or cancelled. |
| SessionLateness.LegacyRetiresFirst | ios/SellRightAdmin/App/AppSession.swift:297-326 | When a bootstrap retires the legacy session, the push manager has not been asked for anything exactly when no step disturbed the start. |
| SessionLateness.StartingSinceLaunch | ios/SellRightAdmin/App/AppSession.swift:239-284 | While the app is starting it has been so since its launch, and the push manager had no identity all that time. |
| SessionLateness.CancelledSignInBreaksTheOrder | ios/SellRightAdmin/App/AppSession.swift:99-103 | One disturbance the guards allow: a sign-in cancelled while the legacy answer is pending lets a second bootstrap retire after push use. |
| SessionLateness.PickedStoreBreaksTheOrder | ios/SellRightAdmin/App/AppSession.swift:25-34 | The other one: a store picked before anything is active. |
| SessionIdentities.IdentitiesAreNew | ios/SellRightAdmin/App/AppSession.swift:20-34 | Every identity given to the push manager is one it never had before. |
| SessionSignOut.LogoutSignsOut | ios/SellRightAdmin/App/AppSession.swift:200-219 | Signing out marks the active profile in memory and where it is saved, removes its credential unless the Keychain throws, leaves the others alone, and hands the client of the session to the push manager. |
| SessionSignOut.LogoutRevokesItsSession | ios/SellRightAdmin/App/AppSession.swift:200-219 | In every reachable state, that client has the server and the stored credential of the profile in use. |
| SessionSignOut.SignedOutUntilSignIn | ios/SellRightAdmin/App/AppSession.swift:164-237 | A profile that wants a sign-in, in any reachable state, is never logged in and no request is begun for it until it signs in, over relaunches, switches and late answers of every kind; a credential that is gone stays gone. |
| SessionResume.SignInLogsIn | ios/SellRightAdmin/App/AppSession.swift:142-162 | A completed sign-in logs in with the account it names, under the saved profile of that account if there is one, opens the store it was left with if that is offered, and touches no other profile or credential. |
| SessionResume.CodeFinishesSignIn | ios/SellRightAdmin/App/AppSession.swift:112-135 | A sign-in that needs a code goes on only with its own challenge, and a complete second answer finishes it. |
| SessionResume.LeavingCancelsSignIns | ios/SellRightAdmin/App/AppSession.swift:112-116 | After the user begins or cancels a sign-in, signs out or picks a saved profile, no answer to an earlier sign-in ever finishes it. |
| SessionResume.CurrentAnswerDecides | ios/SellRightAdmin/App/AppSession.swift:183-197 | In every reachable state, the answer of the current activation decides it: the account logs in with its store and credential, another account or a 401 expires the profile, any other failure keeps the credential. |
| SessionResume.OwnUnauthorizedExpires | ios/SellRightAdmin/App/AppSession.swift:71-79 | A 401 of a client built from the session in use signs its profile out. |
| SessionResume.ExpiresExactly | ios/SellRightAdmin/App/AppSession.swift:222-237 | A late 401 changes the session exactly when its revision is current and its token is the stored one. |
| SessionResume.SwitchAsks | ios/SellRightAdmin/App/AppSession.swift:164-183 | A switch asks for its profile with the stored credential, unless it wants a sign-in or has none; then it is logged out with nothing asked. |
| SessionResume.FirstStart | ios/SellRightAdmin/App/AppSession.swift:99-110 | Without saved profiles a start ends logged out, or asks for the account of the retired legacy session. |
| SessionResume.MigrationNeedsSignIn | ios/SellRightAdmin/App/AppSession.swift:297-326 | A migrated session becomes one saved profile of its account, with its store, that wants a new sign-in. |
| SessionResume.RelaunchBringsBack | ios/SellRightAdmin/App/AppSession.swift:99-110 | A session survives its process: after a relaunch the account's answer brings back the profile, its credential and, while it is offered, its store. |
| SessionSaved.EveryRunIsWhole | ios/SellRightAdmin/App/AppSession.swift:256-294 | In every reachable state what is in memory is what is saved, a session in use is the one a relaunch resumes, and the current request carries what is stored for its profile. |
| AppSession.Manager.FinishLogin | ios/SellRightAdmin/App/AppSession.swift:142-162 | The credential is written first; a throwing write changes nothing, else profile, revision, stamps, token, store and push change together. |
| AppSession.Manager.SwitchProfile | ios/SellRightAdmin/App/AppSession.swift:164-183 | Up to the request: the old state is left, and a profile answer is asked for only with a stored credential and no pending login. |
| AppSession.Manager.ProfileAnswered | ios/SellRightAdmin/App/AppSession.swift:183-197 | The rest of a switch: only the current activation applies its answer, another account expires the profile, and a failure keeps its credential. |
| AppSession.Manager.InvalidateProfile | ios/SellRightAdmin/App/AppSession.swift:222-237 | Only the matching revision and stored token expire a profile; only the active one resets the session. |
| AppSession.Manager.Logout | ios/SellRightAdmin/App/AppSession.swift:200-219 | The profile is marked before its credential is removed, and stays active and logged out. |
| AppSession.Manager.ResetActiveState | ios/SellRightAdmin/App/AppSession.swift:239-254 | New activation and identity generation, no push identity, nothing active. |
| AppSession.Manager.Apply | ios/SellRightAdmin/App/AppSession.swift:256-266 | The last store of the profile is picked, else the first; the session is logged in, saved and given to the push manager. |
| AppSession.Manager.SelectStore | ios/SellRightAdmin/App/AppSession.swift:25-34 | A change of store renews the identity, saves the store and moves push; choosing the same store does nothing. |
| AppSession.Manager.ConfigurePush | ios/SellRightAdmin/App/AppSession.swift:275-284 | The push manager gets the current identity when logged in with a store, else none. |
| AppSession.Manager.SaveSelectedStore | ios/SellRightAdmin/App/AppSession.swift:268-273 | The active profile keeps the selected store. |
| AppSession.Manager.Upsert | ios/SellRightAdmin/App/AppSession.swift:286-290 | A saved profile is replaced in its place, a new one appended. |
| BodySafety.SuccessMeansWholeBody | packages/api/src/numeric-route-body-limit.ts:42-137 | For every chunking, handler, abort and read error: a 2xx kept for the handler means that it was given exactly the whole input in order, within `maxBytes` and of the length that the text of a Content-Length header says (section 8.6 of RFC 9110). |
| BodySafety.DeliveryIsCapped | packages/api/src/numeric-route-body-limit.ts:91-118 | In every run the handler has a prefix of the input within the cap, and an overflow never keeps the handler's own response. |
| BodySafety.NothingReadAfterCancel | packages/api/src/numeric-route-body-limit.ts:53-59 | After a cancellation the input is cancelled and nothing more is read; the handler, or a reader it left behind, can only take what the stream already held, and nothing once the stream was errored or cancelled. |
| BodySafety.FinishedHasEndedInput | packages/api/src/numeric-route-body-limit.ts:123-135 | A finished request has either read its input to the end or cancelled it. |
| BodyProgress.HonestUploadPasses | packages/api/src/numeric-route-body-limit.ts:88-131 | A handler that reads a body of allowed size to its end keeps its own 2xx, with no Content-Length or one whose text says its length. |
| BodyAnswers.OwnAnswerStands | packages/api/src/numeric-route-body-limit.ts:123-131 | Over the events and the input: the handler's own answer stands exactly when nothing went over the cap, the input did not end at a wrong length, the client did not abort, and a success had read the input to its end. |
| BodyAnswers.AnswerMeans | packages/api/src/numeric-route-body-limit.ts:60-72 | Otherwise the latest failure is the answer, 413 for an overflow and 400 for an abort or a wrong length, and 400 for a success that left something unread. |
| BodyAnswers.AnswerIsFinal | packages/api/src/numeric-route-body-limit.ts:123-135 | Nothing after the end of a request changes its answer. |
| BodyAnswers.AdmissionMeans | packages/api/src/numeric-route-body-limit.ts:75-86 | A request reaches its handler exactly when a Content-Length is a safe number within the cap, and zero without a body; one over the cap is answered 413, any other refusal 400. |
| BodyAnswers.AbortedAtOnce | packages/api/src/numeric-route-body-limit.ts:88-91 | A client gone before the handler is answered 400 and its body given up unread. |
| BodyAnswers.NothingReadUnasked | packages/api/src/numeric-route-body-limit.ts:93-96 | In every run the input is read no more often than the handler asks. |
| BodyStream.CountedBody.StopReading | packages/api/src/numeric-route-body-limit.ts:54-59 | Cancelling happens once, and never after completion. |
| BodyStream.CountedBody.Fail | packages/api/src/numeric-route-body-limit.ts:60-64 | A rejection records the failure, cancels the input and errors the stream. |
| BodyStream.CountedBody.ChunkRead | packages/api/src/numeric-route-body-limit.ts:95-113 | A chunk is counted, then either overflows the cap or reaches the handler. |
| BodyStream.CountedBody.EndRead | packages/api/src/numeric-route-body-limit.ts:97-107 | The end completes the body only at the declared length. |
| BodyStream.CountedBody.HandlerReturned | packages/api/src/numeric-route-body-limit.ts:123-135 | The handler's 2xx stands only for a complete body; any failure replaces the response. |
| BodyPolicies.ResolvePolicies | packages/api/src/numeric-route-body-limit.ts:10-34 | The collected policies are sound: literal, unprotected, positive and with distinct prefixes; else the first error is reported. |
| BodyPolicies.Accepted | packages/api/src/numeric-route-body-limit.ts:10-34 | A list of plugins is accepted exactly when all lists are arrays, every entry is good and there are as many prefixes as entries. |
| BodyPolicies.GoodEntryMeans | packages/api/src/numeric-route-body-limit.ts:15-31 | An entry is good exactly when it is a plain object of the four fields as data, with a literal unprotected prefix and a positive safe size. |
| BodyPolicies.OnePrefix | packages/api/src/numeric-route-body-limit.ts:36-39 | Two accepted prefixes that match one path are equal, since the slash ending the longer one would stand among the digits. |
| BodyPolicies.AtMostOneMatch | packages/api/src/numeric-route-body-limit.ts:9-39 | Of an accepted list at most one policy matches any method and path. |
| BodyPolicies.MatchMeans | packages/api/src/numeric-route-body-limit.ts:36-39 | A policy takes a PUT to its prefix followed by at least one digit and nothing else. |
| BodyPolicies.NoEnginePathIsCapped | packages/api/src/numeric-route-body-limit.ts:7-27 | No accepted policy matches a path inside an engine namespace, in any case, or right under the version. |
| BodyPolicies.OrderDoesNotMatter | packages/api/src/app.ts:289-295 | Two orders of the same plugins are both accepted or both refused, and the first-match lookup gives every request the same policy. |
| HostSelect.HostMatchScore | packages/api/src/store-context.ts:344-354 | The loop computes the score function. |
| HostSelect.ScoreMeans | packages/api/src/store-context.ts:337-354 | The score is 1000000 for a listed host, else the length of the longest listed eligible parent, else 0. |
| HostSelect.StripLeavesRest | packages/api/src/store-context.ts:361-378 | Stripping leaves the host as it is or takes exactly its first label and dot. |
| HostSelect.StripMeans | packages/api/src/store-context.ts:371-378 | The first label goes exactly when the host has two and the first, not empty, is a listed prefix in any case; else the host stays. |
| HostSelect.PickBestStoreForHost | packages/api/src/store-context.ts:440-452 | The loop picks what the fold over the rows picks. |
| HostSelect.PickWins | packages/api/src/store-context.ts:429-452 | The pick is a store with the best positive score, ties to the lower slug and id; there is none exactly when no store scores. |
| HostSelect.PickIgnoresOrder | packages/api/src/store-context.ts:435-456 | Two listings of the same stores, told apart by slug and id, pick the same store. |
| HostStripping.TieSharesHostname | packages/api/src/store-context.ts:440-456 | For a host of at most 253 characters, stores that tie with a positive score list one and the same hostname. |
| HostStripping.HostnamePrecedence | packages/api/src/store-context.ts:429-452 | For a host of at most 253 characters, a store listing the host wins; else one listing what stripping leaves; else one listing the longest parent that any store lists. |
| HostStripping.StrippingKeepsWinner | packages/api/src/store-context.ts:371-378 | For a host of at most 253 characters, stripping changes the winner of no registry exactly when the stripped host is suffix-eligible, empty or untrimmed. |
| HostStripping.BareStoreAppears | packages/api/src/store-context.ts:429-452 | A store that lists a bare stripped name is found with stripping and not without. |
| OrderedCache.TtlCache.Read | packages/api/src/store-context.ts:59-67 | A read gives a live value, and deletes the entry it finds expired. |
| OrderedCache.TtlCache.Write | packages/api/src/store-context.ts:69-82 | A write keeps the place of a present key, appends a new one, and drops the oldest entries over the limit. |
| OrderedCache.TtlCache.Renew | packages/api/src/store-context.ts:419-427 | A remembered miss moves to the end before the oldest are dropped. |
| OrderedCache.TtlCache.Trim | packages/api/src/store-context.ts:73-81 | Dropping one by one from the oldest end leaves exactly the newest entries up to the limit. |
| HostCache.NegativeTruth | packages/api/src/store-context.ts:397-427 | Over every interleaving of scans, registry changes, invalidations and clock moves: once the last change has been followed by an invalidation, every remembered miss, and every negative answer given at once from the caches, is for a host no store in the registry matches. |
| HostCache.WaitingTruth | packages/api/src/store-context.ts:407-416 | The same for a request that waits, when its scan was begun in the current generation: once settled, such a scan that has seen no store is for a host no store matches. |
| HostCache.SharedScanTellsThePast | packages/api/src/store-context.ts:407-416 | Without that guard it fails for every host and every registry with a store for it: a request after the change and its invalidation shares a scan of the empty registry and is told that there is no store; the answer is not remembered. |
| HostCache.AtMostOneScan | packages/api/src/store-context.ts:407-416 | No two scans for one host are in flight at once. |
| HostCacheBounds.CachesStaySmall | packages/api/src/store-context.ts:40-57 | Both positive caches stay at or under 1000 entries and the miss cache at or under 2000, with one entry a key. |
| HostCacheBounds.EvictionDropsTheNearestToExpiry | packages/api/src/store-context.ts:419-427 | While the clock does not go back, the miss cache and the host cache list their entries in expiry order. |
| HostCacheBounds.WriteKeepsOrder | packages/api/src/store-context.ts:69-82 | A write keeps a map in expiry order exactly when its key is absent or no entry after it expires earlier than the write does. |
| HostCacheBounds.SlugCacheOrder | packages/api/src/store-context.ts:298-309 | While the clock does not go back, the slug cache stays in expiry order throughout a run exactly when every lookup that ends meets that guard. |
| HostCacheBounds.FirstMissBreaksTheOrder | packages/api/src/store-context.ts:298-309 | The first lookup that misses the guard breaks the order at once. |
| HostCacheBounds.SlugCacheBreaksTheOrder | packages/api/src/store-context.ts:298-309 | Two lookups of one slug at once miss it: they leave the first entry the last to expire. |
| HostCacheHistory.AnswersHaveBeenTrue | packages/api/src/store-context.ts:397-438 | Every answer of every run was the simple scan's answer for some registry there has been. |
| HostCacheHistory.FoundIsRecent | packages/api/src/store-context.ts:27-29 | Every store told from the cache was read from some registry by a scan handled less than 60000 ms ago. |
| HostCacheHistory.FlushForgetsThePast | packages/api/src/store-context.ts:98-105 | After a full flush with no scan or lookup answer under way, nothing older than the flush is ever told again. |
| HostCacheHistory.CachesAgreeWithScan | packages/api/src/store-context.ts:397-438 | While the registry does not change, the caches say exactly what the simple scan says. |
| HostInvalidation.InvalidationIsExact | packages/api/src/store-context.ts:98-115 | In every run an invalidation takes the entries of the named store and of the named host, all of them and no other, and all remembered misses; the rest stays in order. |
| HostInvalidation.InvalidationForgetsStore | packages/api/src/store-context.ts:98-115 | After a store's invalidation, with no answer that gives it still to be handled, no older row of it is told again, by host or by slug. |
| HostInvalidation.InvalidationForgetsHost | packages/api/src/store-context.ts:98-115 | After a host's invalidation, with no scan of it still to be handled, it is told nothing older. |
| HostCaching.CachedUntilExpiry | packages/api/src/store-context.ts:59-82 | Once a scan has found a store, every request for its host is told it at once for 60 seconds, until an invalidation or a thousand more scans, while the clock does not go back. |
| HostCaching.MissedUntilExpiry | packages/api/src/store-context.ts:397-427 | Once a scan of the current generation has found none, every request for its host is told so at once for 15 seconds, until an invalidation or two thousand more scans. |
| HostCaching.WaitsForItsHost | packages/api/src/store-context.ts:407-416 | A request that is not answered at once waits for a scan of its own host that is under way. |
| StoreCaches.Caches.InvalidateStoreCache | packages/api/src/store-context.ts:98-115 | An invalidation clears the misses, starts a new generation and drops what it names. |
| StoreCaches.Caches.DropSlug | packages/api/src/store-context.ts:107-113 | Dropping entries while walking the map leaves the others, in order. |
| StoreCaches.Caches.ResolveStoreByHost | packages/api/src/store-context.ts:397-416 | A request up to its first wait: answered from a cache, sharing a scan, or starting one. |
| StoreCaches.Caches.ScanAnswered | packages/api/src/store-context.ts:410-414 | A row is cached; a miss is remembered only when no invalidation came between. |
| StoreCaches.Caches.ScanSettled | packages/api/src/store-context.ts:414-414 | A settled scan leaves the table of scans in flight. |
| StoreCaches.Caches.ResolveStore | packages/api/src/store-context.ts:298-301 | A request by slug is refused, answered from the cache, or asks the registry. |
| StoreCaches.Caches.LookupAnswered | packages/api/src/store-context.ts:302-309 | The row of a query is cached under its slug. |
| EdgeReads.SafeStart | packages/storefront/edge/edge-reads.worker.js:72-75 | The three replacement passes act on each character on its own: what one pass writes no later pass touches. |
| EdgeReads.SafeIsPlain | packages/storefront/edge/edge-reads.worker.js:72-75 | No `<`, U+2028 or U+2029 is left, whatever the text. |
| EdgeReads.LiteralKept | packages/storefront/edge/edge-reads.worker.js:72-75 | A string literal of the escaped text decodes to the same units and ends at the same place, escapes included (section 7 of RFC 8259). |
| EdgeReads.SafeJsonKeepsValue | packages/storefront/edge/edge-reads.worker.js:72-75 | The escaped form of every JSON text is a JSON text of the same value. |
| EdgeReads.WrongTextMadeRight | packages/storefront/edge/edge-reads.worker.js:72-75 | For text that is not JSON nothing is promised: a literal with a backslash before `<` becomes valid. |
| EdgeReads.AttrReadsBack | packages/storefront/edge/edge-reads.worker.js:71-71 | A browser reads back the escaped attribute, and nothing in it ends the attribute or opens a tag. |
| EdgeReads.BlockCarriesData | packages/storefront/edge/edge-reads.worker.js:77-81 | An HTML parser takes exactly the block's own text as script data: it cannot end early, and a failed read is empty. |
| EdgeReads.BlockReadsBack | packages/storefront/edge/edge-reads.worker.js:77-81 | A JSON answer read from its block has the answer's value. |
| EdgeReads.BlockNamesItsRead | packages/storefront/edge/edge-reads.worker.js:77-81 | Read as quoted attributes, a block says that it is JSON, which read it answers, and whether that read succeeded. |
| LinkHeader.JoinedEntries | packages/storefront/edge/edge-reads.worker.js:65-69 | Splitting a joined list of entries gives the list back. |
| LinkHeader.PiecesMean | packages/storefront/edge/edge-reads.worker.js:64-67 | The pieces are the header cut at exactly the commas followed, after any space, by `<`: joined they are the header, and none can be cut again. |
| LinkHeader.PreloadsTakenOut | packages/storefront/edge/edge-reads.worker.js:64-69 | What is left lists, in order, exactly the entries that target no served key; applying it twice changes nothing (section 3 of RFC 8288). |
| LinkHeader.EntriesKeepTheirPlace | packages/storefront/edge/edge-reads.worker.js:64-69 | Each entry stays in its place, or goes when it targets a key, whatever stands around it. |
| LinkHeader.EdgeReadKeys | packages/storefront/edge/edge-reads.worker.js:48-62 | The loop computes the keys function. |
| LinkHeader.ReadKeysMean | packages/storefront/edge/edge-reads.worker.js:45-62 | At most six distinct same-origin paths, each declared by an entry, and every declared path when there are fewer than six. |
| LinkHeader.DeclaredMeans | packages/storefront/edge/edge-reads.worker.js:45-58 | An entry declares a path exactly when it is that same-origin path in brackets, followed by one line of parameters with `rel=preload` and `as=fetch`. |
| LinkHeader.FirstSixAreRead | packages/storefront/edge/edge-reads.worker.js:48-62 | The reads are the first six different paths, in the order they are declared. |
| LinkHeader.ServedReadsAreGone | packages/storefront/edge/edge-reads.worker.js:115-121 | The header sent on declares none of the reads in the page, and no read at all when fewer than six were declared. |
| PlaceOnce.BlocksPlacedOnce | packages/storefront/edge/edge-reads.worker.js:146-168 | The blocks are placed at most once, never before all reads are back, and exactly once when the body has ended. |
| PlaceOnce.EarlyExactlyInTime | packages/storefront/edge/edge-reads.worker.js:146-168 | The blocks go in at the first body element exactly when all reads are back by then or before the hold expires; else at the end. |
| CacheDirectives.IsNoStoreOnly | packages/api/src/cache-policy.ts:218-234 | The loop accepts exactly the values whose every directive grants nothing and of which one is no-store. |
| CacheDirectives.PassesMeans | packages/api/src/cache-policy.ts:222-231 | The pattern and name checks accept exactly the five valueless names and the two ages with an all-zero value. |
| CacheDirectives.JoinedNoStoreOnly | packages/api/src/cache-policy.ts:211-221 | A comma-joined value only forbids storing exactly when both parts grant nothing and one says no-store (section 5.2.2 of RFC 9111). |
| CacheDirectives.NoStoreIsNotCacheable | packages/api/src/cache-policy.ts:201-206 | No value both forbids storing and counts as set cacheable by its handler. |
| CacheDirectives.RestrictionWins | packages/api/src/cache-policy.ts:201-206 | A directive no-store, no-cache or private, in any case, leaves nothing set cacheable. |
| CacheDirectives.PermissionGrants | packages/api/src/cache-policy.ts:201-206 | A directive public, or an age that begins with a positive digit, sets a value cacheable exactly when none of those three words is in it. |
| CacheDirectives.NoStoreOnlyPermitsNothing | packages/api/src/cache-policy.ts:211-234 | A value that only forbids storing has no directive that allows it. |
| CachePolicy.PolicyOutcome | packages/api/src/cache-policy.ts:294-324 | Exactly a GET or HEAD answered 200 without store selector, on a built-in path or on a plugin's path that is not denied, without credentials and set cacheable by its handler, keeps its headers but for the cache tag; every other response ends with a value that only forbids storing, its own bytes if they do so, and with no CDN header. All else is unchanged. |
| CachePolicy.RebuiltIsTheSame | packages/api/src/cache-policy.ts:257-269 | A response with immutable headers ends with the headers of one edited in place. |
| CachePolicy.PolicyTwice | packages/api/src/cache-policy.ts:294-324 | Applying the policy again changes no header. |
| CachePolicy.Context.EditOrRebuild | packages/api/src/cache-policy.ts:258-269 | An edit in place, or on a rebuilt response and once more. |
| CachePolicy.Context.ApplyPolicy | packages/api/src/cache-policy.ts:294-324 | The middleware's branches choose the edit of the specification. |
| CacheExceptions.ValidateExceptions | packages/api/src/cache-policy.ts:138-159 | The staged loop computes the specification, first error included. |
| CacheExceptions.GoodMeans | packages/api/src/cache-policy.ts:85-118 | An entry is good exactly when it says its source and reason and its path is absolute or anchored, stateless, not denied and matches no path it is tried against. |
| CacheExceptions.AcceptedExactly | packages/api/src/cache-policy.ts:134-159 | A list is accepted exactly when each entry is good and none clashes with one before it, old or new. |
| CacheExceptions.AcceptedEntries | packages/api/src/cache-policy.ts:134-159 | Accepted entries are the given ones in order, and a path that a literal entry names is matched by no other entry, old or new. |
| CacheExceptions.AcceptedAreAllowed | packages/api/src/cache-policy.ts:85-118 | Every entry an accepted list adds is allowed, whatever is there already: absolute or anchored, not denied, and no pattern matches a path it is tried against. Built-in entries are exempt. |
| CacheExceptions.MatchedOnceWhenApart | packages/api/src/cache-policy.ts:126-132 | A list whose literal paths are exclusive matches each path by at most one entry exactly when no two of its patterns share a path. |
| CacheExceptions.AcceptedMatchOnce | packages/api/src/cache-policy.ts:134-159 | The same for the whole list after a registration, and always with at most one pattern. |
| CacheExceptions.PatternsMayOverlap | packages/api/src/cache-policy.ts:126-132 | Whatever patterns mean, any two good ones spelled differently that share a path are accepted together and match it twice. |
| CacheExceptions.Registry.Register | packages/api/src/cache-policy.ts:246-253 | One bad entry and none is registered; else all are appended, and what is registered stays allowed and exclusive. |
| Branding.HexReadsBack | packages/admin/src/lib/branding.ts:22-29 | Writing a colour and reading it gives the rounded colour. |
| Branding.EnsureContrast | packages/admin/src/lib/branding.ts:47-51 | The loop gives the first of the colours on the way that has the contrast, or the target. |
| Branding.RepairMeans | packages/admin/src/lib/branding.ts:46-51 | The repair has the contrast exactly when one of the colours on the way has. |
| Branding.RepairReaches | packages/admin/src/lib/branding.ts:46-51 | A repair reaches any contrast that its target has. |
| Branding.RepairKeepsReadable | packages/admin/src/lib/branding.ts:46-51 | A colour that has the contrast is not touched. |
| Branding.LightOfPrimaries | packages/admin/src/lib/branding.ts:30-39 | Luminance gives red, green and blue their shares, and white has contrast 21 over black (WCAG 2.1, relative luminance and contrast ratio). |
| Branding.ContrastRange | packages/admin/src/lib/branding.ts:34-39 | Contrast goes from 1, of a colour with itself, to 21. |
| Branding.MixMeans | packages/admin/src/lib/branding.ts:40-45 | A mix lies between its colours, channel by channel, and its ends are the colours. |
| Branding.AuthThemeVars | packages/admin/src/lib/branding.ts:54-88 | The derived colours are those of the specification. |
| Branding.LabelReads | packages/admin/src/lib/branding.ts:58-62 | The label has contrast 4.5 on the derived primary exactly when the store's primary is a colour, whatever the text colour (WCAG 2.1 success criterion 1.4.3). |
| Branding.PrimaryStays | packages/admin/src/lib/branding.ts:58-62 | The primary stays as it is exactly when white, the text or the ink reads on it, and the label is the first of these that does. |
| Branding.HoverKeepsContrast | packages/admin/src/lib/branding.ts:63-64 | Hovering keeps or raises the label's contrast. |
| Branding.TextReads | packages/admin/src/lib/branding.ts:56-56 | The text reads on the surface exactly when the store's text or the ink does. |
| Branding.SurfaceReads | packages/admin/src/lib/branding.ts:69-77 | Wherever the text reads on the surface, muted text and links reach 4.5 and the strong border 3. |
| Branding.ReadableStays | packages/admin/src/lib/branding.ts:56-77 | Text, muted text and links in the primary colour are left alone where they read. |
| Branding.SoftIsBetween | packages/admin/src/lib/branding.ts:72-72 | The soft ground lies between the surface and the background, or the border where those are the same. |
| Branding.StatusReads | packages/admin/src/lib/branding.ts:79-84 | Danger and success colours read on every surface that black reads on. |
| Branding.DisabledReads | packages/admin/src/lib/branding.ts:85-86 | Disabled text reaches 3 on its ground wherever the text does. |
| Paginated.ItemsAreTheCommittedPages | ios/SellRightAdmin/Core/Models.swift:93-142 | In every run the items are, in order, the committed answers to requests for pages 1 to `page`, each made after the one before, and `loading` holds exactly while the latest request is outstanding. |
| Paginated.StaleAnswerChangesNothing | ios/SellRightAdmin/Core/Models.swift:128-140 | Once a request has been replaced, invalidated or cancelled, its answer leaves the list as it then is, whatever has happened in between. |
| Paginated.RetryRepeatsWhatFailed | ios/SellRightAdmin/Core/Models.swift:116-141 | After a shown failure a retry asks for the same page in the same way. |
| PaginatedAnswers.LoadIsSent | ios/SellRightAdmin/Core/Models.swift:121-128 | In every run a load is sent exactly when it replaces, or when more is left and no answer is waited for, and asks for the first or the next page. |
| PaginatedAnswers.LatestAnswerCounts | ios/SellRightAdmin/Core/Models.swift:128-141 | In every run the answer to the latest request, not cancelled, counts: a page replaces or is added, a failure is shown, a cancellation error leaves the list. |
| PaginatedAnswers.TotalIsTheLastAnswers | ios/SellRightAdmin/Core/Models.swift:128-136 | The total is that of the last committed page. |
| PaginatedAnswers.InvalidateStartsOver | ios/SellRightAdmin/Core/Models.swift:106-119 | An invalidated list is empty and waits for nothing, and a retry loads its first page. |
| PaginatedAnswers.WholeListLoads | ios/SellRightAdmin/Core/Models.swift:93-142 | From any state, loads answered page by page give all items in order, and then nothing is left to load. |
| Paginated.List.BeginLoad | ios/SellRightAdmin/Core/Models.swift:121-128 | A load is sent when it replaces, or when more is left and nothing is loading. |
| Paginated.List.BeginRetry | ios/SellRightAdmin/Core/Models.swift:116-119 | A retry is the load that failed. |
| Paginated.List.EndLoad | ios/SellRightAdmin/Core/Models.swift:128-140 | An answer is committed, shown as failed or dropped by the latest request's rule. |
| Paginated.List.InvalidateList | ios/SellRightAdmin/Core/Models.swift:106-114 | Everything is empty and no request is the latest. |
| Refunds.RefundCashForQuantity | packages/admin/src/api.ts:227-244 | The loop over the amounts computes the proven cash of a quantity. |
| Refunds.CashMeans | packages/admin/src/api.ts:226-244 | Cash is proven for a quantity exactly when that many units are left and a safe, never falling list of as many amounts, or a price with a safe product, proves it. |
| Refunds.UnitsMean | packages/admin/src/api.ts:215-224 | The units left are those the line says, or else its quantity less what was refunded, never below zero. |
| Refunds.CashAdds | packages/admin/src/api.ts:240-243 | With a price only, the cash of two quantities together is the sum of theirs. |
| Refunds.CashGrowsWithQuantity | packages/admin/src/api.ts:226-244 | Proven cash for some units proves the cash of fewer, which is never more. |
| Refunds.RefundCashForRemainingLines | packages/admin/src/api.ts:246-263 | The total is the sum of all lines' cash when every line is proven and the sum is a safe integer, else none. |
| Refunds.LineCashMeans | packages/admin/src/api.ts:249-258 | A line's part is the cash of all its units, or nothing when none is left and no amount says otherwise. |
| Refunds.RemainingMeans | packages/admin/src/api.ts:248-261 | Checking the running total at each line is checking the sum once. |
| Refunds.RemainingIgnoresOrder | packages/admin/src/api.ts:246-263 | The refund does not depend on the order of the lines. |

## Left out

- Positive host cache freshness right after a change: a scan already under way may still store or share an older row, and only the 60 second lifetime bounds that.
- AppSession.Manager: its fields are kept in one record that the methods reassign, so updates of single fields are not told apart.
- PushManager.Manager.CleanupRegistrations: its turns run without interruption; `SendCleanup`, `SettleCleanup` and `FinishCleanup` are the stretches between its awaits, which the push system interleaves with everything else.
- Branding.StepUntilReads: the repair's loop takes its colours and its test as functions.
- CacheExceptions.ValidateExceptions: what a regular expression matches, the deny list and the probe paths are parameters.
- CachePolicy.PolicyOutcome: whether a request carries credentials is a parameter, not read from its headers.
- OrderedCache.TtlCache.Write: an insertion-ordered map is a sequence of entries with distinct keys.
- Branding.AuthThemeVars: the background, the fonts, the radii and the focus mix, which are passed on or fixed.
- Rounding of floating-point numbers in colour arithmetic, and the 2.4 power of the curve.
- Letter case outside ASCII, and text order beyond character codes.
- `normalizedServerURL`, `normalizeHost` and URL parsing: addresses and hosts are already in normal form.
- The precedence of slug header, host and development default in `resolveStoreForRequest`, which has no state.
- LISTEN and NOTIFY reconnects: an invalidation from another process is an event that may come at any time or not at all.
- HTML parsing beyond finding the end of a start tag and the next `<`, and which body elements the early selector matches.
- Cookies, country and the other headers of a composed page.
- Views, themes, notifications, ActivityKit, the network, the database and the Keychain itself.
