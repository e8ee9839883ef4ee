# Tasty backend: verified models of its stateful protocols

A Dafny model of the parts of the Tasty backend in which several handlers share state and a
guard in one is only right because of what the others keep. Seven components are modelled.

* **Refresh-token rotation** (`RefreshTokens`, `TokenOutcomes`, `TokenService`, and `RefreshRaces`
  for overlapping requests). A session stores the hashes of its current and previous refresh token,
  Redis keeps expiring markers for rotated ones, and replay revokes the session family (section
  10.4 of RFC 6749, section 4.14 of RFC 9700).
* **Orders, debt and QR codes** (`OrderData`, `Orders`, `OrderRuns`, `OrderDeliveries`,
  `OrderOutcomes`, `OrderService`, and `OrderRaces` for interleaved handlers). Create, cancel, scan, two payment
  consumers, an expiry sweep, a debt query and membership events update one store.
* **Verification codes and account activation** (`OtpCode`, `Accounts`, `AccountOutcomes`,
  `AccountService`, and `OtpRaces` for overlapping guesses).
* **Driver-wait enforcement** (`DriverWait`, `DriverWaitOutcomes`, `DriverWaitService`, and
  `DriverWaitRaces` and `DriverWaitRaceOutcomes` with every await a separate step).
* **Menu projection and cache** (`StableSort`, `Slugs`, `MenuJoin`, `MenuTables`, `Menu`,
  `MenuRuns`, `MenuOutcomes`, `MenuHistory`, `MenuService`).
* **Circuit breaker** (`Arithmetic`, `CircuitBreaker`).
* **Watchlist scoring** (`Watchlist`).

`Options` and `Runs` are shared: absent values, and runs of a step function with what holds along them.

How to read it. Code that updates stored state is a class whose methods are written step by step
(`TokenService.Sessions`, `OrderService.Service`, `AccountService.Service`,
`DriverWaitService.Enforcement`, `MenuService.Service`, `CircuitBreaker.Breaker`); each method's
`ensures` gives its whole new state as a function of the old one. The properties are then proved
about those functions, for every run of the handlers: a run is a sequence of timed calls with
arbitrary arguments, `At(step, s, events, n)` is the state after n of them, and `Possible` says only
that time does not go back, that random ids are fresh and that request bodies passed their validator.
The `Outcomes` modules, and `MenuHistory`, say in the stored fields alone when each call succeeds and
what it then changes, and trace what is stored at any moment of a run back to the calls that made it
so: which call, of those that came before, was the last to switch it on or off (`Runs.LastOn`).
The four `Races` modules do not use atomic handlers; lemmas in them tie uninterrupted handlers back to
the atomic ones.

Findings. These hold of the code as it is; each has a lemma below.

* Two overlapping refresh requests with one token can both be granted (`RefreshRaces.OverlapAcceptsTwice`).
  After one has saved, another is granted exactly when it had read the session before that save
  with the token as current, and compares while no marker for the token is fresh (`GrantedAgainIff`).
* An expiry sweep that reads an order before its payment or cancellation and writes after it makes
  a paid or cancelled order owe (`PaidOrderOwes`, `CancelledOrderOwes`), and that late write is the
  only way (`PaidDebtArisesIff`, `OwesAgainIff`).
* When the blacklist call throws in the middle of a sweep, the order just written owes, but its
  expiry event is never published, by that sweep or any later one (`CutShortIsNeverTold`).
* More than one fraud message can go out between two driver arrivals: two expiry messages that
  overlap (`OverlapSendsTwice`), or two that do not, with the late mark of a warning in between
  (`LateWarningSendsTwice`). `SecondFraudIff` says exactly when a handler sends a further one. A timer
  moves backwards in exactly three ways (`TimerFallsIff`).
* A repeated driver arrival restarts the timer but not the delay of a pending job, which stays due
  one delay after the first arrival that found its queue empty (`PendingIsTheFirstArrivals`,
  `LaterArrivalRestartsIff`).
* A menu projection soft-deleted once (a restaurant rebuilt while not active) never comes back: the
  upsert looks for a live row and the unique index on `restaurantId` refuses a second one
  (`SuspendedOnceIsNeverListedAgain`).
* After a restaurant is renamed, the next one to open at its old address shows the first one's menu
  (`NewcomerShowsOldMenu`): exactly while that menu is cached there, or its stale row is found first
  (`WrongMenuIff`). Until somebody opens there the old address answers 404 (`OldAddressIsClosed`).
* Phone numbers are unique exactly as far as the database enforces it; without the index two
  registrations suffice (`TwoAccountsOnePhone`). The schema declares that index with both `sparse` and
  `partialFilterExpression` (userService/src/models/user.model.js:37-40), a combination MongoDB refuses.
* Guesses at a code that overlap are all compared, whatever the limit (`OverlapComparesAll`), and a save
  counts its guess exactly when the record still holds the attempts it has read (`CountedIff`); while no count is
  lost and at most c are in flight `OtpRaces.FreshOverlapBound` holds.
* A half-open circuit breaker admits every overlapping call, not one probe
  (`HalfOpenAdmitsEveryOverlappingCall`); with at most c calls in flight
  `CircuitBreaker.FreshOverlapBound` still holds.
* A deleted menu item is shown exactly by a cache entry still fresh at the requested address
  (`MenuHistory.DeletedShownIff`). While slugs do not change there is none (`DeletedIsNeverShown`); a
  restaurant that is renamed, deletes an item and takes its old name back has one
  (`RenamedBackShowsDeleted`).

Lemmas carry `{:induction false}` wherever Dafny would try an induction of its own: no proof rests on
an induction hypothesis that it has guessed.

## Model

| member | source | states |
|---|---|---|
| RefreshTokens.TextOfParse | userService/src/services/token.service.js:21-27 | parsing a refresh token loses nothing, so its hash identifies the text |
| RefreshTokens.ParseOfBuild | userService/src/services/token.service.js:21-34 | a built token parses back to its session id and secret |
| RefreshTokens.ParseIff | userService/src/services/token.service.js:21-27 | a text parses to a token iff it is two parts, neither empty nor with a dot, joined by a dot, with nothing or a dot after them |
| RefreshTokens.StepKeepsInv | userService/src/services/token.service.js:29-127 | every login, refresh, logout, reap and replay keeps: n tokens issued for version n, last two hashes stored, exactly the rotated ones marked until ttl after their rotation, one session per family |
| RefreshTokens.LookupMeansRecent | userService/src/services/token.service.js:101-110 | the marker and hash comparisons hold exactly for tokens rotated out less than ttl ago or the immediate predecessor |
| RefreshTokens.PresentAnswers | userService/src/services/token.service.js:94-127 | a token presented to a usable session is rotated iff current, reported as reuse iff recently rotated out or the predecessor, refused otherwise |
| RefreshTokens.ReuseRevokesExactlyTheFamily | userService/src/repositories/session.repository.js:28-33 | reuse revokes the session of that login and leaves every other session as it was |
| RefreshTokens.RotationHistory | userService/src/services/token.service.js:40-68 | in every run a session with tokenVersion n has issued n pairwise different tokens, stores hash n and hash n-1, and keeps its first family |
| RefreshTokens.HistoryOverRuns | userService/src/services/token.service.js:29-68 | histories only grow, families never change, and a revoked or reaped session never issues again |
| RefreshTokens.NoTokenAcceptedTwice | userService/src/services/token.service.js:94-127 | no refresh token text is accepted twice in a run, even after its marker has expired |
| RefreshTokens.ReuseIsFinal | userService/src/services/token.service.js:110-119 | after detected reuse the session issues nothing, whatever follows |
| TokenOutcomes.LogoutIff | userService/src/services/session.service.js:28-35 | logging out succeeds iff the session is the caller's; it then revokes that session and no other, and changes nothing else |
| TokenOutcomes.LogoutAllRevokes | userService/src/repositories/session.repository.js:35-46 | exactly the user's sessions other than the spared one are revoked |
| TokenOutcomes.LoginOpens | userService/src/services/token.service.js:29-52 | a login opens a session of the user, usable for exactly ttl, with the issued token as current, and touches no other |
| TokenOutcomes.SessionIsItsLogins | userService/src/services/token.service.js:40-52 | in every run a session has the user and the family of the login that opened it |
| TokenOutcomes.UsableIff | userService/src/services/token.service.js:94-99 | at any moment of any run a session is usable iff it issued a token less than ttl ago and no call so far has ended it: its owner's logout, a logout of all that does not spare it, a replay while it lasted, or its reaping |
| TokenOutcomes.AcceptedIff | userService/src/services/auth.service.js:122-157 | in every run a refresh is granted iff the user may refresh, the text is the token last issued to its session, less than ttl ago, and no call so far has ended that session |
| TokenOutcomes.StepIssues | userService/src/services/token.service.js:29-68 | logins and granted refreshes, and nothing else, issue a token: one, with the fresh secret |
| TokenOutcomes.LoggedOutForGood | userService/src/services/session.service.js:28-35 | after a logout was answered as done no text of that session is ever accepted |
| RefreshRaces.StoredInEveryRun | userService/src/services/token.service.js:29-68 | under every interleaving each stored hash is that of an issued token nobody is about to store |
| RefreshRaces.GrantIff | userService/src/services/token.service.js:101-126 | one comparison grants the token iff the copy read has it as current and no marker for it is fresh |
| RefreshRaces.FreshIffMarked | userService/src/services/token.service.js:63-67 | in every run a marker is fresh iff some rotation marked the token less than the lifetime ago |
| RefreshRaces.GrantedAgainIff | userService/src/services/token.service.js:94-127 | in every run, once a rotation of a token has saved, another presentation is granted iff it had read the token as current before that save and compares while no marking of it is less than the lifetime old |
| RefreshRaces.OverlapAcceptsTwice | userService/src/services/token.service.js:96-126 | two requests that both read the session before either saves are both granted the token |
| RefreshRaces.RevokedForGood | userService/src/services/token.service.js:53-60 | under every interleaving a revoked session is never usable again, also when a request already under way still saves |
| RefreshRaces.RevokedIff | userService/src/repositories/session.repository.js:20-33 | under every interleaving one action leaves a session revoked iff it was, or the action is its logout's write or that of a presentation which found reuse in its family |
| RefreshRaces.LogoutIsAtomic | userService/src/services/session.service.js:28-35 | the write of a logout is the atomic one |
| RefreshRaces.LoginAndReapAreAtomic | userService/src/services/token.service.js:29-52 | so are the writes of a login and of the reaping of a session |
| RefreshRaces.UninterruptedIsAtomic | userService/src/services/token.service.js:94-127 | the steps of a request, uninterrupted, are the atomic handler |
| TokenService.Sessions.IssueTokensForUser | userService/src/services/token.service.js:29-68 | creates a session, or rotates an existing one and marks the replaced hash |
| TokenService.Sessions.RotateRefreshToken | userService/src/services/token.service.js:94-127 | the whole new state and the answer to a presented token |
| TokenService.Sessions.RefreshWith | userService/src/services/auth.service.js:122-157 | refresh refuses unparsable tokens, unknown sessions and users not allowed to refresh, else rotates |
| TokenService.Sessions.RevokeFamilyOf | userService/src/repositories/session.repository.js:28-33 | revokes every live session of the family, and only those |
| TokenService.Sessions.RevokeSession | userService/src/services/session.service.js:28-35 | revokes one session of its owner, once; others unknown |
| TokenService.Sessions.RevokeAll | userService/src/repositories/session.repository.js:35-46 | revokes every live session of a user except the given one |
| OrderData.SubtotalPositive | orderService/src/services/order.service.js:19-22 | validated items give a positive total |
| Orders.CreateKeeps | orderService/src/services/order.service.js:96-195 | a created order is sound and its QR hash binds it |
| Orders.CancelKeeps | orderService/src/services/order.service.js:197-244 | cancelling keeps the order invariant and only moves the order forward |
| Orders.ScanKeeps | orderService/src/services/order.service.js:289-356 | scanning keeps the order invariant, announces the scan and any payment |
| Orders.PayKeeps | orderService/src/services/order.service.js:358-450 | both payment consumers keep the order invariant and announce the payment |
| Orders.SweepKeeps | orderService/src/services/order.service.js:452-491 | the sweep keeps the invariant, wherever the blacklist call fails |
| Orders.StepKeeps | orderService/src/services/order.service.js:96-524 | every handler keeps the invariant and evolves every order |
| Orders.ClearPaidIsNoOp | orderService/src/repositories/order.repository.js:27-47 | in sound orders the clearing update changes nothing |
| Orders.DueIsComplete | orderService/src/repositories/order.repository.js:61-72 | the sweep's query returns an order exactly when it is due |
| Orders.SweepWritesAt | orderService/src/services/order.service.js:457-470 | the loop writes each listed order once, from what was read, and no other |
| OrderRuns.OrdersInEveryRun | orderService/src/services/order.service.js:24-73 | in every run EXPIRED iff OUTSTANDING; OUTSTANDING means full total, unpaid, unscanned, past the deadline; CLEARED, scanned and PAY_ON_APP mean paid; the closing statuses belong to their order types; clearing is a no-op |
| OrderRuns.OrdersEvolve | orderService/src/services/order.service.js:197-491 | between any two moments of a run: debt only moves NONE, OUTSTANDING, CLEARED; paid stays paid; scans and recorded times are never lost; what cannot owe never owes |
| OrderRuns.CancelledNeverOwes | orderService/src/services/order.service.js:212-233 | an order once cancelled never owes, even if paid or scanned later |
| OrderRuns.ScanIff | orderService/src/services/order.service.js:289-312 | a scan succeeds iff the token is the order's own, unexpired, unscanned and the scanner is authorised |
| OrderRuns.CreatedTokenScans | orderService/src/services/qr.service.js:9-31 | the token of a new order scans that order until its deadline, at any later moment of any run |
| OrderRuns.SettledOnce | orderService/src/services/order.service.js:289-317 | at most one event of a run scans an order or sweeps it as expired: never two, never one of each |
| OrderRuns.LogInEveryRun | orderService/src/services/order.service.js:156-192 | everything published is true of its order with the right amount; expiry published at most once per order; every payment and scan published |
| OrderRuns.SweptIsToldIff | orderService/src/services/order.service.js:472-488 | the sweep publishes the expiry of each order it writes except the one at which the blacklist call threw |
| OrderRuns.CutShortIsNeverTold | orderService/src/services/order.service.js:458-485 | the expiry of that order is never published afterwards, in any continuation |
| OrderRuns.StepOwed | orderService/src/services/order.service.js:325-328 | each step moves a user's EXPIRED total by what a sweep records less what a payment or scan takes off |
| OrderRuns.DebtReport | orderService/src/services/order.service.js:250-271 | the reported debt is the sum of the user's EXPIRED totals, and everything recorded less everything taken off over the run; reporting changes nothing |
| OrderDeliveries.SweepTakesItsBatch | orderService/src/services/order.service.js:452-491 | a sweep takes exactly its batch off the front of the due orders, also when it is cut short |
| OrderDeliveries.DeadlinesInEveryRun | orderService/src/services/qr.service.js:13-19 | in every run QR deadlines do not decrease with the order id |
| OrderDeliveries.NeverDueAgain | orderService/src/repositories/order.repository.js:61-72 | past its deadline, an order that is not due is never due again, whatever happens |
| OrderDeliveries.SweepsDrain | orderService/src/services/order.service.js:452-491 | in any run, with any other calls and any time between them, k unaborted sweeps leave at most n - k*limit of the n orders due at the start, none once k*limit >= n |
| OrderDeliveries.DuplicatesDoNotMatter | orderService/src/services/order.service.js:359-382 | dropping every already processed payment or membership delivery from any run leaves orders, memberships, processed ids and published events the same |
| OrderDeliveries.MarkedAfterDelivery | orderService/src/repositories/processed-event.repository.js:6-19 | a delivery is marked unless its id is empty or it pays for a missing order |
| OrderDeliveries.LateDuplicateDoesNothing | orderService/src/consumers/restaurant-membership.consumer.js:19-37 | a marked delivery repeated at any later point of a run does nothing |
| OrderOutcomes.CreateSets | orderService/src/services/order.service.js:96-195 | the new order is the requester's, with the items, their price, the payment and the QR hash of the token handed out; and what is published |
| OrderOutcomes.CancelIff | orderService/src/services/order.service.js:197-244 | cancelling succeeds iff by the owner or a superadmin on an unscanned, unclosed order that owes nothing; every field of the order after, and nothing else changes |
| OrderOutcomes.ScanOutcome | orderService/src/services/order.service.js:289-356 | a scan succeeds iff with the own token, in time, once, by an authorised scanner; the closing status by type and payment, every other field, and what is published |
| OrderOutcomes.ScanRefusals | orderService/src/services/order.service.js:289-312 | which refusal a scan of an existing order gets, guard by guard |
| OrderOutcomes.OtherRefusals | orderService/src/services/order.service.js:197-218 | which refusal a cancellation or a driver's arrival gets |
| OrderOutcomes.PayOutcome | orderService/src/services/order.service.js:397-450 | a payment is handled iff its id is new and its order exists, looked up by order id first; every field of the order after, the mark, and what is published |
| OrderOutcomes.ArrivedOutcome | orderService/src/services/order.service.js:493-524 | an arrival is recorded iff for an existing delivery by an authorised scanner |
| OrderOutcomes.SweepOutcome | orderService/src/services/order.service.js:452-491 | a sweep makes exactly the orders its query finds, the first limit of them and none past the one at which the blacklist threw, EXPIRED and OUTSTANDING for their total; no other order changes |
| OrderOutcomes.SweepTold | orderService/src/services/order.service.js:480-487 | it publishes the expiry of exactly those orders but the one at which the blacklist threw |
| OrderOutcomes.DebtLinesAre | orderService/src/repositories/order.repository.js:18-25 | the report has one line for each order the user owes, with its fields, newest first |
| OrderOutcomes.OwesIff | orderService/src/services/order.service.js:452-470 | in every run an order is EXPIRED, and owes its total, iff a sweep has taken it and it has been neither paid nor scanned since |
| OrderOutcomes.DueIff | orderService/src/repositories/order.repository.js:61-72 | in every run the sweep's query finds an order iff it was created to be paid later, is past its deadline and has been neither paid, scanned, cancelled nor swept |
| OrderOutcomes.MembershipIff | orderService/src/consumers/restaurant-membership.consumer.js:3-37 | after a message someone is a member iff it is new and assigns them, or they were and it does not newly remove them; the role letter by letter; others unchanged |
| OrderOutcomes.MemberIff | orderService/src/repositories/restaurant-membership.repository.js:6-21 | in every run someone is a member iff the last message about them to be handled, duplicates aside, was an assignment |
| OrderOutcomes.RemovedStaysRemoved | orderService/src/consumers/restaurant-membership.consumer.js:20-36 | redeliveries of earlier assignments never bring a removed member back |
| OrderOutcomes.SeenIff | orderService/src/repositories/processed-event.repository.js:6-19 | in every run an event id counts as processed iff a membership message, or a payment for an existing order, was delivered with it |
| OrderService.Service.CreateOrder | orderService/src/services/order.service.js:96-195 | two writes: a draft with a pending token, then the final QR; four publications, and a fifth if paid in the app |
| OrderService.Service.CancelMyOrder | orderService/src/services/order.service.js:197-244 | whole new state and refusals in the order of the guards |
| OrderService.Service.AssertScannerAuthorized | orderService/src/services/order.service.js:75-94 | role by order type, then membership; superadmin passes |
| OrderService.Service.ScanQr | orderService/src/services/order.service.js:289-356 | whole new state and refusals in the order of the guards |
| OrderService.Service.OnPaymentSucceeded | orderService/src/services/order.service.js:358-395 | ignored if processed or the order is missing, else paid, marked and published |
| OrderService.Service.OnOrderPaymentSucceeded | orderService/src/services/order.service.js:397-450 | the same by order id first, with a driver arrival for deliveries |
| OrderService.Service.OnMembership | orderService/src/consumers/restaurant-membership.consumer.js:3-37 | maps the payload, deletes or upserts, marks also invalid payloads |
| OrderService.Service.ProcessExpiredQrOrders | orderService/src/services/order.service.js:452-491 | the whole new state of a sweep and whether it was cut short |
| OrderService.Service.ExpireEach | orderService/src/services/order.service.js:457-488 | the loop: write, blacklist, publish, count; stops when the blacklist throws |
| OrderService.Service.GetMyDebtStatus | orderService/src/services/order.service.js:250-271 | clears, lists newest first, sums |
| OrderService.Service.MarkDriverArrived | orderService/src/services/order.service.js:493-524 | deliveries only, authorised scanners only |
| OrderRaces.StepKeeps | orderService/src/services/order.service.js:96-491 | every single read or write of every handler keeps the interleaving invariant |
| OrderRaces.LandedFine | orderService/src/repositories/order.repository.js:57-59 | any write, however stale its read, keeps an order fine and never unpays or unscans it |
| OrderRaces.OrdersUnderRaces | orderService/src/services/order.service.js:314-470 | under every interleaving scanned implies paid, OUTSTANDING implies amount = total and EXPIRED, CLEARED implies paid |
| OrderRaces.PaidStaysPaid | orderService/src/services/order.service.js:314-380 | under every interleaving PAID and scanned are absorbing |
| OrderRaces.ListedExactly | orderService/src/repositories/order.repository.js:18-25 | the debt list holds exactly the unpaid OUTSTANDING orders of the user, at full total |
| OrderRaces.ClearLeavesNone | orderService/src/repositories/order.repository.js:27-47 | right after the clearing step no paid order of the user is OUTSTANDING; only those changed |
| OrderRaces.CoherentKeptIff | orderService/src/repositories/order.repository.js:27-47 | EXPIRED iff OUTSTANDING is kept by every step except a clearing step that meets a paid OUTSTANDING order |
| OrderRaces.PaidDebtArisesIff | orderService/src/services/order.service.js:454-470 | a paid order comes to owe exactly when a sweep's write lands on it late |
| OrderRaces.OwesAgainIff | orderService/src/services/order.service.js:454-470 | a cancelled or cleared order owes again exactly when a sweep's write lands on it late |
| OrderRaces.PaidOrderOwes | orderService/src/services/order.service.js:250-271 | a run from the empty store with a paid, EXPIRED, OUTSTANDING order, then cleared but still EXPIRED |
| OrderRaces.CancelledOrderOwes | orderService/src/services/order.service.js:197-244 | a run in which a cancelled order ends up owing |
| OrderRaces.LateRunsArePossible | orderService/src/services/order.service.js:452-470 | both runs respect time and validation |
| OrderRaces.UninterruptedIsAtomic | orderService/src/services/order.service.js:197-380 | read and write with nothing in between are the atomic cancel, scan and payment |
| OrderRaces.UninterruptedCreateIsAtomic | orderService/src/services/order.service.js:114-154 | the two writes of a creation with nothing in between are the atomic creation |
| OrderRaces.UninterruptedSweepIsAtomic | orderService/src/services/order.service.js:452-491 | the writes of a sweep landing in turn, as far as the blacklist lets it go, are the atomic sweep |
| OtpCode.OneCodeGuessBound | userService/src/repositories/email-verification.repository.js:43-54 | at most max + ceil(ttl/lock) - 1 guesses are compared with one code, for any timing |
| OtpCode.EagerGuessesReachTheBound | userService/src/services/email-verification.service.js:111-149 | the bound is reached by guessing whenever the record accepts a guess |
| OtpCode.GuessUsesOneUp | userService/src/services/email-verification.service.js:126-146 | each compared guess uses up one of the remaining ones |
| OtpRaces.UninterruptedIsGuess | userService/src/services/email-verification.service.js:124-149 | comparing, reading again and saving with nothing in between is the atomic wrong guess |
| OtpRaces.OverlapComparesAll | userService/src/services/email-verification.service.js:124-135 | any number of guesses that arrive before a count lands is compared, whatever the limit |
| OtpRaces.CountedIff | userService/src/repositories/email-verification.repository.js:43-54 | a save counts its guess iff the record still holds the attempts it has read |
| OtpRaces.FreshOverlapBound | userService/src/repositories/email-verification.repository.js:43-54 | with at most c wrong guesses in flight and no count lost, at most max - 1 + c*ceil(ttl/lock) are compared, for any timing |
| Accounts.LifecycleInEveryRun | userService/src/services/phone-verification.service.js:95-163 | in every run: PENDING_EMAIL iff e-mail unverified, ACTIVE implies all verified and no deadline, PENDING_FACE implies a deadline, phone verified implies a consumed code proved that number; e-mails unique |
| Accounts.PhonesKeptIff | userService/src/services/phone-verification.service.js:95-163 | a call keeps phone numbers unique iff it does not store one that another live user holds |
| Accounts.PhonesUniqueInEveryRun | userService/src/models/user.model.js:37-40 | with the unique index in place phone numbers are unique in every run |
| Accounts.TwoAccountsOnePhone | userService/src/services/auth.service.js:18-41 | without it, any two registrations with one number break that |
| Accounts.StepKeepsAccounts | userService/src/services/user.service.js:51-136 | every handler keeps that lifecycle |
| Accounts.ShownFlagsAreTheRawFlags | userService/src/services/token.service.js:70-80 | the ACTIVE override in claims and profile never shows a flag that is not set |
| Accounts.RegistrationCompletes | userService/src/services/auth.service.js:18-58 | registering, then the e-mail code, the phone code and the face in time end ACTIVE with all flags |
| Accounts.EveryCodeIsBounded | userService/src/services/email-verification.service.js:111-149 | in every run each issued code has been compared with at most the bound |
| Accounts.CodesAreSpaced | userService/src/services/email-verification.service.js:55-63 | two codes for one e-mail or one user are at least a cooldown apart |
| Accounts.WindowGuessBound | userService/src/services/email-verification.service.js:33-53 | in one quota window at most the maximum of codes go to one address, and guesses on them are at most the product |
| AccountOutcomes.GuessIff | userService/src/services/email-verification.service.js:124-151 | a guess is right iff the record is there, in time, unlocked and holds its digest; what each verdict leaves of the record |
| AccountOutcomes.RateLimitIff | userService/src/services/phone-verification.service.js:35-53 | a send is allowed iff each counter was below its maximum in its window; exactly those counters go up by one |
| AccountOutcomes.StartEmailIff | userService/src/services/email-verification.service.js:65-109 | the answer depends on quota and cooldown alone; a code is stored iff answered as sent and an account awaits it |
| AccountOutcomes.StartPhoneIff | userService/src/services/phone-verification.service.js:65-116 | the answer, the stored code, and the account after |
| AccountOutcomes.VerifyEmailIff | userService/src/services/email-verification.service.js:111-174 | confirmed iff verified already or the code sent is presented in time; that account moves on and no other; when it is locked out |
| AccountOutcomes.VerifyPhoneIff | userService/src/services/phone-verification.service.js:118-172 | confirmed iff the account presents the code sent to that number and the index does not hold the number for another; the account after |
| AccountOutcomes.RegisterIff | userService/src/services/auth.service.js:18-58 | an account is stored iff the e-mail is free and the index does not hold the number, even if its first code is refused; it starts unverified |
| AccountOutcomes.ActivateIff | userService/src/services/user.service.js:51-136 | an account becomes ACTIVE by the call iff it waits for its face, e-mail and phone are verified and the face is accepted; otherwise nothing changes |
| AccountOutcomes.CleanupIff | userService/src/repositories/user.repository.js:24-39 | exactly the first limit accounts that missed their deadline are deleted, and exactly those reported |
| AccountOutcomes.StepNext | userService/src/services/user.service.js:51-136 | what each call makes of each account |
| AccountOutcomes.FaceVerifiedIff | userService/src/services/user.service.js:77-136 | in every run an account's face is verified iff a call that accepted its face was answered as activated and no clean-up has deleted it since |
| AccountOutcomes.ActiveIff | userService/src/services/user.service.js:129-136 | in every run an account is ACTIVE iff such a call was answered as activated and it has not asked for a code for another number since |
| AccountOutcomes.EmailVerifiedIff | userService/src/services/email-verification.service.js:151-165 | in every run an e-mail is verified iff its code was presented or the provider vouched, and the account was not deleted since |
| AccountOutcomes.PhoneVerifiedIff | userService/src/services/phone-verification.service.js:152-163 | in every run a phone is verified iff a code was presented for it and no other number was asked for, nor the account deleted, since |
| AccountService.Service.IncrementWindowCounter | userService/src/services/email-verification.service.js:33-39 | fixed-window counter |
| AccountService.Service.StartEmailVerification | userService/src/services/email-verification.service.js:65-109 | quota, cooldown, silent for unknown or verified, else a fresh code |
| AccountService.Service.StartPhoneVerification | userService/src/services/phone-verification.service.js:65-116 | the same for phones, with the status move when the number changes |
| AccountService.Service.CheckCode | userService/src/services/email-verification.service.js:111-149 | missing, expired, locked, wrong with lock, or right and consumed |
| AccountService.Service.VerifyEmailCode | userService/src/services/email-verification.service.js:111-174 | verifies the e-mail and moves the status |
| AccountService.Service.VerifyPhoneCode | userService/src/services/phone-verification.service.js:118-172 | stores the proved number, moves to face activation with a deadline |
| AccountService.Service.RegisterAccount | userService/src/services/auth.service.js:18-58 | refuses taken e-mail or phone, else a pending user and a first code |
| AccountService.Service.RegisterThroughProvider | userService/src/services/oauth.service.js:185-202 | the user record a provider login starts with |
| AccountService.Service.ActivateAccount | userService/src/services/user.service.js:51-136 | the guards of face activation in order |
| AccountService.Service.RunCleanup | userService/src/jobs/pending-face-activation-cleanup.job.js:24-53 | deletes the first lapsed users and publishes exactly their ids in order |
| DriverWait.TimerOnlyMovesUp | notificationService/src/repositories/enforcement-timer.repository.js:6-38 | between two arrivals the timer only moves up in ACTIVE < WARNING_SENT < EXPIRED < CANCELLED |
| DriverWait.AtMostOneOfEach | notificationService/src/services/enforcement-notification.service.js:146-193 | between two arrivals at most one fraud and one warning message; none once the timer or job says so |
| DriverWait.UnscannedHasTimer | notificationService/src/services/enforcement-notification.service.js:75-88 | an unscanned record always has a timer |
| DriverWait.SilentAfterScan | notificationService/src/services/enforcement-notification.service.js:140-144 | from a scan to the next arrival nothing is sent or published |
| DriverWait.ArrivalDelayIff | notificationService/src/services/enforcement-notification.service.js:103-135 | after an arrival a job is due one delay from now iff none was pending or the pending one was due then |
| DriverWait.PendingIsTheFirstArrivals | notificationService/src/services/enforcement-notification.service.js:103-135 | in every run a pending job is that of the first arrival since its queue was last empty, pending ever since and due one delay after it |
| DriverWait.LaterArrivalRestartsIff | notificationService/src/services/enforcement-notification.service.js:103-135 | in every run a later arrival leaves it pending, due one delay from then iff that is when it was due already |
| DriverWaitOutcomes.ArrivalSets | notificationService/src/services/enforcement-notification.service.js:75-138 | every stored field after an arrival; a job already pending stays |
| DriverWaitOutcomes.ExpiryIff | notificationService/src/services/enforcement-notification.service.js:146-173 | the fraud message, with its debt and id number, goes out iff the timer has not stopped, the record is unscanned and there is a phone; what is marked |
| DriverWaitOutcomes.WarningIff | notificationService/src/services/enforcement-notification.service.js:182-212 | the warning goes to the job's phone iff there is one, the timer runs and the record is unscanned; marked and told iff the timer runs |
| DriverWaitOutcomes.ExpireJobIff | notificationService/src/services/enforcement-notification.service.js:214-248 | the expiry is published, with the job's debt and id number, iff the timer runs and the record is unscanned |
| DriverWaitOutcomes.WaitingIff | notificationService/src/services/enforcement-notification.service.js:75-173 | at any moment of any run the timer runs on an unscanned record iff a driver has arrived and neither a scan nor an expiry has come since |
| DriverWaitOutcomes.WarningSentIff | notificationService/src/services/enforcement-notification.service.js:188-193 | in every run an arrival's warning job sends exactly one message, to that arrival's phone, iff there is a phone and the driver still waits |
| DriverWaitOutcomes.ExpiryPublishedIff | notificationService/src/services/enforcement-notification.service.js:214-238 | in every run an arrival's expire job publishes the expiry, with that arrival's debt and id number, iff the driver still waits |
| DriverWaitOutcomes.FraudSentIff | notificationService/src/services/enforcement-notification.service.js:146-168 | in every run an expiry sends one fraud message iff it names a phone and the driver still waits |
| DriverWaitOutcomes.JobPendingIff | notificationService/src/services/enforcement-notification.service.js:265-275 | in every run a queue holds a job iff a driver has arrived and neither its processing, a scan nor an expiry that is not ignored has taken it off since |
| DriverWaitOutcomes.UndisturbedArrivalIsWarned | notificationService/src/services/enforcement-notification.service.js:188-193 | an arrival with a phone that finds the queue empty, and that no scan or expiry follows before its job is taken, raises the warnings by exactly one |
| DriverWaitService.Enforcement.OnDriverArrived | notificationService/src/services/enforcement-notification.service.js:75-138 | restarts timer and record, adds jobs unless pending; other orders untouched |
| DriverWaitService.Enforcement.OnQrScanned | notificationService/src/services/enforcement-notification.service.js:140-144 | removes jobs, cancels the timer, marks scanned |
| DriverWaitService.Enforcement.OnQrExpired | notificationService/src/services/enforcement-notification.service.js:146-173 | timer guard, scan guard, message, marks, job removal |
| DriverWaitService.Enforcement.ProcessWarningJob | notificationService/src/services/enforcement-notification.service.js:182-212 | the warning job with its guards |
| DriverWaitService.Enforcement.ProcessExpireJob | notificationService/src/services/enforcement-notification.service.js:214-248 | the expire job with its guards |
| DriverWaitService.Enforcement.CanSendSmsForOrder | notificationService/src/services/enforcement-notification.service.js:252-263 | true iff there is an unscanned record |
| DriverWaitService.Enforcement.CancelTimerJobsOf | notificationService/src/services/enforcement-notification.service.js:265-275 | removes both pending jobs of the order and no others |
| DriverWaitRaces.ArriveIsAtomic | notificationService/src/services/enforcement-notification.service.js:75-138 | the steps of an arrival, uninterrupted, are the atomic handler |
| DriverWaitRaces.ScanIsAtomic | notificationService/src/services/enforcement-notification.service.js:140-144 | the same for a scan |
| DriverWaitRaces.ExpiryIsAtomic | notificationService/src/services/enforcement-notification.service.js:146-173 | the same for an expiry message |
| DriverWaitRaces.WarningIsAtomic | notificationService/src/services/enforcement-notification.service.js:182-212 | the same for a warning job |
| DriverWaitRaces.ExpireIsAtomic | notificationService/src/services/enforcement-notification.service.js:214-248 | the same for an expire job |
| DriverWaitRaces.StartedIsAtomic | notificationService/src/services/enforcement-notification.service.js:59-73 | whatever starts a handler, a message or a job taken off its queue, running it uninterrupted is the atomic handler |
| DriverWaitRaces.OnlyArrivalResetsScan | notificationService/src/repositories/order-state.repository.js:6-47 | a scanned record is unscanned exactly by the write of an arrival |
| DriverWaitRaces.ScanHolds | notificationService/src/services/enforcement-notification.service.js:252-263 | once the scan write lands every guard read refuses until the next arrival write |
| DriverWaitRaces.LateMessageWasPastItsGuard | notificationService/src/services/enforcement-notification.service.js:146-191 | a message sent after the scan comes from a handler already past its guard at the scan |
| DriverWaitRaces.LateMessagesAreFew | notificationService/src/services/enforcement-notification.service.js:146-191 | after the scan at most as many messages as handlers were past their guards |
| DriverWaitRaces.UnscannedHasTimer | notificationService/src/services/enforcement-notification.service.js:78-88 | also under every interleaving |
| DriverWaitRaces.TimerFallsIff | notificationService/src/repositories/enforcement-timer.repository.js:6-38 | the timer moves down exactly by an arrival, a warning mark on EXPIRED or CANCELLED, or an expiry mark on CANCELLED |
| DriverWaitRaces.RunsAgainIff | notificationService/src/repositories/enforcement-timer.repository.js:28-38 | in every interleaving, after an expiry mark and with no restart, the timer is ACTIVE or WARNING_SENT again iff the last mark on it was a warning mark |
| DriverWaitRaces.SecondFraudIff | notificationService/src/services/enforcement-notification.service.js:146-173 | after an expiry mark and with no restart, a handler sends a further fraud message iff its look-up passed before that mark, or comes after a warning mark with no other mark since; and its guard read passes and it has a phone number |
| DriverWaitRaces.OnlyPastFindSend | notificationService/src/services/enforcement-notification.service.js:146-173 | in runs with no restart and no warning mark after an expiry mark, only handlers past their look-up at that mark send |
| DriverWaitRaces.OverlapSendsTwice | notificationService/src/services/enforcement-notification.service.js:146-173 | two overlapping expiry messages send two fraud messages, the atomic handlers one |
| DriverWaitRaces.WarningReachesMark | notificationService/src/services/enforcement-notification.service.js:182-193 | a warning job of a waiting order gets past its guards, up to its mark |
| DriverWaitRaces.LateWarningSendsTwice | notificationService/src/services/enforcement-notification.service.js:146-193 | two expiry messages handled whole one after the other send two fraud messages when the late mark of a warning lands in between |
| DriverWaitRaceOutcomes.RunningIff | notificationService/src/repositories/enforcement-timer.repository.js:6-38 | in every interleaving the timer is ACTIVE or WARNING_SENT iff the last write to switch it was an arrival's or a warning's |
| DriverWaitRaceOutcomes.UnscannedIff | notificationService/src/repositories/order-state.repository.js:6-47 | in every interleaving the record is there and unscanned iff an arrival has written it and no scan since |
| DriverWaitRaceOutcomes.WarningSentIff | notificationService/src/services/enforcement-notification.service.js:182-193 | in every interleaving a warning handler sends iff it has a phone, the timer was last set running when it looked it up, and the record was last written by an arrival when it read it |
| DriverWaitRaceOutcomes.ExpiryPublishedIff | notificationService/src/services/enforcement-notification.service.js:214-238 | an expire job publishes iff the same two reads found it so |
| DriverWaitRaceOutcomes.FraudSentIff | notificationService/src/services/enforcement-notification.service.js:146-168 | an expiry handler sends the fraud message iff it has a phone, there was no timer or it was last set running, and the record was last written by an arrival |
| Slugs.ToSlugIsSlug | restaurantService/src/utils/slug.js:1-7 | slugs consist of lower-case letters, digits and single dashes, whatever the input |
| Slugs.ToSlugIdempotent | restaurantService/src/utils/slug.js:1-7 | the slugs are exactly the fixed points |
| Slugs.ToSlugKeepsLetters | restaurantService/src/utils/slug.js:1-7 | a slug has exactly the letters and digits of the lower-cased text, in order |
| Slugs.WordsAreJoined | restaurantService/src/utils/slug.js:1-7 | words kept apart by any white space are joined by one dash |
| Slugs.CacheKeyInjective | restaurantService/src/services/projection.service.js:124-126 | a cache key made of two slugs is made of no other pair of strings |
| StableSort.SortIsTheStableSort | restaurantService/src/services/projection.service.js:48-50 | the sort is the only arrangement in key order that keeps equal keys in input order |
| StableSort.FilterSort | restaurantService/src/services/projection.service.js:59-61 | stable sorting commutes with filtering |
| MenuJoin.OptionsFromBatch | restaurantService/src/repositories/option-item.repository.js:10-15 | a group's options out of the batched lookup are its own live options in order |
| MenuJoin.GroupsFromBatch | restaurantService/src/services/projection.service.js:35-67 | an item's groups out of the batched lookups are the item's own |
| MenuJoin.BucketsHold | restaurantService/src/services/projection.service.js:43-82 | each bucket holds exactly the views of its rows, in order |
| MenuJoin.BucketBy | restaurantService/src/services/projection.service.js:43-82 | the bucket-by-category loop |
| MenuJoin.BuildCategories | restaurantService/src/services/projection.service.js:32-90 | the lookups, the loop and the final map yield the join done one item at a time |
| MenuJoin.InStockMenuIsInStockJoin | restaurantService/src/services/public.service.js:30-36 | filtering the projection for what is in stock is projecting only what is in stock |
| MenuTables.MutateElsewhere | restaurantService/src/services/menu.service.js:32-154 | no menu mutation shows in another restaurant's menu |
| MenuTables.MutateKeepsTables | restaurantService/src/services/menu.service.js:64-108 | every mutation keeps ids and references sound |
| MenuTables.CreatedItemShowsItsGroups | restaurantService/src/services/menu.service.js:70-104 | a new item is joined with exactly the option groups and options it was created with |
| MenuOutcomes.JoinShowsMenu | restaurantService/src/services/projection.service.js:32-90 | at every level the menu lists exactly the rows that are to be shown, once each, by sort order and then creation, with their own fields |
| MenuOutcomes.ItemShownIff | restaurantService/src/repositories/menu-item.repository.js:17-28 | an item is on the menu iff it is the restaurant's, published, not deleted, and in a category of the restaurant that is active and not deleted |
| MenuOutcomes.CategoryShownIff | restaurantService/src/repositories/menu-category.repository.js:10-15 | a category is on the menu iff it is the restaurant's, active and not deleted |
| MenuOutcomes.InStockShownIff | restaurantService/src/services/public.service.js:30-36 | without what is out of stock, an item is shown iff it is on the menu and in stock |
| MenuOutcomes.CreateCategoryAdds | restaurantService/src/services/menu.service.js:32-36 | the new category carries the request and no other row changes |
| MenuOutcomes.UpdateCategoryIff | restaurantService/src/services/menu.service.js:42-51 | patched iff the restaurant's and live; given fields set, others kept, no other row changes |
| MenuOutcomes.DeleteCategoryIff | restaurantService/src/services/menu.service.js:53-62 | deleted iff the restaurant's and live; it and its items leave the menu, everything else stays |
| MenuOutcomes.CreateItemIff | restaurantService/src/services/menu.service.js:64-108 | stored iff the category is the restaurant's and live; the row carries the request and the new group ids; on the menu iff published in an active category |
| MenuOutcomes.CreateItemStoresGroups | restaurantService/src/services/menu.service.js:70-97 | each option group of a new item is stored as requested |
| MenuOutcomes.UpdateItemIff | restaurantService/src/services/menu.service.js:114-123 | patched iff the restaurant's and live; given fields set, others kept, no other row changes |
| MenuOutcomes.DeleteItemIff | restaurantService/src/services/menu.service.js:125-134 | deleted iff the restaurant's and live; it leaves the menu, every other item stays, no other row changes |
| MenuOutcomes.SetAvailabilityIff | restaurantService/src/services/menu.service.js:136-144 | set iff the item is live and access is allowed; only that field changes |
| MenuOutcomes.SetPublishIff | restaurantService/src/services/menu.service.js:146-154 | set iff the item is live and access is allowed; on the menu iff published in a category that is |
| Menu.IndexAgrees | restaurantService/src/services/menu.service.js:32-154 | in every run each live projection equals the join over the current tables |
| Menu.RebuildRevivesIff | restaurantService/src/repositories/public-menu.repository.js:6-12 | rebuilding an active restaurant yields a live row iff there is no soft-deleted one; otherwise it throws |
| Menu.SoftDeletedForEver | restaurantService/src/models/public-menu-projection.model.js:5-11 | a soft-deleted projection never becomes live again |
| Menu.ReadIsStored | restaurantService/src/services/projection.service.js:110-122 | a cached read is what a query of the collection finds, for any requested strings |
| Menu.StepKeeps | restaurantService/src/services/projection.service.js:22-138 | every operation that keeps slugs keeps each fresh cache entry equal to the live row of its restaurant, under its own key |
| Menu.StepKeepsOwned | restaurantService/src/services/projection.service.js:22-138 | every operation, renames included, keeps each row and each cache entry one restaurant's, under its own key |
| MenuRuns.ReadsAgree | restaurantService/src/services/projection.service.js:110-138 | in runs without slug changes cached and direct reads agree |
| MenuRuns.RedisMakesNoDifference | restaurantService/src/services/projection.service.js:110-138 | the same run with and without Redis keeps the same data and shows the same menus |
| MenuRuns.ShownMenuIsTheJoin | restaurantService/src/services/public.service.js:18-37 | in runs without slug changes, the reply at an open restaurant's address is the join over the current tables if its projection is live, else none |
| MenuRuns.WrongMenuIff | restaurantService/src/services/projection.service.js:110-122 | in every run, renames included, the menu shown at an open restaurant's address is another's iff that one's cache entry there is fresh, or there is none fresh and the first row found is that of a restaurant renamed away and not rebuilt |
| MenuRuns.WrongMenuWasRenamed | restaurantService/src/services/restaurant.service.js:164-187 | in every run such another restaurant has had the address itself and been renamed since |
| MenuRuns.NewcomerShowsOldMenu | restaurantService/src/services/restaurant.service.js:164-187 | a restaurant that opens at the old address of a renamed one shows that one's menu |
| MenuRuns.OldAddressIsClosed | restaurantService/src/services/restaurant.service.js:465-478 | right after a rename the old address shows no menu, cached or not |
| MenuRuns.SuspendedOnceIsNeverListedAgain | restaurantService/src/services/restaurant.service.js:389-424 | after a suspension no continuation lists the restaurant again |
| MenuHistory.ReplyShowsIff | restaurantService/src/services/public.service.js:18-37 | in runs without slug changes a reply shows an item iff the projection is live, the item and its category are the restaurant's and live, it is published, and in stock unless all are asked for |
| MenuHistory.LiveIff | restaurantService/src/services/projection.service.js:22-108 | in every run a projection is live iff the restaurant was rebuilt while active and never, once projected, while not active |
| MenuHistory.DeletedIff | restaurantService/src/repositories/menu-item.repository.js:41-43 | in every run an item or category is deleted iff its restaurant has had it deleted |
| MenuHistory.PublishedAndStockedIff | restaurantService/src/repositories/menu-item.repository.js:34-39 | in every run an item is published, and in stock, iff the last call to say which has said so |
| MenuHistory.DeletedIsNeverShown | restaurantService/src/services/menu.service.js:125-134 | in runs without slug changes no reply at any address ever shows a deleted item |
| MenuHistory.DeletedCategoryIsNeverShown | restaurantService/src/services/menu.service.js:53-62 | nor any item in a deleted category |
| MenuHistory.DeletedShownIff | restaurantService/src/services/projection.service.js:110-122 | in every run, renames included, a deleted item is shown iff a cache entry still fresh at the address holds it |
| MenuHistory.RenamedBackShowsDeleted | restaurantService/src/services/restaurant.service.js:164-187 | renaming away, deleting an item and renaming back shows it |
| MenuHistory.RebuildCaches | restaurantService/src/services/projection.service.js:92-138 | what a rebuild stores and caches, for how long, and when it throws |
| MenuHistory.ReadCaches | restaurantService/src/services/projection.service.js:110-138 | a read answers from a fresh entry without prolonging it, else caches what it finds for ttl |
| MenuHistory.RestaurantsIff | restaurantService/src/services/restaurant.service.js:164-187 | an address is given iff no restaurant has it; each call changes only what it names |
| MenuHistory.AnsweredOnlyIfOpen | restaurantService/src/services/public.service.js:18-24 | a menu is answered only at the address of an active, listed restaurant |
| MenuService.Service.RebuildForRestaurant | restaurantService/src/services/projection.service.js:22-108 | soft delete and invalidate, or project, upsert and cache, or throw |
| MenuService.Service.ReadPublicMenu | restaurantService/src/services/projection.service.js:110-122 | read-through with fill on miss |
| MenuService.Service.GetRestaurantMenu | restaurantService/src/services/public.service.js:18-37 | no menu unless the restaurant is open; then the projection, with or without what is out of stock |
| MenuService.Service.CreateCategory | restaurantService/src/services/menu.service.js:32-36 | appends the category, then rebuilds |
| MenuService.Service.UpdateCategory | restaurantService/src/services/menu.service.js:42-51 | patches an own live category, then rebuilds |
| MenuService.Service.DeleteCategory | restaurantService/src/services/menu.service.js:53-62 | soft-deletes an own live category, then rebuilds |
| MenuService.Service.StoreGroups | restaurantService/src/services/menu.service.js:70-97 | the loop that stores option groups and options and collects the new ids |
| MenuService.Service.CreateItem | restaurantService/src/services/menu.service.js:64-108 | category check, option groups, item, rebuild |
| MenuService.Service.UpdateItem | restaurantService/src/services/menu.service.js:114-123 | patches an own live item, then rebuilds |
| MenuService.Service.DeleteItem | restaurantService/src/services/menu.service.js:125-134 | soft-deletes an own live item, then rebuilds |
| MenuService.Service.SetAvailability | restaurantService/src/services/menu.service.js:136-144 | access check, then one field, then rebuilds the item's restaurant |
| MenuService.Service.SetPublish | restaurantService/src/services/menu.service.js:146-154 | the same for publication |
| CircuitBreaker.TrailingFailuresIsTheRun | apiGateway/src/grpc/circuit-breaker.js:58-65 | the counter is the length of the failing tail of the completion log, both directions |
| CircuitBreaker.Breaker.MarkFailure | apiGateway/src/grpc/circuit-breaker.js:58-65 | for any overlap of calls: counter and state follow the history, open from the threshold on |
| CircuitBreaker.Breaker.MarkSuccess | apiGateway/src/grpc/circuit-breaker.js:52-56 | closes and resets |
| CircuitBreaker.Breaker.CanAttempt | apiGateway/src/grpc/circuit-breaker.js:67-78 | admits iff the history does; turns half-open after the reset time |
| CircuitBreaker.Breaker.Execute | apiGateway/src/grpc/circuit-breaker.js:80-97 | rejected iff not admitted, else records the outcome |
| CircuitBreaker.OpenBound | apiGateway/src/grpc/circuit-breaker.js:67-97 | once open, at most floor(T/reset) calls reach an always-failing upstream in T |
| CircuitBreaker.DeadUpstreamBound | apiGateway/src/grpc/circuit-breaker.js:52-97 | from any history at most the remaining slack plus floor(T/reset) |
| CircuitBreaker.FreshBreakerBound | apiGateway/src/grpc/circuit-breaker.js:52-97 | for a new breaker at most threshold + floor(T/reset) |
| CircuitBreaker.DensestReachesAll | apiGateway/src/grpc/circuit-breaker.js:58-78 | that bound is reached |
| CircuitBreaker.HalfOpenAdmitsEveryOverlappingCall | apiGateway/src/grpc/circuit-breaker.js:67-78 | half-open admits any number of overlapping attempts |
| CircuitBreaker.OverlapBound | apiGateway/src/grpc/circuit-breaker.js:52-97 | from any history, with at most c calls in flight, at most the allowance of its state reaches an always-failing upstream |
| CircuitBreaker.FreshOverlapBound | apiGateway/src/grpc/circuit-breaker.js:52-97 | however calls overlap, with at most c in flight a new breaker lets at most threshold + c - 1 + c*floor(T/reset) through in T |
| Watchlist.CauchySchwarz | faceRecognitionService/src/services/vector.repository.js:5-19 | dot(a,b)^2 <= dot(a,a) dot(b,b) for vectors of any length |
| Watchlist.CosineInRange | faceRecognitionService/src/services/vector.repository.js:5-19 | every score lies in [-1, 1] |
| Watchlist.CosineSymmetric | faceRecognitionService/src/services/vector.repository.js:5-19 | the score is symmetric |
| Watchlist.CosineScaleInvariant | faceRecognitionService/src/services/vector.repository.js:5-19 | the score does not change under positive scaling |
| Watchlist.CosineOfMultiple | faceRecognitionService/src/services/face.service.js:5-11 | a positive multiple of a vector scores 1 with it |
| Watchlist.DotIsBilinear | faceRecognitionService/src/services/vector.repository.js:5-19 | the dot product is additive and homogeneous and picks out single components |
| Watchlist.ScoreIsCosine | faceRecognitionService/src/services/vector.repository.js:5-19 | the score times both lengths is the dot product; 0 for zero vectors and different dimensions |
| Watchlist.TopKIsBest | faceRecognitionService/src/services/vector.repository.js:104-122 | the fallback returns min(topK, n) candidates in descending order and no omitted one beats a returned one |
| Watchlist.TopCandidate | faceRecognitionService/src/services/vector.repository.js:104-122 | the first candidate carries the greatest score of the selection |
| Watchlist.CandidatesIff | faceRecognitionService/src/services/vector.repository.js:93-122 | with room for all, the candidates are exactly the scored vectors of the tenant that are active and on a searched list |
| Watchlist.SomeScoreIff | faceRecognitionService/src/services/vector.repository.js:93-122 | the selection reaches a score iff such a vector does |
| Watchlist.DecisionIsOverTheWholeSelection | faceRecognitionService/src/services/face.service.js:27-31 | the decision on the first candidate is the decision over all selected vectors |
| Watchlist.ActivationBlockedIff | faceRecognitionService/src/services/face.service.js:80-116 | activation is blocked iff some selected vector scores at least the threshold |
| Watchlist.MarkedDebtorIsBlocked | faceRecognitionService/src/services/vector.repository.js:130-154 | a person marked as debtor is matched by any positive multiple of the stored vector |
| Watchlist.VectorRepository.MarkPersonAsDebtor | faceRecognitionService/src/services/vector.repository.js:130-154 | the new identity and exactly the person's vectors relabelled |

## Left out

- Time inside a handler: an atomic handler reads the clock once; `new Date()` calls a few milliseconds apart are one moment.
- RefreshTokens.NoTokenAcceptedTwice: takes each refresh as one step; for overlapping requests see RefreshRaces, where it fails, with the exact condition.
- OtpCode.OneCodeGuessBound: takes each verification as one step; for overlapping guesses see OtpRaces.
- OtpRaces.FreshOverlapBound: bounds the guesses while no count is lost; how many can be compared when late saves do lose counts is not bounded here, and right guesses are not moves of that model.
- Menu.IndexAgrees: takes each mutation with its rebuild as one step; two overlapping rebuilds of one restaurant can write the older projection last.
- RefreshRaces: the user lookup of AuthService.refresh between the two session reads is not a step of its own, since it decides nothing about tokens.
- HMAC, JWT signatures, AES and argon2: digests and signatures are injective constructors, secrets and ids are fresh.
- Access tokens: only the verification claims are modelled.
- AuthService.login: the failed-password counter and lock are not modelled; a login is the issuing of a session.
- OAuthService: state, PKCE, linking and unlinking of providers are not modelled, only the user record a first login creates.
- E-mail and phone normalisation: addresses are taken as already normalised; `EMAIL_VERIFICATION_ENABLED` is taken as on.
- Session reaping: any time after expiry, since the TTL index gives no exact moment.
- Users and orders are numbered by creation; MongoDB's natural order of a query without a sort is taken as creation order.
- Floating point: scores and sort orders are reals, square root is any non-negative r with r*r = x, money is an integer number of minor units.
- Batch sizes of the clean-up job: the environment schema makes them positive; the sweep's limit of zero means no limit, as in MongoDB.
- Payment and order statuses this service never writes (PENDING, FAILED, REFUNDED and so on) are not values of the model.
- OrderRaces: a multi-document `updateMany` is one step, and duplicate deliveries are not filtered, so every run of the code is a run of the model but not conversely.
- BullMQ: a queue is at most one pending job per job id; the lock of a job being processed and retries are not modelled.
- DriverWaitRaces: push notifications, the realtime gateway and request context have no state and are skipped.
- MenuTables.Mutate: an item patch replaces its copied text and price fields together; validators and the manager check of the routes are not modelled.
- Restaurant lifecycle: publishing, subscription and verification rules are free status changes, also between a rename and the statuses it requires; restaurants are never deleted, as no service does so.
- PublicService.estimateDeliveryTime, listings, pagination and the native vector index: single-branch code beside the modelled parts.
- JSON serialisation of cached rows and base64 images: the identity.
- RabbitMQ, HTTP, gRPC, sockets, SMS, e-mail and push transports: published messages are a log, deliveries are calls.
- Payment ledger, inventory, image processing and anti-spoofing: separate services.
