# A verified model of the safety core of the capstone journal/SOS application

The application is a journal app with a hidden safety layer. This project models
that layer and its screens in Dafny and proves properties of the model. The layer
has two halves.

The server side (Express and Mongoose):

- The check-in engine. A user starts a timed check-in, cancels it, or has it
  trigger an automatic SOS once it expires.
- The direct SOS route.
- The emergency contacts routes.
- The two JWT authentication middlewares.
- The register, login, profile and logout handlers.

The client side (React):

- The PIN gate in front of the hidden screens.
- The check-in timer and the action screen with its SOS and check-in buttons.
- The stand-alone SOS button.
- The journal.
- The AffirmHub: its home screen, the saved reflections and its view switch.
- The application shell: swipe navigation, theme, settings and onboarding.

**How the model is built.**

- Every collection is a sequence in store order.
- Generated ids come from a counter in the store.
- Clocks are integer milliseconds passed in as `now`.
- Anything the code calls but does not define is a parameter:
  - JWT signing and verification;
  - password comparison;
  - `Model.create`/`save` outcomes;
  - geolocation;
  - HTTP replies;
  - random suffixes;
  - the date formatter.
- An asynchronous handler is split at its `await` into the part that runs on the
  user's action and the part that runs when the request settles. The request's
  outcome is a parameter of the second part.
- Browser storage is a string map, or the stored list itself.
- Strings are ASCII: `trim`, `toLowerCase`, `split`, `replace`, `padStart` and
  `toString` are modelled on ASCII characters only.

**The modules**, one per source file or component:

- `CheckinModel`, `SOSEventModel`: the two schemas, validation and defaults.
- `EngineStore`, `CheckinRoutes`, `SosRoute`, `CheckinProperties`: the engine,
  its routes, and its lifecycle and invariant lemmas.
- `Users`, `AuthMiddleware`, `AuthController`, `ContactsRoute`, `AuthProperties`:
  the users, the middlewares, the handlers and the contacts routes.
- `TimeFormat`, `ClientIdentity`, `CheckinTimer`, `ActionScreen`, `SosButton`,
  `PinGate`, `Journal`, `SavedReflections`, `AffirmHubHome`, `AffirmHub`,
  `AppShell`: one per client component.
- `ClientServer`: the screens run against the routes through the API client's
  rule that only a 2xx answer succeeds.
- `Common`, `Text`: shared types and string operations.

**Where the code was followed over its documentation.**

- The documentation comments of the SOS route and of the check-in start and
  cancel routes declare bearer authentication (backend/routes/sos.js:18-19,
  backend/routes/checkin.js:19-20 and 91-92). None of these routes has an
  authentication middleware.
- The SOS route's test file expects a `success: true` field in the 201 answer
  (backend/tests/sos.test.js:84). The route's documentation comment lists only
  `message` and `sosEvent`, and the code sends no `success` field.
- `contacts.js` removes the first "Bearer " anywhere in the header, not only a
  prefix.
- A Mongoose `required` String path rejects the empty string as well as a
  missing value.

## Model

| member | source | states |
|---|---|---|
| CheckinModel.FailingPaths | backend/models/Checkin.js:4-5 | `userId` fails exactly when missing or empty, `expiresAt` exactly when it is not a valid date, and no other path can fail |
| CheckinModel.Build | backend/models/Checkin.js:3-8 | a record validates iff it has a non-empty userId and a valid expiry; `active` defaults to true and `createdAt` to now; a rejection lists exactly the failing paths |
| CheckinModel.BuildConforms | backend/models/Checkin.js:4 | every record that validates has a non-empty userId, and a missing or empty userId is always rejected |
| SOSEventModel.ParseStatus | backend/models/SOSEvent.js:24-29 | a parsed status name prints back as the same name |
| SOSEventModel.StatusNameRoundTrip | backend/models/SOSEvent.js:24-29 | status names and statuses correspond one to one |
| SOSEventModel.FailingPaths | backend/models/SOSEvent.js:9-29 | `user` fails iff missing, empty or not castable to an ObjectId (24 hexadecimal digits), `location.lat` and `location.lng` iff not numbers, `status` iff outside the enumeration (a missing status takes the default) |
| SOSEventModel.BuildWith | backend/models/SOSEvent.js:4-31 | an event validates iff no path fails, so only with a user that casts to an ObjectId; the stored event carries that user, the coordinates, the status or its default "triggered", and now as timestamp, createdAt and updatedAt |
| SOSEventModel.BuildValidIff | backend/models/SOSEvent.js:9-29 | the schema accepts an event exactly when its user is a 24-hex-digit ObjectId string, both coordinates are numbers, and the status is absent or one of triggered, acknowledged, resolved |
| SOSEventModel.ClientIdRejected | backend/models/SOSEvent.js:9-13 | an id of the form "user_…", as the client generates, is not an ObjectId, and an event with it is rejected on `user` |
| SOSEventModel.MissingUserRejected | backend/models/SOSEvent.js:9-13 | an event without a user is rejected whatever else it carries |
| SOSEventModel.AutoTriggeredRejected | backend/models/SOSEvent.js:26 | the status "auto-triggered" is outside the declared enumeration and is rejected |
| SOSEventModel.DefaultsApplied | backend/models/SOSEvent.js:27 | a stored event whose status was left out has status "triggered" and timestamp now |
| SOSEventModel.ToJson | backend/models/SOSEvent.js:32-37 | the JSON form drops exactly `__v` and keeps every other field unchanged |
| SOSEventModel.JsonOfEvent | backend/models/SOSEvent.js:32-37 | the JSON form of an event has exactly its seven schema fields, and the transform is idempotent |
| EngineStore.EmptyWellFormed | backend/routes/checkin.js:73-83 | the empty store satisfies the store invariant (distinct ids below the counter, conforming check-ins, events whose user is an ObjectId) |
| EngineStore.SaveEventWellFormed | backend/routes/sos.js:68-69 | saving an event built with the id counter keeps the store invariant |
| CheckinRoutes.FindActive | backend/routes/checkin.js:148 | the query `{ userId, active: true }` yields the first matching record in store order, and nothing exactly when no record matches |
| CheckinRoutes.ExpiryOf | backend/routes/checkin.js:76 | `new Date(Date.now() + d·60000)` is a valid date exactly when a duration is given and the instant is within ±8.64e15 ms, and then it is that instant |
| CheckinRoutes.FindActiveFrom | backend/routes/checkin.js:132-136 | the search from position k finds the first matching record at or after k, or proves there is none |
| CheckinRoutes.Deactivate | backend/routes/checkin.js:152-153 | deactivation changes exactly the `active` flag of the selected record and leaves every other record alone |
| CheckinRoutes.Start | backend/routes/checkin.js:73-83 | 201 iff the userId is non-empty, the duration is numeric and now + duration·60000 is within the Date range of ±8.64e15 ms; the created record expires at that instant and is appended; otherwise 400 "Could not start check-in" with no change |
| CheckinRoutes.Cancel | backend/routes/checkin.js:129-142 | 404 "No active check-in found" iff the user has no active record; otherwise the first active record is deactivated and returned in its new state with 200 |
| CheckinRoutes.Trigger | backend/routes/checkin.js:145-161 | always 400 and never an event: "No expired check-in to trigger SOS" unless the selected record has expired; otherwise the record is deactivated first and the user-less, out-of-enumeration event is rejected |
| CheckinRoutes.TriggerCorrected | backend/routes/checkin.js:145-161 | with the record's user attached and "auto-triggered" accepted, an expired check-in answers 201 and stores exactly one event for its user iff that user id casts to an ObjectId and the position has numeric coordinates; otherwise 400 "Could not trigger auto-SOS" with no event |
| CheckinProperties.FirstActiveUnique | backend/routes/checkin.js:148 | the selected record is unique |
| CheckinProperties.FindActiveAppended | backend/routes/checkin.js:77-78 | a record appended for a user with no active record is the one selected |
| CheckinProperties.NoActiveAfterDeactivatingAppended | backend/routes/checkin.js:152-153 | deactivating that appended record leaves the user with no active record |
| CheckinProperties.ActiveCountAppend | backend/routes/checkin.js:77-78 | appending a record raises a user's active count by one exactly when it is that user's and active |
| CheckinProperties.ActiveCountZeroIffNone | backend/routes/checkin.js:137 | a user's active count is zero exactly when no record matches the query |
| CheckinProperties.ActiveCountDeactivate | backend/routes/checkin.js:132-136 | deactivating one of u's active records lowers u's count by one and no other user's |
| CheckinProperties.StartWellFormed | backend/routes/checkin.js:73-83 | a start keeps the store invariant |
| CheckinProperties.DeactivateWellFormed | backend/routes/checkin.js:152-153 | deactivation keeps the store invariant |
| CheckinProperties.CancelWellFormed | backend/routes/checkin.js:129-142 | a cancel keeps the store invariant |
| CheckinProperties.TriggerWellFormed | backend/routes/checkin.js:145-161 | the trigger, as written and corrected, keeps the store invariant |
| CheckinProperties.SosPostWellFormed | backend/routes/sos.js:65-75 | the SOS route, as written and authenticated, keeps the store invariant |
| CheckinProperties.CancelRemovesOneActive | backend/routes/checkin.js:132-138 | a successful cancel removes exactly one active record of the caller and none of anyone else's |
| CheckinProperties.DoubleStartTwoActive | backend/routes/checkin.js:73-83 | start never consults existing records: two starts leave two active records |
| CheckinProperties.OutOfRangeExpiryRefused | backend/routes/checkin.js:76-81 | a duration whose expiry falls outside the Date range is refused with 400 and changes nothing, e.g. 200000000000 minutes |
| CheckinProperties.StartThenCancelTwice | backend/routes/checkin.js:129-142 | start then cancel returns the started record deactivated; a second cancel answers 404 |
| CheckinProperties.TriggerBeforeExpiryRefused | backend/routes/checkin.js:149-151 | a trigger before the expiry instant is refused and changes nothing |
| CheckinProperties.TriggerAtExpiryDeactivates | backend/routes/checkin.js:149-160 | at the expiry instant the record counts as expired, is deactivated, no event is stored, and a later trigger finds nothing |
| CheckinProperties.CancelBeforeTriggerWins | backend/routes/checkin.js:137-150 | a cancel landing after expiry but before the trigger makes the trigger answer "No expired check-in" |
| CheckinProperties.CorrectedTriggerStoresOneEvent | backend/routes/checkin.js:152-157 | for a user whose id is an ObjectId, the corrected trigger at expiry stores one auto-triggered event for that user, and a second trigger finds nothing |
| SosRoute.RequestFields | backend/routes/sos.js:67-68 | the event is built from the request's location alone, with no user and no status |
| SosRoute.Post | backend/routes/sos.js:65-75 | the route as written answers 400 "Could not trigger SOS" and changes nothing, whatever the location |
| SosRoute.PostRejectsValidLocation | backend/routes/sos.js:68-69 | with valid coordinates the only failing path is `user` |
| SosRoute.PostAuthenticated | backend/routes/sos.js:65-75 | with the caller attached, 201 iff the caller id casts to an ObjectId and both coordinates are numbers; the stored event is "triggered" with those coordinates |
| Users.FindById | backend/middleware/auth.js:38 | `findById` yields a stored user with that id, and nothing exactly when no user has it |
| Users.FindByEmail | backend/controllers/authController.js:12 | `findOne({ email })` yields a stored user with that email, and nothing exactly when no user has it |
| AuthMiddleware.SelectToken | backend/middleware/auth.js:9-15 | a header starting with "Bearer" yields exactly the second field of its split on spaces when there is one, and nothing otherwise, never the cookie; any other header yields the cookie token when it is truthy |
| AuthMiddleware.SelectTokenIsSecondField | backend/middleware/auth.js:11 | for "Bearer…" followed by a space, a space-free t and nothing or a further space, the token is t |
| AuthMiddleware.WellFormedBearer | backend/middleware/auth.js:9-11 | "Bearer t" with a space-free t yields t whatever the cookie holds |
| AuthMiddleware.BearerWithoutSpaceIgnoresCookie | backend/middleware/auth.js:9-15 | a header starting with "Bearer" without a space yields no token even when a cookie is present |
| AuthMiddleware.LowerCaseBearerUsesCookie | backend/middleware/auth.js:9 | the scheme test is case-sensitive: "bearer t" falls back to the cookie |
| AuthMiddleware.FailureMessage | backend/middleware/auth.js:52-57 | JsonWebTokenError gives "Invalid token", TokenExpiredError gives "Token expired", and any other error the generic message |
| AuthMiddleware.Protect | backend/middleware/auth.js:5-65 | every refusal is 401; no token gives "Not authorized to access this route"; the request passes iff the token verifies, carries an `id` claim and that user exists, and then that user is attached |
| AuthMiddleware.ThrownVerificationMessage | backend/middleware/auth.js:48-63 | a verification error alone decides the 401 message |
| AuthMiddleware.Authorize | backend/middleware/auth.js:68-78 | the user passes iff its role is listed; otherwise 403 naming the role |
| AuthMiddleware.AuthorizeMonotone | backend/middleware/auth.js:70 | listing more roles never turns away a user who was let through |
| AuthController.View | backend/controllers/authController.js:37-42 | the answered user has the stored user's id, email, name and phone, and no password |
| AuthController.Public | backend/controllers/authController.js:167 | the profile carries id, email, name, phone and role, and no password |
| AuthController.CreateFailure | backend/controllers/authController.js:55-67 | duplicate key 11000 gives 400 "Email already in use"; a ValidationError gives 400 with its messages joined by ". "; anything else gives 500 "Server error during registration" |
| AuthController.Register | backend/controllers/authController.js:7-78 | an existing email gives 400 with no change; otherwise 201 iff the create succeeds, and then the user is appended, the token is issued for its id and set as the cookie |
| AuthController.Login | backend/controllers/authController.js:83-151 | a missing email or password gives 400; an unknown email or a wrong password gives 401 "Invalid credentials"; otherwise 200 with a token for the user's id and the same cookie |
| AuthController.LoginFailuresIndistinguishable | backend/controllers/authController.js:100-118 | an unknown email and a wrong password get identical answers |
| AuthController.GetMe | backend/controllers/authController.js:156-192 | no caller id gives 401 "User not authenticated"; an unknown id gives 404 "User not found"; otherwise 200 with that user's profile |
| AuthController.Logout | backend/controllers/authController.js:197-207 | 200 with empty data, and the cookie overwritten with "none" expiring ten seconds after now |
| AuthProperties.IssuedTokenPassesProtect | backend/middleware/auth.js:9-47 | a token issued for a stored user passes `protect`, in the header and in the cookie, and attaches that user |
| AuthProperties.LoginThenGetMe | backend/controllers/authController.js:156-181 | after a successful login, GET /me with the answered cookie returns the logged-in user's profile |
| AuthProperties.RegisterThenLogin | backend/controllers/authController.js:83-140 | a registered user can log in, and login answers the same user view as registration |
| AuthProperties.SecondRegistrationRefused | backend/controllers/authController.js:12-18 | once an email is registered, a second registration with it is refused and adds nobody |
| AuthProperties.ContactsLookupIgnoresIssuedId | backend/routes/contacts.js:45 | as written, an issued token's user is looked up by the absent `userId` claim, so authentication is the lookup of an undefined id, the same for every user |
| AuthProperties.ContactsCorrectedAcceptsIssuedToken | backend/routes/contacts.js:43-51 | looking the user up by `id`, an issued token authenticates its own user |
| ContactsRoute.StripBearer | backend/routes/contacts.js:37 | the token is missing exactly when the header is missing |
| ContactsRoute.StripBearerCases | backend/routes/contacts.js:37 | "Bearer t" yields t, and a header without "Bearer " is used as it is |
| ContactsRoute.StripBearerNotAnchored | backend/routes/contacts.js:37 | the removal is not anchored: "xBearer y" becomes "xy" |
| ContactsRoute.Authenticate | backend/routes/contacts.js:35-56 | an empty token gives "Authentication required"; a verification error gives "Please authenticate"; success iff verified and the lookup by `userId` finds a user; every refusal names one of the three messages |
| ContactsRoute.AuthenticateCorrected | backend/routes/contacts.js:35-56 | the same middleware with the lookup by the `id` claim |
| ContactsRoute.OwnedBy | backend/routes/contacts.js:60 | a contact is kept exactly when it is the owner's |
| ContactsRoute.OwnedByAppend | backend/routes/contacts.js:60 | the owner's contacts of a concatenation are those of each part in turn, so the list keeps store order |
| ContactsRoute.List | backend/routes/contacts.js:58-66 | a refused caller gets 401; an authenticated caller gets 200 with exactly their own contacts; the store is unchanged |
| ContactsRoute.Create | backend/routes/contacts.js:108-144 | 401 when refused; a missing or empty name or phone gives 400 "Name and phone are required"; 201 iff the save succeeds, with relationship defaulting to "Other" and the emergency flag true only when given as true; otherwise 400 with the validation message or "Invalid contact data" |
| ContactsRoute.Find | backend/routes/contacts.js:241-244 | the filter `{ _id, user }` selects the first contact with that id and, when given, that owner, and nothing exactly when none matches |
| ContactsRoute.FindFrom | backend/routes/contacts.js:194-198 | the search from position k finds the first match at or after k, or proves there is none |
| ContactsRoute.ApplyUpdate | backend/routes/contacts.js:196 | each given field replaces the stored one, a missing field leaves it, and the id, owner and emergency flag are kept |
| ContactsRoute.Update | backend/routes/contacts.js:191-204 | an id that cannot be cast gives 400 "Invalid data"; an unknown id gives 404 "Not found"; otherwise the contact with that id is updated in place, whoever owns it, and returned with 200 |
| ContactsRoute.RemoveAt | backend/routes/contacts.js:241 | removal drops exactly the selected position and keeps the order of the rest |
| ContactsRoute.Delete | backend/routes/contacts.js:239-264 | 401 when refused; an id that cannot be cast gives 500; 200 "Contact deleted successfully" iff the caller owns a contact with that id, which alone is removed; otherwise 404 "Contact not found or not authorized" |
| ContactsRoute.CreateWellFormed | backend/routes/contacts.js:116-124 | a create keeps contact ids distinct and below the counter |
| ContactsRoute.UpdateWellFormed | backend/routes/contacts.js:194-198 | an update keeps contact ids distinct and below the counter |
| ContactsRoute.DeleteWellFormed | backend/routes/contacts.js:241-244 | a delete keeps contact ids distinct and below the counter |
| ContactsRoute.DeleteRemovesOnlyMatch | backend/routes/contacts.js:241-244 | in a well-formed store a deletion keeps exactly the contacts that are not the caller's contact with that id |
| ContactsRoute.DeleteKeepsOthersContacts | backend/routes/contacts.js:246-251 | a caller who owns no contact gets 404 and the store is unchanged, even for another user's contact id |
| ContactsRoute.CreatedContactListed | backend/routes/contacts.js:116-124 | a created contact is listed for its owner afterwards |
| ContactsRoute.CreateDefaults | backend/routes/contacts.js:119-120 | left-out optional fields become relationship "Other" and emergency flag false |
| Text.Lower | frontend/src/components/AffirmHub/SavedReflections.jsx:10 | `toLowerCase` keeps the length and lower-cases each character |
| Text.LowerIdempotent | frontend/src/components/PinGate.jsx:65 | lower-casing a lower-cased string changes nothing |
| Text.Trim | frontend/src/components/AffirmHub/AffirmHubHome.jsx:43 | `trim` removes exactly the leading and the trailing whitespace: the result is the infix left between a blank prefix and a blank suffix, and neither starts nor ends with whitespace |
| Text.TrimEmptyIffBlank | frontend/src/components/AffirmHub/AffirmHubHome.jsx:118 | `!s.trim()` holds exactly for whitespace-only strings |
| Text.IndexOf | backend/routes/contacts.js:37 | the first position where the pattern occurs, and none exactly when it does not occur |
| Text.ReplaceFirstAbsent | backend/routes/contacts.js:37 | `replace` leaves a string without the pattern unchanged |
| Text.ReplaceFirstLeading | backend/routes/contacts.js:37 | a leading occurrence is the one replaced |
| Text.Split | backend/middleware/auth.js:11 | `split` yields at least one piece and no piece contains the separator |
| Text.SplitJoin | backend/controllers/authController.js:66 | joining the pieces of a split with the separator gives back the string |
| Text.PadStart | frontend/src/components/CheckinTimer.jsx:82 | `padStart` keeps a long enough string, otherwise pads on the left to the width with the pad character |
| Text.IntToString | frontend/src/components/CheckinTimer.jsx:82 | `toString` of an integer: digits that read back as its absolute value, preceded by a minus sign exactly when it is negative |
| Text.ParseNatToString | frontend/src/components/CheckinTimer.jsx:82 | the printed digits of a natural number read back as the number |
| TimeFormat.Seconds | frontend/src/components/CheckinTimer.jsx:81 | `secs % 60` with JavaScript's remainder, which takes the sign of the dividend |
| TimeFormat.Minutes | frontend/src/components/CheckinTimer.jsx:80 | `Math.floor(secs / 60)` is the floor of the quotient |
| TimeFormat.ParseTime | frontend/src/components/CheckinTimer.jsx:79-83 | reads an m:ss text back as a non-negative second count, the inverse used by the round trip |
| TimeFormat.FormatTimeFields | frontend/src/components/CheckinTimer.jsx:79-83 | for a non-negative count the text is the minutes, a colon and exactly two digits of seconds below 60, which recombine into the count |
| TimeFormat.ParseFormatTime | frontend/src/components/ActionScreen.jsx:225-229 | reading the text back gives the count, for every non-negative count |
| TimeFormat.FormatTimeInjective | frontend/src/components/ActionScreen.jsx:225-229 | distinct non-negative counts are shown differently |
| TimeFormat.FiveMinutesShown | frontend/src/components/ActionScreen.jsx:137 | 300 seconds show as "5:00" and 59 as "0:59" |
| TimeFormat.FormatTimeNegative | frontend/src/components/CheckinTimer.jsx:79-83 | a negative count combines the floored minutes with the truncating remainder: -1 shows as "-1:-1" |
| ClientIdentity.GetUserId | frontend/src/components/CheckinTimer.jsx:4-12 | a non-empty stored id is returned as it is; otherwise "user_" plus the random suffix is stored and returned; other keys are kept |
| ClientIdentity.GetUserIdStable | frontend/src/components/ActionScreen.jsx:6-13 | once an id exists every later call returns it and leaves storage alone, whatever suffix it would draw |
| CheckinTimer.Expire | frontend/src/components/CheckinTimer.jsx:41-45 | expiry stops the interval, shows 0 and sets "expired" |
| CheckinTimer.TriggerSos | frontend/src/components/CheckinTimer.jsx:68-69 | the trigger sets "sos" and counts exactly one trigger attempt, which sends a request only once the position is obtained |
| CheckinTimer.Tick | frontend/src/components/CheckinTimer.jsx:39-49 | a cleared interval does nothing; a count at or below 1 (null counts as 0) expires and triggers; otherwise the count drops by one |
| CheckinTimer.StatusLine | frontend/src/components/CheckinTimer.jsx:112-115 | no status line while idle or running; an error shows its message |
| CheckinTimer.ControlsExclusive | frontend/src/components/CheckinTimer.jsx:88-111 | the form and the Cancel button are never on screen together |
| CheckinTimer.CountsDownToSos | frontend/src/components/CheckinTimer.jsx:39-49 | with n seconds left each tick removes one; after n ticks the interval is stopped at 0 with status "sos" and exactly one trigger attempt |
| CheckinTimer.StoppedStaysStopped | frontend/src/components/CheckinTimer.jsx:42 | once the interval is cleared no tick changes anything |
| CheckinTimer.StartedTimerEndsInSos | frontend/src/components/CheckinTimer.jsx:30-53 | from a fresh component, a successful start of m minutes ends in "sos" after m·60 ticks |
| CheckinTimer.CancelStopsCountdown | frontend/src/components/CheckinTimer.jsx:56-66 | after a cancel the countdown stays stopped whatever the request answers |
| CheckinTimer.CancelBeforeStartSettles | frontend/src/components/CheckinTimer.jsx:32-39 | a cancel pressed while the start request is pending is overtaken: the interval is installed afterwards and the countdown still reaches "sos" while the screen says "cancelled" |
| CheckinTimer.StartSettledCorrected | frontend/src/components/CheckinTimer.jsx:33-53 | the completion applies only while the timer is still running |
| CheckinTimer.CorrectedCancelBeforeStartSettles | frontend/src/components/CheckinTimer.jsx:56-59 | with that check a cancel during the start request sticks: no interval and no trigger, while an uncancelled start still ends in "sos" |
| CheckinTimer.OnlyStartFailureShown | frontend/src/components/CheckinTimer.jsx:50-76 | a failed start shows "Failed to start check-in"; a failed trigger or cancel records its error but the screen still says "SOS sent due to missed check-in." or "Check-in cancelled.", and the interval stays cleared with no second trigger attempt; a failed attempt covers both a position that cannot be obtained and a failed request |
| ActionScreen.CheckinRequest | frontend/src/components/ActionScreen.jsx:187 | the check-in asks for 5 minutes, the same span as the 300-second countdown |
| ActionScreen.CheckinSettled | frontend/src/components/ActionScreen.jsx:181-193 | success sets running; failure shows "Failed to start check-in"; loading ends either way |
| ActionScreen.CancelSettled | frontend/src/components/ActionScreen.jsx:195-206 | success stops running and resets the countdown; failure shows "Failed to cancel check-in" |
| ActionScreen.SosSettled | frontend/src/components/ActionScreen.jsx:164-179 | as written the SOS counts as sent exactly when a position was obtained, whatever the request's outcome |
| ActionScreen.SosSettledCorrected | frontend/src/components/ActionScreen.jsx:164-179 | with the request awaited and checked, "sent" requires a position and a delivered request |
| ActionScreen.SosReportedDespiteRefusal | frontend/src/components/ActionScreen.jsx:169-174 | as written a refused request is reported sent with no error; the corrected handler shows "Failed to send SOS" |
| ActionScreen.ButtonAction | frontend/src/components/ActionScreen.jsx:125 | the check-in button cancels exactly while running |
| ActionScreen.InitialInv | frontend/src/components/ActionScreen.jsx:135-139 | the initial screen satisfies the invariant, no automatic SOS is due, and the button reads "Check-In" |
| ActionScreen.StepsKeepInv | frontend/src/components/ActionScreen.jsx:153-223 | every step keeps the countdown within five minutes and full whenever not running |
| ActionScreen.CountsDown | frontend/src/components/ActionScreen.jsx:153-156 | running with c seconds left, k ≤ c ticks leave c − k; at 0 the automatic SOS is due and ticks stop |
| ActionScreen.CheckinRunsFiveMinutes | frontend/src/components/ActionScreen.jsx:143-150 | a successful check-in shows "Cancel (5:00)", and after 300 ticks the automatic SOS is due and the return is scheduled |
| ActionScreen.FailuresKeepRunning | frontend/src/components/ActionScreen.jsx:188-191 | a failed request leaves `running` as it was |
| SosButton.Settled | frontend/src/components/SOSButton.jsx:10-35 | no geolocation gives "Geolocation not supported"; a refused position gives "Location error"; one request is sent iff a position was obtained; success iff that request is answered OK; otherwise "SOS failed" |
| SosButton.Label | frontend/src/components/SOSButton.jsx:45-48 | the label is "Send SOS", "Sending...", "SOS Sent!" or "Try Again", one per status |
| SosButton.ClickSendsAtMostOne | frontend/src/components/SOSButton.jsx:43 | a click sends at most one request, and the button is enabled again exactly when idle or failed |
| SosButton.SuccessIsFinal | frontend/src/components/SOSButton.jsx:43 | after success no later click changes the button or sends a request |
| SosButton.RetryAfterFailure | frontend/src/components/SOSButton.jsx:32-35 | a failed attempt offers "Try Again", and a retry with a position and an OK answer succeeds with one request |
| PinGate.InitialMode | frontend/src/components/PinGate.jsx:6-8 | the gate opens in "enter" exactly when a non-empty PIN is stored, and in "set" otherwise |
| PinGate.Mount | frontend/src/components/PinGate.jsx:4-14 | a fresh gate has that mode, the given storage and no failed attempts |
| PinGate.HandleSet | frontend/src/components/PinGate.jsx:17-35 | a PIN shorter than 4 gives "PIN must be at least 4 digits"; a blank question or answer gives "Security question and answer required"; only then are the PIN, the question and the lower-cased answer stored and the mode switched to "enter" |
| PinGate.HandleEnter | frontend/src/components/PinGate.jsx:38-59 | success iff the typed PIN equals the stored one, which clears the counter; otherwise "Incorrect PIN", one more failure, and the lockout is scheduled at the third |
| PinGate.Render | frontend/src/components/PinGate.jsx:89-171 | "set" comes first, then the forgot form, then "reset", then "enter"; the forgot form shows the stored question or "Security question" |
| PinGate.SetThenEnter | frontend/src/components/PinGate.jsx:27-45 | a PIN that was set unlocks the gate, and the set-up answer in any letter case opens the reset form |
| PinGate.ThreeStrikes | frontend/src/components/PinGate.jsx:47-57 | three wrong PINs from a clean counter schedule the lockout, which clears the counter and calls the fail callback |
| PinGate.CorrectPinClearsCounter | frontend/src/components/PinGate.jsx:41-45 | a correct PIN clears the counter and the input and leaves a scheduled lockout in place |
| PinGate.ResetKeepsQuestion | frontend/src/components/PinGate.jsx:82-85 | a reset keeps the security question and answer, and the new PIN unlocks |
| PinGate.RejectedSetWritesNothing | frontend/src/components/PinGate.jsx:19-26 | a rejected set-up writes nothing and keeps the mode |
| PinGate.StepsKeepAnswerLower | frontend/src/components/PinGate.jsx:17-86 | every handler keeps the stored security answer in lower case: set-up stores it lower-cased and no other handler writes it |
| PinGate.ForgotMatchesIgnoringCase | frontend/src/components/PinGate.jsx:62-73 | with the answer stored in lower case, the forgot check accepts a typed answer exactly when it equals the stored one up to letter case |
| PinGate.ForgotFormToggles | frontend/src/components/PinGate.jsx:89-185 | outside set-up, "Forgot PIN?" shows the question form and its Cancel returns to the form shown before, without writing storage |
| Journal.EffectiveSettings | frontend/src/components/Journal.jsx:27-35 | the settings in effect are the defaults overridden key by key by the given settings |
| Journal.BackgroundStyle | frontend/src/components/Journal.jsx:50-52 | "lined" and "gradient" select their backgrounds and every other value none |
| Journal.HandleSave | frontend/src/components/Journal.jsx:56-67 | nothing happens when title and text are both blank; otherwise the trimmed entry goes first and both inputs are cleared |
| Journal.HandleDelete | frontend/src/components/Journal.jsx:69-71 | deletion keeps exactly the entries with a different id and leaves the inputs alone |
| Journal.DeleteUndoesSave | frontend/src/components/Journal.jsx:56-71 | deleting the id of an entry just saved, when no other entry has it, restores the earlier entries |
| Journal.DeleteKeepsOrder | frontend/src/components/Journal.jsx:70 | deleting an entry with a unique id keeps the others in order |
| Journal.DefaultLook | frontend/src/components/Journal.jsx:27-31 | with no settings the journal is light with no background |
| SavedReflections.Filtered | frontend/src/components/AffirmHub/SavedReflections.jsx:9-11 | the search keeps exactly the reflections whose lower-cased text contains the lower-cased term |
| SavedReflections.FilteredAppend | frontend/src/components/AffirmHub/SavedReflections.jsx:9-11 | the search distributes over concatenation, so matches keep their order |
| SavedReflections.EmptyTermKeepsAll | frontend/src/components/AffirmHub/SavedReflections.jsx:10 | the empty term keeps every reflection |
| SavedReflections.SearchIgnoresTermCase | frontend/src/components/AffirmHub/SavedReflections.jsx:10 | the search ignores the letter case of the term |
| SavedReflections.OnDate | frontend/src/components/AffirmHub/SavedReflections.jsx:15-19 | the reference grouping: the reflections with one date heading, in order |
| SavedReflections.FindGroup | frontend/src/components/AffirmHub/SavedReflections.jsx:16 | `groups[date]` finds the group with that heading, or proves there is none |
| SavedReflections.GroupByCorrect | frontend/src/components/AffirmHub/SavedReflections.jsx:14-21 | the grouping has distinct headings, each group holds exactly its heading's reflections in order and is non-empty, and every reflection's heading has a group |
| SavedReflections.AddNewGroup | frontend/src/components/AffirmHub/SavedReflections.jsx:16-17 | a reflection with a new heading opens a group at the end and keeps the grouping correct |
| SavedReflections.AddToGroup | frontend/src/components/AffirmHub/SavedReflections.jsx:19 | a reflection with an existing heading is appended to that group and keeps the grouping correct |
| SavedReflections.GroupedUnderOwnHeading | frontend/src/components/AffirmHub/SavedReflections.jsx:15-19 | every listed reflection appears under its own heading |
| SavedReflections.GroupedUnderNoOther | frontend/src/components/AffirmHub/SavedReflections.jsx:15-19 | a group lists only reflections of the list, each under its own heading |
| Common.WithoutId | frontend/src/components/Journal.jsx:70 | the id filter, used by the journal and by the saved reflections (SavedReflections.jsx:26), keeps exactly the elements whose id differs |
| SavedReflections.HandleDelete | frontend/src/components/AffirmHub/SavedReflections.jsx:23-30 | without confirmation nothing changes; with it, every reflection with that id is removed from the full list |
| SavedReflections.DeleteIgnoresSearch | frontend/src/components/AffirmHub/SavedReflections.jsx:26 | a reflection hidden by the search survives the deletion of another id |
| SavedReflections.EmptyWithoutTerm | frontend/src/components/AffirmHub/SavedReflections.jsx:63 | without a term the empty state appears exactly for an empty list |
| AffirmHubHome.Rotate | frontend/src/components/AffirmHub/AffirmHubHome.jsx:35-40 | the index advances by one and wraps from the last quote to the first, changing nothing else |
| AffirmHubHome.Rotations | frontend/src/components/AffirmHub/AffirmHubHome.jsx:36-38 | repeated rotation changes only the index |
| AffirmHubHome.RotationsAdvance | frontend/src/components/AffirmHub/AffirmHubHome.jsx:37 | k rotations advance the index by k places modulo 5 |
| AffirmHubHome.FullCycle | frontend/src/components/AffirmHub/AffirmHubHome.jsx:5-26 | five rotations show the same quote again |
| AffirmHubHome.HandleSave | frontend/src/components/AffirmHub/AffirmHubHome.jsx:42-48 | a whitespace-only text is ignored; otherwise saving starts and the text as typed is captured for the timeout |
| AffirmHubHome.DisabledIff | frontend/src/components/AffirmHub/AffirmHubHome.jsx:118 | the button is disabled exactly for a whitespace-only text or while saving |
| AffirmHubHome.SaveCompleted | frontend/src/components/AffirmHub/AffirmHubHome.jsx:48-55 | the timeout passes the captured text unchanged to the callback, clears the input, ends saving, shows success and schedules its hiding |
| AffirmHubHome.ButtonLabel | frontend/src/components/AffirmHub/AffirmHubHome.jsx:125 | "Saving..." exactly while saving |
| AffirmHubHome.InitialInv | frontend/src/components/AffirmHub/AffirmHubHome.jsx:29-32 | the initial state shows quote 0 with nothing pending |
| AffirmHubHome.StepsKeepInv | frontend/src/components/AffirmHub/AffirmHubHome.jsx:35-57 | every action and timer keeps the index below 5 and at most one save pending, exactly while saving |
| AffirmHubHome.ClickThenCompleteSendsText | frontend/src/components/AffirmHub/AffirmHubHome.jsx:42-52 | an enabled click and its timeout send exactly the typed text, surrounding whitespace included, and reset the input |
| AffirmHubHome.TypingDuringSaveIsLost | frontend/src/components/AffirmHub/AffirmHubHome.jsx:48-50 | text typed while saving is discarded: the text sent is the one captured at the click |
| AffirmHubHome.BlankNeverSent | frontend/src/components/AffirmHub/AffirmHubHome.jsx:43 | a whitespace-only reflection is never sent |
| AffirmHub.Mount | frontend/src/components/AffirmHub/AffirmHub.jsx:25-28 | the list is the stored one, or empty when nothing is stored; the view is home and the drawer closed |
| AffirmHub.SaveReflection | frontend/src/components/AffirmHub/AffirmHub.jsx:31-40 | exactly one reflection stamped with the clock is appended, the earlier ones are kept in order, and the same list is stored |
| AffirmHub.RenderDispatch | frontend/src/components/AffirmHub/AffirmHub.jsx:51-69 | grow, learn, heal and reflections show their panels, reflections with the state's list, and any other value, home included, shows home |
| AffirmHub.MountMirrored | frontend/src/components/AffirmHub/AffirmHub.jsx:25-28 | after mounting, state and storage agree |
| AffirmHub.StepsKeepMirrored | frontend/src/components/AffirmHub/AffirmHub.jsx:37-39 | every step keeps the state list equal to the stored list |
| AffirmHub.DeleteLeavesReflectionsPanel | frontend/src/components/AffirmHub/SavedReflections.jsx:28 | the reload after a delete lands on the home panel with the drawer closed |
| AffirmHub.SavedIsSearchable | frontend/src/components/AffirmHub/AffirmHub.jsx:37 | a saved reflection that matches the term is found, as the last match |
| AffirmHub.SaveThenDelete | frontend/src/components/AffirmHub/SavedReflections.jsx:26 | a reflection saved and then deleted by its id is gone, and reflections with other ids are kept |
| AffirmHub.HomeSaveReachesHub | frontend/src/components/AffirmHub/AffirmHub.jsx:64 | the home screen's save appends the text exactly as typed to the hub's list and storage |
| AppShell.SwipeBack | frontend/src/App.jsx:32-42 | a swipe and the opposite swipe return exactly when not starting from the end the first swipe points to |
| AppShell.SwipesFromJournal | frontend/src/App.jsx:32-42 | from the journal either swipe and its opposite return to the journal |
| AppShell.JournalOneSwipeAway | frontend/src/App.jsx:32-42 | every screen is at most one swipe from the journal |
| AppShell.ToggleTheme | frontend/src/App.jsx:60 | "dark" becomes "warm" and anything else, a missing theme included, becomes "dark"; other settings are kept |
| AppShell.ToggleTwice | frontend/src/App.jsx:18 | two toggles restore the settings exactly when the theme was "dark" or "warm" |
| AppShell.ToggleAlternates | frontend/src/App.jsx:60 | after one toggle the theme alternates between "dark" and "warm" |
| AppShell.SettingsChange | frontend/src/App.jsx:24-26 | a change merges the given keys and leaves the others unchanged |
| AppShell.SettingsChangeNeutral | frontend/src/App.jsx:25 | a change that repeats current values leaves the settings unchanged |
| AppShell.Mount | frontend/src/App.jsx:15-22 | the shell opens on the journal with the initial settings, and onboarding shows exactly when no non-empty dismissal flag is stored |
| AppShell.DismissPersists | frontend/src/App.jsx:22-30 | after a dismissal the next mount hides the overlay |
| AppShell.JournalFollowsShell | frontend/src/App.jsx:17-21 | with the initial settings the journal is light and plain, after one toggle it is dark, and the page and the journal always agree on darkness |
| AppShell.ThemeLabelAfterToggle | frontend/src/components/Journal.jsx:105-106 | after the shell's toggle the journal's button reads "Switch to light mode" exactly when the theme before was not "dark" |
| AppShell.ShellStepsKeepStorage | frontend/src/App.jsx:27-62 | only the dismissal writes storage or hides the overlay; swipes and the return change only the view, the toggle and a settings change only the settings |
| Common.Get | frontend/src/components/PinGate.jsx:7 | `localStorage.getItem` yields the stored value exactly when the key is stored |
| Common.Spread | frontend/src/App.jsx:25 | `{ ...base, ...over }` has the keys of both, with values from `over` where it has them |
| Common.SpreadIdempotent | frontend/src/App.jsx:25 | merging the same change twice is merging it once |
| ClientServer.ActionCheckinAccepted | frontend/src/components/ActionScreen.jsx:187 | the action screen's check-in is accepted for any non-empty user id at a clock reading within the Date range, and the stored record expires exactly when the 300-second countdown ends |
| ClientServer.TimerExpiryAgrees | frontend/src/components/CheckinTimer.jsx:36-38 | the check-in timer and the server record the same expiry from the same clock reading |
| ClientServer.CheckinWithoutUserFails | backend/routes/checkin.js:77-81 | a start without a user id shows "Failed to start check-in" on the action screen |
| ClientServer.AutoSosReportsFailure | backend/routes/checkin.js:155-159 | both screens' automatic SOS always ends in their failure message, because the trigger route always answers 400 |
| ClientServer.CorrectedAutoSosSucceeds | backend/routes/checkin.js:152-157 | with the corrected trigger, an expired check-in of a user whose id is an ObjectId, with a position, reaches the action screen as a success |
| ClientServer.ClientIdAutoSosStillFails | frontend/src/components/CheckinTimer.jsx:4-12 | even with the corrected trigger, a client-generated "user_…" id fails the ObjectId cast: 400, no event, and both screens show their auto-SOS failure message |
| ClientServer.SosButtonSeesRefusal | frontend/src/components/SOSButton.jsx:21-30 | against the SOS route the button ends in "SOS failed" and offers a retry |
| ClientServer.ActionScreenMissesRefusal | frontend/src/components/ActionScreen.jsx:169-174 | against the same route the action screen reports "SOS Sent!"; the corrected handler reports the failure |
| ClientServer.AuthenticatedSosSucceeds | backend/routes/sos.js:68-71 | a button request that reaches the corrected route with an authenticated caller whose id is an ObjectId is stored, and the button ends in success; the button as written sends no token or cookies, so the caller is assumed |

## Left out

- Persistence, MongoDB and concurrency between requests: the store is a value, and handlers run one at a time.
- Real timers: each timer callback is a step the caller applies. Several pending PIN lockout timers are collapsed into one flag.
- JWT cryptography, token expiry and cookie options (httpOnly, secure, sameSite, lifetime): signing and verification are parameters.
- Password hashing: `comparePassword` is a parameter.
- The User and Contact schemas are not part of this model. `User.create` and `contact.save()` outcomes are parameters.
- `select('-password')` in `protect`: the attached user is the stored record.
- The 500 answers for storage failures: the login and getMe catch blocks, GET /api/contacts, and the checkin cancel catch (400).
- The NODE_ENV-dependent `error` details in answers, and console logging.
- Network clients and the API client's 401 redirect. Only the 2xx rule is used, through `ClientServer`.
- Geolocation: its outcome is a parameter.
- `Math.random` in `getUserId`: the suffix is a parameter.
- The JSON encoding of stored lists and of journal entries. A stored list is the list itself, so malformed storage is not modelled.
- The date-fns heading format: it is the parameter `dateKey`. The order of `Object.entries` is taken as insertion order, which holds because a date heading is never an array index.
- Locale date strings and `toISOString`: they are parameters.
- Unicode: string operations are on ASCII.
- The duration input's `Number("")` (0) and NaN: the model takes an integer.
- The missing-userId query of cancel and trigger: `{ userId: undefined }` is storage-defined, so userId is a plain string there.
- Content-only components (Grow, Learn, Heal, the drawer's markup, Settings, OnboardingOverlay) and styling.
- ContactsRoute.Update: an `undefined` field in the update document is taken to leave the field unchanged, as Mongoose strips undefined values in updates by default.
- SosRoute.Post: states the answer's status and error only. The code sends no `success` field.
- CheckinRoutes.Start: durations are integers, so a fractional number of minutes is not modelled.
- SOSEventModel.FailingPaths: only a string of 24 hexadecimal digits casts to an ObjectId; the 12-character strings and ObjectId instances that Mongoose's cast also accepts are not modelled.
- AffirmHub.DeleteAndReload: the page after the reload is taken to mount the hub afresh from storage. frontend/src/App.jsx does not mount the hub, so that page is assumed, not modelled.
- AuthController.Register: the email is a string. A body without `email` runs the query `{ email: undefined }`, whose result is defined by the storage layer, so its outcome would rest on `create` alone and is not modelled.
- The `success` flag of the auth and contacts answers: where an answer has one, it is true exactly when the status is below 400, so the modelled status carries it.
- AuthController.Logout: states the cookie's value and ten-second expiry; the httpOnly option is not modelled.

## Findings

| source | as written | input that shows it | evidently intended | confidence | as-written member | corrected member |
|---|---|---|---|---|---|---|
| backend/routes/sos.js:65-75 | the event is built from `location` alone, and the route has no middleware that could supply a user, while the schema requires `user` | any POST /api/sos, e.g. location {lat: 1, lng: 2} | the authenticated caller's id is attached as `user` and the event is stored with 201; the clients must then also send the token, since SOSButton.jsx:21-25 and ActionScreen.jsx:169-173 send neither an `Authorization` header nor cookies | high, not executed | SosRoute.Post | SosRoute.PostAuthenticated |
| backend/routes/checkin.js:152-160 | the check-in is deactivated and saved, then an event with no user and status "auto-triggered" (outside the enumeration) is saved, which always fails | start a 0-minute check-in, then trigger: 400 "Could not trigger auto-SOS", and the check-in is already inactive | the event carries the check-in's user and its status is accepted, so exactly one event is stored; the client's "user_…" ids still fail the ObjectId cast (ClientServer.ClientIdAutoSosStillFails), so the user must also be an ObjectId | high, not executed | CheckinProperties.TriggerAtExpiryDeactivates | CheckinProperties.CorrectedTriggerStoresOneEvent |
| backend/routes/contacts.js:45 | the user is looked up by `decoded.userId`, but tokens are signed with `{ id }` (authController.js:210-213) | a token from login: lookup of an undefined id, never the token's user | the lookup uses `decoded.id` | high, not executed | AuthProperties.ContactsLookupIgnoresIssuedId | AuthProperties.ContactsCorrectedAcceptsIssuedToken |
| frontend/src/components/ActionScreen.jsx:169 | `await` applies to `api.sos`, which api.js does not define, so the fetch is not awaited and `res.ok` is never checked | press SOS with a position while the server answers 400: "SOS Sent!" is shown | the request is awaited and a non-OK answer shows "Failed to send SOS" | high, not executed | ClientServer.ActionScreenMissesRefusal | ActionScreen.SosSettledCorrected |
| frontend/src/components/CheckinTimer.jsx:32-39 | "running" is shown (with Cancel) before the start request settles, and the completion installs the interval without checking for a cancel | press Start, press Cancel before the request answers, then the request succeeds: "Check-in cancelled." is shown but the countdown runs and triggers SOS | a cancel during the start request stops the timer for good | medium, not executed | CheckinTimer.CancelBeforeStartSettles | CheckinTimer.CorrectedCancelBeforeStartSettles |
