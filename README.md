# RedReserve blood-bank ledger in Dafny

RedReserve is a blood-bank web application: an Express/Mongoose back end and
a React front end. This project models its core, the ledger that the API
keeps:

- **Blood requests.** A signed-in user asks for units of a blood group. An
  administrator approves the request, which draws the units from stock when
  there is enough, or rejects it.
- **Donation appointments.** A signed-in user books a donation. An
  administrator approves it, which adds one unit to the group (creating the
  record when there is none), or rejects it.
- **The inventory.** A listing by blood group, and the administrator's manual
  upsert of a group's count.
- **Accounts.** Registration, login, logout and access-token refresh, with
  one stored refresh token per user. There is also a separate admin sign-in.
- **The access gate.** `verifyJWT` and `isAdmin`, and which of them each
  mounted route runs before its handler.

Beside the ledger, it models the pure helpers of the two LLM clients:

- the code-fence stripper `extractJsonText`;
- the error classifiers `mapGroqError` and `mapGeminiError`.

It also models two front-end pieces:

- the blood-request form's checks and submit flow;
- the admin inventory page's stock badge and its save body.

The handlers are specification functions from a database value (`Schemas.Db`)
to a `Step`: the next database and the reply. The reply is either the payload
or an `ApiError` with its status code. The modules are:

| Module | File | Models |
|---|---|---|
| `BloodRequests` | bloodrequests.dfy | blood-request handlers |
| `Donations` | donations.dfy | donation handlers |
| `InventoryLedger` | inventory.dfy | inventory handlers |
| `Accounts` | accounts.dfy | account handlers |
| `AdminAuth` | adminauth.dfy | admin sign-in |
| `Access` | access.dfy | the middleware |

`Ledger` (ledger.dfy) puts them together:

- `Dispatch` serves one request: its route's guard, then its handler.
- `Run` serves a sequence of requests.
- `Ledger.Store` is a class holding the collections as fields. Its methods
  update those fields in place. Each method is proved to leave exactly the
  state, and give exactly the reply, that the specification function
  prescribes.

The other modules:

- `Schemas` (schemas.dfy): the Mongoose schemas, the database invariant
  `Valid` and the password `pre("save")` hook.
- `Http` (http.dfy): JavaScript truthiness and the Mongoose casts.
- `Text` (text.dfy): `trim`, `toLowerCase`, `includes` and `replace`.
- `Listing` (listing.dfy): the two listing orders.
- `LlmOutput` (llmoutput.dfy), `RequestForm` (requestform.dfy) and
  `StockLevel` (stocklevel.dfy): the pure helpers and the front-end pieces.

Collaborators outside the model are parameters:

- `Decoded` stands for JWT verification, and `Accounts.Issued` for the tokens
  JWT signing produces.
- `Crypto` stands for bcrypt's hash and compare.
- `RequestForm.Reply` stands for what the API client answered or threw.

Document ids and `createdAt` come from one insertion counter, so "newest
first" is descending id.

Where the specification and the code disagree, the code is followed:

- An administrator's inventory upsert stores any integer, negative values
  included.
- Rejecting a request or appointment has no pending guard.

## Model

| member | source | states |
|---|---|---|
| Schemas.NewInventoryRecord | backend/models/inventory.model.js:3-16 | an inventory record an upsert creates starts from the default of 0 units |
| Schemas.ReplaceUserKeepsValid | backend/models/auth.model.js:5-33 | replacing a user by a schema-valid record with the same id and e-mail keeps the database valid (e-mails stay unique) |
| Schemas.AddUserKeepsValid | backend/models/auth.model.js:5-33 | inserting a schema-valid user under a fresh id with an unused e-mail keeps the database valid, including the unique e-mail index |
| Schemas.SameEmailStaysUnique | backend/models/auth.model.js:11-16 | the unique index on e-mail survives replacing a user by one with the same e-mail |
| Schemas.SaveWithoutPasswordChangeKeepsHash | backend/models/auth.model.js:39-42 | a save that did not modify the password leaves the stored hash alone and stores the new refresh token |
| Schemas.SaveWithPasswordChangeHashes | backend/models/auth.model.js:39-42 | a save after the password was set stores the bcrypt hash of exactly that password and changes nothing else |
| Http.Get | backend/controllers/Bloodrequest.controller.js:9 | a body field is present exactly when its key is in the parsed body |
| Listing.NewestFirst | backend/controllers/Bloodrequest.controller.js:28-36 | the ids kept by a filter, strictly descending (newest first), each id that satisfies the filter exactly once |
| Listing.Pick | backend/controllers/Bloodrequest.controller.js:28-36 | the documents filed under a list of ids, in that order |
| Listing.StrLessIrreflexive | backend/controllers/inventory.controller.js:8-14 | the ascending `bloodGroup` sort order is irreflexive |
| Listing.StrLessTransitive | backend/controllers/inventory.controller.js:8-14 | the sort order is transitive |
| Listing.StrLessTotal | backend/controllers/inventory.controller.js:8-14 | any two distinct blood groups are ordered one way or the other |
| Listing.StrLessAsymmetric | backend/controllers/inventory.controller.js:8-14 | the sort order is asymmetric |
| Listing.MinExists | backend/controllers/inventory.controller.js:8-14 | every non-empty set of groups has a least element |
| Listing.MinKey | backend/controllers/inventory.controller.js:8-14 | the least group of a set is in it and below every other |
| Listing.AsymmetricEverywhere | backend/controllers/inventory.controller.js:8-14 | no two groups are each below the other |
| Listing.SortedKeys | backend/controllers/inventory.controller.js:8-14 | the groups in strictly ascending order, each group of the set exactly once |
| BloodRequests.Create | backend/controllers/Bloodrequest.controller.js:8-25 | 400 unless `bloodGroup` and `units` are truthy; success exactly when units cast to a number of at least 1; the stored request is pending, owned by the caller, with the given group and units under a fresh id; failures change nothing |
| BloodRequests.ListMine | backend/controllers/Bloodrequest.controller.js:28-36 | exactly the caller's requests, every one of them, newest first |
| BloodRequests.ListAll | backend/controllers/Bloodrequest.controller.js:39-47 | every stored request, with no owner filter, newest first |
| BloodRequests.Approve | backend/controllers/Bloodrequest.controller.js:50-83 | 404 for an unknown id, 400 "Request already processed" when not pending, 400 "Insufficient stock" when the group has no record or too few units, with nothing changed; success exactly for a pending request whose group holds at least the units asked for, and then the group loses exactly those units (staying non-negative), no other group or document changes, and the request becomes approved |
| BloodRequests.Reject | backend/controllers/Bloodrequest.controller.js:86-100 | 404 for an unknown id; otherwise the request becomes rejected whatever its status, and the inventory never changes |
| BloodRequests.ApproveTwiceFails | backend/controllers/Bloodrequest.controller.js:58-60 | a second approval of an approved request is refused as already processed and changes nothing |
| BloodRequests.DrainToZeroThenInsufficient | backend/controllers/Bloodrequest.controller.js:62-74 | a pending request for exactly the stock on hand is approved and leaves the group at 0, and another pending request for that group is then refused for insufficient stock |
| BloodRequests.RejectAfterApproveKeepsStock | backend/controllers/Bloodrequest.controller.js:86-100 | rejecting an approved request does not return its units |
| Donations.PlusOne | backend/controllers/donor.controller.js:49-53 | the upsert `$inc: 1` gives the old count plus one, or 1 for a group without a record |
| Donations.Book | backend/controllers/donor.controller.js:9-21 | fails with 400, changing nothing, exactly when `appointmentDate` or `bloodGroup` is falsy; otherwise stores a pending appointment owned by the caller under a fresh id |
| Donations.ListMine | backend/controllers/donor.controller.js:23-26 | exactly the caller's appointments, every one of them, newest first |
| Donations.ListAll | backend/controllers/donor.controller.js:28-31 | every stored appointment, with no owner filter, newest first |
| Donations.Approve | backend/controllers/donor.controller.js:33-62 | 404 for an unknown id, 400 when not pending, with nothing changed; success exactly for a pending appointment, which becomes approved while its group gains exactly one unit (a new record with 1 unit if absent) and nothing else changes |
| Donations.Reject | backend/controllers/donor.controller.js:64-78 | 404 for an unknown id; otherwise rejected whatever its status; the inventory never changes |
| Donations.ApproveTwiceFails | backend/controllers/donor.controller.js:41-43 | a second approval is refused as already processed and changes nothing |
| Donations.RejectAfterApproveKeepsUnit | backend/controllers/donor.controller.js:64-78 | rejecting an approved appointment keeps the unit its approval added |
| Donations.RejectTwiceSucceeds | backend/controllers/donor.controller.js:64-78 | rejection has no pending guard: a second rejection succeeds and changes nothing further |
| InventoryLedger.List | backend/controllers/inventory.controller.js:8-14 | every stored record exactly once, in strictly ascending blood-group order |
| InventoryLedger.RecordsOfSortedKeys | backend/controllers/inventory.controller.js:8-14 | the records read off the sorted groups are ascending and are exactly the stored records |
| InventoryLedger.Update | backend/controllers/inventory.controller.js:17-33 | 400 unless `bloodGroup` is truthy and `units` is present (0 accepted); success exactly when units cast to a number; the group's count becomes that number (record created if absent), everything else unchanged |
| InventoryLedger.UpdateIdempotent | backend/controllers/inventory.controller.js:24-28 | applying the same update twice answers and stores the same as once |
| InventoryLedger.UpdateStoresAnyValue | backend/controllers/inventory.controller.js:20-28 | any integer, zero or negative included, is stored as given |
| InventoryLedger.TextUnitsStored | backend/controllers/inventory.controller.js:20-28 | a non-empty string `units` that `Number` reads as an integer is stored as that integer, with a 200 |
| InventoryLedger.HexUnitsStored | backend/controllers/inventory.controller.js:20-28 | `units: "0x10"` is cast by `Number` as a hexadecimal literal, so the group is stored with 16 units and a 200 |
| InventoryLedger.BlankUnitsStoreZero | backend/controllers/inventory.controller.js:20-28 | a whitespace-only `units` passes the presence check and is cast to 0, so the group is stored with 0 units |
| Access.VerifyJwt | backend/middleware/auth.middleware.js:7-29 | every failure is 401; no token or an empty one gives "Unauthorized request"; success exactly when the chosen token verifies and names a stored user, and the result is that user without its secrets |
| Access.IsAdmin | backend/middleware/auth.middleware.js:31-37 | passes exactly a user whose role is admin; otherwise 403 "Forbidden Access" |
| Access.Authorize | backend/routes/admin.routes.js:9-19 | an open route passes with no user; a signed-in route passes exactly when `verifyJWT` does, an admin route exactly when it does and the user is an admin; failures are 401 or 403 |
| Access.HeaderTakesPrecedence | backend/middleware/auth.middleware.js:10-11 | a `Bearer` header's token is used whatever the cookies hold |
| Access.BareHeaderIsToken | backend/middleware/auth.middleware.js:10-11 | a non-empty header without "Bearer " is taken as the token itself |
| Access.CookieIsFallback | backend/middleware/auth.middleware.js:10-11 | without a usable header token, the `accessToken` cookie decides |
| Access.IsAdminRefusesNonAdmins | backend/middleware/auth.middleware.js:33-35 | no user, or any role but admin, is refused with 403 |
| Accounts.FirstMatch | backend/controllers/auth.controller.js:49-51 | the earliest stored user satisfying the filter, and no earlier one satisfies it; none when no user does |
| Accounts.FirstMatchFinds | backend/controllers/auth.controller.js:49-51 | a match with no earlier match is the one `findOne` returns |
| Accounts.CheckPassword | backend/models/auth.model.js:43-45 | bcrypt's verdict for a string candidate; a 500 for a missing or non-string one |
| Accounts.Register | backend/controllers/auth.controller.js:26-40 | 400 when a field is falsy; 409 exactly when the lower-cased e-mail is stored already; the schema's 500 exactly when the name trims to nothing; success exactly in every other case, storing a new user with the trimmed name, the lower-cased e-mail, the hashed password and role "user" under a fresh id; failures change nothing; validity is kept |
| Accounts.IssueTokens | backend/controllers/auth.controller.js:8-24 | succeeds exactly for a stored user, storing the new refresh token on it and handing out both tokens; otherwise a 500 that changes nothing |
| Accounts.Login | backend/controllers/auth.controller.js:41-92 | 400 without username and e-mail; 404 exactly when no user matches; for the earliest matching user, a 500 from bcrypt for a missing or non-string password, 401 exactly when bcrypt refuses the password and success exactly when it accepts; on success that user gets the new refresh token and the reply carries the user and both tokens |
| Accounts.Logout | backend/controllers/auth.controller.js:94-118 | 401 without a user; otherwise the user's stored refresh token is removed and nothing else changes |
| Accounts.Rotate | backend/controllers/auth.controller.js:120-165 | 400 without a refresh token; success exactly when it is a string that verifies, names a stored user and equals that user's stored token, which is then replaced by the new one; every other failure is 401 and changes nothing |
| Accounts.RefreshAsWritten | backend/controllers/auth.controller.js:140-160 | as written: the same state change and success as the rotation, but the reply carries no refresh token |
| Accounts.Refresh | backend/controllers/auth.controller.js:120-165 | corrected: the reply carries the new refresh token, which is the one now stored on the user |
| Accounts.RegisterThenLogin | backend/controllers/auth.controller.js:26-92 | after registering, logging in with the same e-mail and password succeeds as the new user (given bcrypt accepts a password against its own hash) |
| Accounts.LogoutRevokesRefresh | backend/controllers/auth.controller.js:94-118 | after a logout no refresh token for that user is accepted |
| Accounts.RefreshChains | backend/controllers/auth.controller.js:120-165 | the refresh token handed out by the corrected refresh is accepted by the next refresh |
| Accounts.RefreshAsWrittenStrandsClient | backend/controllers/auth.controller.js:144-154 | as written, after a successful refresh the client has no refresh token in the answer and its old one is refused |
| AdminAuth.AdminLogin | backend/controllers/admin.controller.js:7-46 | 400 when e-mail or password is falsy; 401 "Unauthorized" exactly when no admin has that e-mail; for the admin found, 401 "Invalid credentials" exactly when bcrypt refuses the password, success exactly when it accepts (a 500 for a non-string password); on success the admin's profile and the signed token, with nothing written |
| AdminAuth.UserAccountRefused | backend/controllers/admin.controller.js:14-20 | an ordinary user is refused even with the right password, because the e-mail is unique |
| AdminAuth.OnlyAdminsSignIn | backend/controllers/admin.controller.js:14-20 | a successful admin sign-in is always an administrator's |
| LlmOutput.StripJsonOpening | backend/utils/groqClient.js:45 | removing the "```json" opening never lengthens the text |
| LlmOutput.StripOpening | backend/utils/groqClient.js:46 | removing a bare opening fence never lengthens the text |
| LlmOutput.StripClosing | backend/utils/groqClient.js:47 | removing the closing fence never lengthens the text |
| LlmOutput.ExtractJsonText | backend/utils/groqClient.js:41-49 | "" for a missing or empty answer; never longer than the answer; no whitespace at either end |
| LlmOutput.FenceFreeIsTrimmed | backend/utils/geminiClient.js:42-52 | text with no fence at either end comes back just trimmed |
| LlmOutput.TrimStartAppend | backend/utils/groqClient.js:45 | leading-whitespace removal distributes over appending after non-blank text |
| LlmOutput.JsonFenceYieldsContent | backend/utils/groqClient.js:41-49 | "```json" (any case) + content + "```" yields the trimmed content |
| LlmOutput.NoBacktickNoFence | backend/utils/groqClient.js:46 | text not starting with a backtick passes the bare-fence step unchanged |
| LlmOutput.ClosingFenceOf | backend/utils/groqClient.js:47 | a trailing fence goes together with the whitespace before it |
| LlmOutput.JsonOpeningOf | backend/utils/groqClient.js:45 | the "```json" opening goes together with the whitespace after it |
| LlmOutput.StatusOr | backend/utils/groqClient.js:52 | a missing or zero status takes the fallback |
| LlmOutput.MessageOr | backend/utils/groqClient.js:53 | a missing or empty message takes the fallback |
| LlmOutput.MapGroqError | backend/utils/groqClient.js:51-69 | the key rule first (401), then the rate rule (429), then the model rule (500 with the configuration hint), else 500 with the library's message |
| LlmOutput.GroqUnauthorizedIff | backend/utils/groqClient.js:56-58 | the answer is 401 exactly when the status is 401 or the message speaks of the key or authorisation |
| LlmOutput.MapGeminiError | backend/utils/geminiClient.js:54-83 | status, else code, else 500; the key rule (401), the quota rule (402), 503, else 500 with the library's message |
| LlmOutput.GeminiRateLimitIs402 | backend/utils/geminiClient.js:67-76 | a 429 without a key problem is answered with 402 |
| LlmOutput.GeminiStatusBeforeCode | backend/utils/geminiClient.js:55 | `code` is consulted only when `status` is missing or zero |
| RequestForm.Changed | ui-ux/src/pages/RequestBlood.jsx:21-26 | the named field takes the new value and every other field is kept |
| RequestForm.CheckForm | ui-ux/src/pages/RequestBlood.jsx:33-41 | the required-fields message exactly when a required field is falsy; the range message exactly when they are filled and the units compare outside 1..10; otherwise the form is sent |
| RequestForm.Outcome | ui-ux/src/pages/RequestBlood.jsx:45-58 | an accepted answer (201 or success) sets the success message; an error sets the error message and no success |
| RequestForm.RequestBody | ui-ux/src/pages/RequestBlood.jsx:46 | corrected: the units the form holds are sent under `units` as well, and every other field unchanged |
| RequestForm.RequestBloodPage.constructor | ui-ux/src/pages/RequestBlood.jsx:9-19 | the initial form, no messages, not loading |
| RequestForm.RequestBloodPage.HandleChange | ui-ux/src/pages/RequestBlood.jsx:21-26 | only the named field of the form changes |
| RequestForm.RequestBloodPage.HandleSubmit | ui-ux/src/pages/RequestBlood.jsx:28-59 | the first failed check's message and nothing sent; otherwise the form itself sent unchanged (units under `unitsRequested` only, as written), the outcome's messages set and loading cleared |
| RequestForm.InitialFormIncomplete | ui-ux/src/pages/RequestBlood.jsx:9-16 | the untouched form is refused for its empty required fields |
| RequestForm.UrgencyNotValidated | ui-ux/src/pages/RequestBlood.jsx:33-41 | changing urgency never changes the verdict |
| RequestForm.RequiredCheckedFirst | ui-ux/src/pages/RequestBlood.jsx:33-41 | a form failing both checks reports the missing fields |
| RequestForm.FilledInitialFormPasses | ui-ux/src/pages/RequestBlood.jsx:9-41 | filling the four required fields of the initial form is enough |
| RequestForm.AsWrittenSubmissionRefused | ui-ux/src/pages/RequestBlood.jsx:46 | as written, every body the page sends is refused by the handler with 400 |
| RequestForm.CorrectedSubmissionAccepted | backend/controllers/Bloodrequest.controller.js:8-25 | with the corrected body, a form that passes the page's checks creates a pending request for its 1..10 units |
| StockLevel.StockStatus | ui-ux/src/admin/Inventory.jsx:50-54 | High exactly from 10 units, Medium exactly from 5 to 9, Critical exactly below 5 |
| StockLevel.StockStatusMonotone | ui-ux/src/admin/Inventory.jsx:50-54 | more units never give a lower level |
| StockLevel.EditorBody | ui-ux/src/admin/Inventory.jsx:34-43 | corrected: the row's blood group and the count under `units`, nothing else |
| StockLevel.AsWrittenSaveRefused | ui-ux/src/admin/Inventory.jsx:36 | as written, every save from the editor is refused with 400 and changes nothing |
| StockLevel.CorrectedSaveStores | backend/controllers/inventory.controller.js:17-33 | with the corrected body, a save stores exactly the edited count for that group and no other |
| Ledger.ServeAccount | backend/routes/auth.routes.js:7-10 | account handlers keep validity and touch neither requests, appointments nor inventory; the admin sign-in writes nothing |
| Ledger.ServeRequest | backend/routes/Bloodrequest.routes.js:12-13 | request handlers keep validity; the inventory changes only on an approval and stays non-negative; a closed request stays closed and is never approved again |
| Ledger.ServeDonation | backend/routes/donor.routes.js:8-9 | appointment handlers keep validity; the inventory changes only on an approval; a closed appointment stays closed and is never approved again |
| Ledger.ServeInventory | backend/routes/inventory.routes.js:11-13 | the listing writes nothing; the upsert touches only the inventory |
| Ledger.Serve | backend/routes/admin.routes.js:9-19 | every handler keeps validity, read-only routes write nothing, each route writes only its own collections, closed documents stay closed, and stock stays non-negative outside the manual upsert |
| Ledger.Dispatch | backend/routes/admin.routes.js:9-19 | a caller who is not an administrator gets 401 or 403 from every admin route and changes nothing; a failed token check changes nothing; validity is kept |
| Ledger.DispatchKeepsClosed | backend/controllers/Bloodrequest.controller.js:58-60 | one request never reopens or re-approves a closed request or appointment; a successful approval closes what it approved |
| Ledger.StepKeepsStock | backend/controllers/Bloodrequest.controller.js:62-74 | outside the manual upsert, no request makes a count negative |
| Ledger.PathIdIgnored | backend/routes/inventory.routes.js:12-13 | `PUT /inventory/:id` behaves exactly as `PUT /inventory` |
| Ledger.Run | backend/app.js:24-36 | one step per request |
| Ledger.RunSuffix | backend/app.js:24-36 | the steps after a point are the run of the rest from the state reached |
| Ledger.RunKeepsValid | backend/models/auth.model.js:5-33 | every state of a run from a valid database is valid |
| Ledger.RunAt | backend/app.js:24-36 | each step is the dispatch of its request from the state before it |
| Ledger.RequestStaysClosed | backend/controllers/Bloodrequest.controller.js:58-60 | over a run, a closed request stays closed and every approval of it is refused |
| Ledger.DonationStaysClosed | backend/controllers/donor.controller.js:41-43 | over a run, a closed appointment stays closed and every approval of it is refused |
| Ledger.RequestApprovedAtMostOnce | backend/controllers/Bloodrequest.controller.js:50-83 | in any run a request is approved at most once, so its units leave stock once |
| Ledger.DonationApprovedAtMostOnce | backend/controllers/donor.controller.js:33-62 | in any run an appointment is approved at most once, so it adds one unit once |
| Ledger.RunKeepsStock | backend/controllers/Bloodrequest.controller.js:62-74 | over a run without manual upserts, no count ever drops below zero |
| Ledger.Store.constructor | backend/models/inventory.model.js:3-16 | empty collections, a valid database |
| Ledger.Store.CreateBloodRequest | backend/controllers/Bloodrequest.controller.js:8-25 | the collections become, and the reply is, what `BloodRequests.Create` prescribes |
| Ledger.Store.ApproveBloodRequest | backend/controllers/Bloodrequest.controller.js:50-83 | in-place approval with the state and reply `BloodRequests.Approve` prescribes |
| Ledger.Store.RejectBloodRequest | backend/controllers/Bloodrequest.controller.js:86-100 | in-place rejection as `BloodRequests.Reject` prescribes |
| Ledger.Store.BookDonation | backend/controllers/donor.controller.js:9-21 | in-place booking as `Donations.Book` prescribes |
| Ledger.Store.ApproveDonation | backend/controllers/donor.controller.js:33-62 | status assignment then the `$inc` upsert, as `Donations.Approve` prescribes |
| Ledger.Store.RejectDonation | backend/controllers/donor.controller.js:64-78 | in-place rejection as `Donations.Reject` prescribes |
| Ledger.Store.UpdateInventory | backend/controllers/inventory.controller.js:17-33 | in-place upsert as `InventoryLedger.Update` prescribes |
| Ledger.Store.CheckRegistration | backend/controllers/auth.controller.js:26-40 | the refusal, or the user document registration saves, as `Accounts.NewUser` prescribes; nothing changes |
| Ledger.Store.Register | backend/controllers/auth.controller.js:26-40 | in-place registration as `Accounts.Register` prescribes |
| Ledger.Store.IssueTokens | backend/controllers/auth.controller.js:8-24 | in-place token storage as `Accounts.IssueTokens` prescribes |
| Ledger.Store.Login | backend/controllers/auth.controller.js:41-92 | in-place login as `Accounts.Login` prescribes |
| Ledger.Store.Logout | backend/controllers/auth.controller.js:94-118 | in-place logout as `Accounts.Logout` prescribes |
| Ledger.Store.RefreshAccessToken | backend/controllers/auth.controller.js:120-165 | in-place refresh as the corrected `Accounts.Refresh` prescribes |
| Ledger.Store.HandleAccount | backend/routes/auth.routes.js:7-10 | the account routes in place, as `Ledger.ServeAccount` prescribes |
| Ledger.Store.HandleRequest | backend/routes/admin.routes.js:17-19 | the request routes in place, as `Ledger.ServeRequest` prescribes |
| Ledger.Store.HandleDonation | backend/routes/admin.routes.js:12-14 | the donation routes in place, as `Ledger.ServeDonation` prescribes |
| Ledger.Store.HandleInventory | backend/routes/inventory.routes.js:11-13 | the inventory routes in place, as `Ledger.ServeInventory` prescribes |
| Ledger.Store.Handle | backend/routes/admin.routes.js:9-19 | one request in place, leaving the state and reply `Ledger.Dispatch` prescribes and keeping validity |

## Left out

- Persistence and I/O: MongoDB, `populate`, timestamps as dates, `console.log`, cookies' options and HTTP framing. The database is an in-memory value, and `createdAt` is the insertion counter.
- Concurrency and crash windows: handlers run one at a time and to completion, so the status-then-increment order of a donation approval matters only for partial failure, which is not modelled.
- JWT signing and verification and bcrypt are parameters (`Decoded`, `Accounts.Issued`, `Crypto`); token expiry is part of what the verifier answers.
- InventoryLedger.Update: an empty-string `units` passes the presence check and Mongoose casts it to `null`, which is stored with a 200 answer; the model cannot store `null` and answers it as a cast failure (500). A whitespace-only string is cast to 0 as in the source.
- Http.Json: body values are strings and integers only. JSON `null` and booleans cannot be represented (Mongoose stores `units: null` and casts `true` to 1), nor can fractional numbers. `appointmentDate` is stored as sent, without `Date` casting.
- Text.StringToNumber: JavaScript's `Number` reads decimal integers, the `0x`/`0o`/`0b` integer forms ("0x10" is 16), fractions such as "1.5", exponents such as "1e3", and "Infinity" with an optional sign. The model reads the integer forms; the fractional, exponent and "Infinity" forms come out as NaN. So `units: "1e3"` is a 500 in `BloodRequests.Create` and `InventoryLedger.Update`, while the source creates the request or stores 1000.
- Malformed ObjectIds (a `CastError` on `findById`) are not modelled: ids are naturals.
- Library error messages (bcrypt's, the JWT library's, Mongoose validation) are placeholders with the status code the handler answers.
- Donations.Book: the controller writes the owner as `donor` (backend/controllers/donor.controller.js:15) while the schema's required field is `donorId` (backend/models/appointment.models.js:5-9); the model uses one owner field, `donorId`, set to the caller, and lists by it. As written, the schema's default strict mode drops `donor`, so the required `donorId` is missing, `Appointment.create` fails validation and every booking answers 500; `getMyDonations` filters on, and `getAllDonations` populates, the `donor` path the schema lacks (backend/controllers/donor.controller.js:24, 29).
- backend/routes/admin.routes.js:2 imports `getAllUsers`, `deleteUser` and `adminlogout`, but backend/controllers/admin.controller.js exports only `adminLogin` (line 7). As written, that ES-module link error stops the server from starting at all. The `Ledger` assumes the import is repaired, and it leaves out the three routes at backend/routes/admin.routes.js:20-22.
- Ledger.ServeAccount: the refresh route serves the corrected `Accounts.Refresh`, so `Ledger.Dispatch`, `Ledger.Run`, the run lemmas and `Ledger.Store.Handle` describe the program with that fix. The refresh reply as written at backend/controllers/auth.controller.js:144-154 is modelled by `Accounts.RefreshAsWritten` only (see Findings). The state change is the same in both.
- Accounts.FindOne: `findOne` without a sort returns the first match in the collection's natural order; the model takes the earliest match by id. The two differ only for `username` lookups, which can match several users, since e-mails are unique.
- The AI assistant (ai.controller.js, the autofill controllers, the LLM calls themselves) and the donation page: only the pure helpers of the LLM clients are modelled.
- Front-end navigation, `setTimeout` and the API client modules are not modelled; the client's answer is a parameter.
- Text.Lower: lower-cases ASCII and the Kelvin sign only, not all of Unicode's case mappings.
- backend/middlewares/auth.middleware.js is an unused duplicate of backend/middleware/auth.middleware.js and is not modelled.

## Findings

| source | as written | input that shows it | evidently intended | confidence | as-written member | corrected member |
|---|---|---|---|---|---|---|
| ui-ux/src/pages/RequestBlood.jsx:46 | the page sends its form, whose unit count is under `unitsRequested`, while the handler reads `units` (backend/controllers/Bloodrequest.controller.js:9-13) | any form that passes the page's checks, e.g. group "A+", one unit, all fields filled: answered 400 "Blood group and units are required" | the unit count sent under `units` | not executed | RequestForm.AsWrittenSubmissionRefused | RequestForm.CorrectedSubmissionAccepted |
| ui-ux/src/admin/Inventory.jsx:36 | the editor sends `{unitsAvailable}` with no `bloodGroup`, while the handler requires `bloodGroup` and `units` (backend/controllers/inventory.controller.js:20-22) | saving 12 units for any row: answered 400 "Blood group and units required" | the row's blood group and the count under `units` | not executed | StockLevel.AsWrittenSaveRefused | StockLevel.CorrectedSaveStores |
| backend/controllers/auth.controller.js:144 | `const {accessToken, newRefreshToken}` destructures a field the token helper does not return, so the refresh answer and cookie carry `undefined` while the stored token was rotated | any successful refresh: the next refresh with the old token is refused with 401 "Refresh token is expired or used" | the new refresh token returned and set | not executed | Accounts.RefreshAsWrittenStrandsClient | Accounts.RefreshChains |
