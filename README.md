# GigFlow marketplace core, modelled in Dafny

GigFlow is a freelance marketplace. Clients post gigs, freelancers bid on them, and the owner of a gig hires exactly one bidder. Hiring assigns the gig and rejects every other pending bid on it. This project models the core of the system:

- the Express backend: its controllers (authentication, gigs, bids), the document models (gig and bid schemas with their validators, virtuals and statics), the request-validation rules, the authentication middleware and the global error handler;
- the two Redux slices that hold the client's copy of gigs and bids.

## Structure

| file | module | flavour |
|---|---|---|
| `common.dfy` | `Common` | shared vocabulary: ids, `Option`, `Result`, error kinds and their status codes |
| `text.dfy` | `Text` | JavaScript string operations the server relies on (`trim`, `split`, `join`, capitalisation) |
| `listing.dfy` | `Listing` | the "sort by `createdAt` descending" order of every listing query |
| `bid_model.dfy` | `BidModel` | the bid schema, its unique index and `rejectOtherBids` |
| `gig_model.dfy` | `GigModel` | the gig schema, the `bids`/`bidCount` virtuals and `findOpenGigs` |
| `pagination.dfy` | `Pagination` | the page arithmetic of the gig listing |
| `validation.dfy` | `Validation` | the `express-validator` rule chains and `validate` |
| `error_handler.dfy` | `ErrorHandler` | `errorHandler` |
| `auth_middleware.dfy` | `AuthMiddleware` | `protect` and `optionalAuth` |
| `auth_controller.dfy` | `AuthController` | the parts of `register`, `login`, `logout` and `sendTokenResponse` that compute a value |
| `gig_update.dfy` | `GigUpdate` | the field-copying loop of `updateGig` and `findByIdAndUpdate` with validators |
| `store_rules.dfy` | `StoreRules` | each controller's checks as a function, the table invariant, and one lemma per write showing that the write keeps the invariant |
| `marketplace.dfy` | `Marketplace` | the class `Store`, whose tables the controllers read and update in place |
| `list_ops.dfy` | `ListOps` | the array operations the reducers use |
| `bid_slice.dfy` | `BidSlice` | the class `BidSliceState` and its reducers |
| `gig_slice.dfy` | `GigSlice` | the class `GigSliceState` and its reducers |

### The database

The database is one object, `Marketplace.Store`, with four fields:

- the three collections, as maps from id to document: `users`, `gigs` and `bids`;
- `nextId`, the id counter.

One counter hands out every id in creation order. Sorting by creation time, newest first, is therefore sorting by id, largest first.

Each controller that writes is a method of `Marketplace.Store`; the read-only ones (`GetBidsByGig`, `GetMyBids`, `GetGigs`, `GetGig`, `GetMyGigs` and `Login`) are functions of it. A writing controller first evaluates its check function from `StoreRules`:

- on `Fail`, it returns the error and leaves the store unchanged;
- on `Pass`, it performs exactly the source's writes.

Each route runs a validation chain before its controller, and a failing chain answers 400 through `Validation.Validate` without reaching the controller. `Store.GetGigs` includes its chain, `Validation.GigListErrors`. The other methods model the controller alone and take input that has already passed its chain:

- `Validation.RegisterErrors` runs before `Store.Register`;
- `Validation.LoginErrors` runs before `Store.Login`;
- `Validation.GigCreateErrors` runs before `Store.CreateGig`;
- `Validation.BidCreateErrors` runs before `Store.CreateBid`.

Every method keeps `Store.Valid()`. This invariant holds when all of these hold:

- e-mails are unique;
- the (gig, freelancer) index is unique;
- every hired bid belongs to a gig that is assigned to that bid's freelancer;
- no gig has two hired bids, and every assigned gig has one;
- open gigs are unassigned, and pending bids sit only on open gigs;
- every document satisfies its schema.

`StoreRules.AssignedIffOneHired` derives the central invariant of hiring: a gig is assigned exactly when exactly one of its bids is hired.

### The client

The client state of each slice is a class. Its list fields are reassigned by methods, one method per reducer case. The slices change list entries in place:

- the hire and update cases use `findIndex` and an indexed write;
- the hire case then uses `map`;
- the delete and withdraw cases use `filter`.

Each case is proved against a pure function (`BidSlice.AfterHire`, `ListOps.ReplaceFirst`, `ListOps.Filter`). Lemmas relate those functions:

- a repeated hire or delete changes nothing more;
- a delete undoes a create.

### Outside influences

Everything that comes from outside the core is a parameter:

- the regular-expression search of the database (`matches`);
- `jwt.verify` (`verify`, whose result is a `Verified` value);
- the password comparison of the user model (`comparePassword`);
- the `isEmail` and `isMongoId` checks of the validator library;
- JavaScript's number-to-text conversion and number parsing as mongoose applies them (`numberText`, `parseNumber`);
- the clock (`now`);
- the configured environment (`env`).

## Model

| member | source | states |
|---|---|---|
| Common.StatusCode | backend/src/utils/constants.js:11-20 | every error kind maps to a 4xx status except the unclassified error, which is the only 5xx |
| Text.TrimStartIsSuffix | backend/src/models/Gig.js:13 | dropping the leading white space leaves a suffix of the input |
| Text.TrimEndIsPrefix | backend/src/models/Gig.js:13 | dropping the trailing white space leaves a prefix of the input |
| Text.Trim | backend/src/models/Gig.js:13 | the result has no white space at either end and is no longer than the input |
| Text.TrimIsInfix | backend/src/models/Gig.js:13 | the result is the infix of the input that starts after its leading white space |
| Text.TrimOfTrimmed | backend/src/models/Gig.js:13 | a value without white space at its ends is left unchanged by `trim` |
| Text.TrimIdempotent | backend/src/models/Gig.js:13 | trimming twice is trimming once, and the result has no white space at its ends |
| Text.Split | backend/src/middleware/auth.js:22 | `split(' ')` yields at least one piece and no piece contains the separator |
| Text.SplitJoin | backend/src/middleware/auth.js:22 | joining the pieces with the separator gives the original header back |
| Text.SplitWithoutSeparator | backend/src/middleware/auth.js:22 | a string without the separator splits into itself alone |
| Text.SplitAfterHead | backend/src/middleware/auth.js:22 | a separator-free head followed by the separator is split off as the first piece |
| Text.Capitalize | backend/src/middleware/error.js:26 | same length; the first character is upper-cased and the rest is unchanged |
| Listing.NewestFirst | backend/src/controllers/bid.controller.js:72-74 | the result holds exactly the matching ids below the bound, strictly descending (newest first) |
| Listing.NewestFirstSameOnKept | backend/src/controllers/bid.controller.js:72-74 | a listing depends only on the documents its filter keeps |
| BidModel.SchemaErrors | backend/src/models/Bid.js:21-31 | no message exactly when the trimmed message is non-empty and at most 1000 characters and the price is at least 1; at most one message per path |
| BidModel.NewBid | backend/src/models/Bid.js:21-39 | the stored bid satisfies the schema, is pending, carries the given gig, freelancer and price, and its message is the trimmed message |
| BidModel.RejectOthers | backend/src/models/Bid.js:65-74 | the keys are kept; a bid changes exactly when it is a pending bid of the gig other than the hired one, and then only its status becomes rejected |
| BidModel.RejectOthersLeavesNoPending | backend/src/models/Bid.js:65-74 | afterwards no bid of the gig other than the hired one is pending |
| BidModel.RejectOthersIdempotent | backend/src/models/Bid.js:65-74 | running the bulk rejection twice is running it once |
| BidModel.RejectOthersKeepsPairs | backend/src/models/Bid.js:49 | the unique (gig, freelancer) index survives the bulk rejection |
| GigModel.TitleErrors | backend/src/models/Gig.js:10-15 | no message exactly when the trimmed title is non-empty and at most 100 characters |
| GigModel.DescriptionErrors | backend/src/models/Gig.js:16-21 | no message exactly when the trimmed description is non-empty and at most 2000 characters |
| GigModel.BudgetErrors | backend/src/models/Gig.js:22-26 | no message exactly when the budget is at least 1 |
| GigModel.SchemaErrors | backend/src/models/Gig.js:10-26 | no message exactly when all three path constraints hold on the trimmed values |
| GigModel.NewGig | backend/src/models/Gig.js:10-44 | the stored gig satisfies the schema, is open, unassigned and owned by the caller, keeps the budget, and its title and description are the trimmed inputs |
| GigModel.BidsOf | backend/src/models/Gig.js:60-65 | exactly the bids whose gig is this gig, unchanged |
| GigModel.BidCount | backend/src/models/Gig.js:67-73 | the count never exceeds the number of bids |
| GigModel.BidCountAfterNewBid | backend/src/models/Gig.js:67-73 | a new bid raises its own gig's count by one and leaves every other count unchanged |
| GigModel.BidCountSameGigs | backend/src/models/Gig.js:67-73 | changing bid statuses keeps every gig's count |
| GigModel.FindOpenGigs | backend/src/models/Gig.js:76-89 | exactly the open gigs matching the search (everything when the search is empty), newest first |
| Pagination.CeilDiv | backend/src/controllers/gig.controller.js:41 | the least page count whose pages hold all items |
| Pagination.Skip | backend/src/controllers/gig.controller.js:26 | the number skipped plus one page is `page * limit` |
| Pagination.Paginate | backend/src/controllers/gig.controller.js:39-46 | has a next page exactly when `page * limit < total`, has a previous page exactly when `page > 1`, and the page count is the ceiling of `total / limit` |
| Pagination.BeforeLastPage | backend/src/controllers/gig.controller.js:44 | `page < ceil(total / limit)` exactly when `page * limit < total` |
| Pagination.Window | backend/src/controllers/gig.controller.js:32-34 | at most `limit` items, taken consecutively from position `skip` |
| Pagination.WindowOfDescending | backend/src/controllers/gig.controller.js:32-34 | a page of a newest-first list holds only its items, still newest first |
| Pagination.ItemOnPage | backend/src/controllers/gig.controller.js:26-46 | every matching gig is shown on a page no later than the last page counted |
| Validation.Validate | backend/src/middleware/validate.js:7-14 | passes exactly when no rule failed; otherwise a 400 whose message is the failures joined by ". " |
| Validation.NameErrors | backend/src/middleware/validate.js:21-26 | no message exactly when the trimmed name is non-empty and at most 50 characters |
| Validation.EmailErrors | backend/src/middleware/validate.js:27-33 | no message exactly when the trimmed e-mail is non-empty and is an e-mail |
| Validation.PasswordErrors | backend/src/middleware/validate.js:34-38 | no message exactly when the untrimmed password has at least 6 characters |
| Validation.RegisterErrors | backend/src/middleware/validate.js:20-40 | registration input passes exactly when name, e-mail and password all pass |
| Validation.LoginErrors | backend/src/middleware/validate.js:41-51 | login input passes exactly when the e-mail passes and the password is non-empty |
| Validation.ShortPasswordOnlyRefusedAtRegister | backend/src/middleware/validate.js:34-49 | a non-empty password shorter than 6 characters is refused at registration and accepted at login |
| Validation.TitleErrors | backend/src/middleware/validate.js:59-64 | no message exactly when the trimmed title is non-empty and at most 100 characters |
| Validation.DescriptionErrors | backend/src/middleware/validate.js:65-70 | no message exactly when the trimmed description is non-empty and at most 2000 characters |
| Validation.AmountErrors | backend/src/middleware/validate.js:71-75 | no message exactly when the amount is a number of at least 1; an absent amount reports both messages |
| Validation.GigCreateErrors | backend/src/middleware/validate.js:58-77 | gig creation input passes exactly when title, description and budget all pass |
| Validation.GigListErrors | backend/src/middleware/validate.js:78-93 | each present query parameter must pass its rule: search at most 100 characters after trimming, page an integer of at least 1, limit an integer in 1..100 |
| Validation.SanitizedSearch | backend/src/middleware/validate.js:79-83 | an absent search stays absent; a present one becomes exactly its trimmed text, which has no white space at its ends and is no longer than before |
| Validation.GigIdErrors | backend/src/middleware/validate.js:101-105 | no message exactly when the gig id is non-empty and an object id |
| Validation.MessageErrors | backend/src/middleware/validate.js:106-111 | no message exactly when the trimmed message is non-empty and at most 1000 characters |
| Validation.BidCreateErrors | backend/src/middleware/validate.js:100-118 | bid input passes exactly when gig id, message and price all pass |
| Validation.MissingPriceReportsTwice | backend/src/middleware/validate.js:112-116 | a missing price adds both "Price is required" and "Price must be at least 1", after the other fields' messages |
| Validation.IdParamErrors | backend/src/middleware/validate.js:119-126 | a route id passes exactly when it is an object id; otherwise its single message |
| ErrorHandler.Reclassify | backend/src/middleware/error.js:17-44 | no rule applies exactly when the error is none of the five kinds; each of the five kinds maps to its status and message (a duplicate key to 409 "<Field> already exists" for the first key name), and a later rule overrides an earlier one |
| ErrorHandler.DuplicateMessage | backend/src/middleware/error.js:24-28 | "<Field> already exists" with the key name capitalised |
| ErrorHandler.Handle | backend/src/middleware/error.js:7-59 | never reports success; the status is the reclassified kind's status, else the error's own status code, else 500; the message is the replacing error's, else the thrown error's own, and "Internal Server Error" when that is empty; the stack trace (the replacing error's or the thrown one's) is sent exactly in development |
| ErrorHandler.ApiErrorPassesThrough | backend/src/middleware/error.js:47-51 | an error raised by a controller reaches the client with its own status and message |
| ErrorHandler.UnknownErrorIsInternal | backend/src/middleware/error.js:47-51 | an error without status code or message becomes 500 "Internal Server Error" |
| ErrorHandler.ValidationBeatsDuplicateKey | backend/src/middleware/error.js:24-35 | when two rules apply, the later validation rule decides the status (400) and the message |
| AuthMiddleware.HeaderToken | backend/src/middleware/auth.js:18-23 | a token is taken only from a header starting with "Bearer", and it is non-empty and free of spaces |
| AuthMiddleware.TokenOf | backend/src/middleware/auth.js:13-23 | a non-empty cookie token wins over the header; otherwise the header's token; an empty string is no token |
| AuthMiddleware.BearerHeaderYieldsToken | backend/src/middleware/auth.js:18-23 | "Bearer <token>", optionally followed by further words, yields exactly that token |
| AuthMiddleware.OtherSchemeIgnored | backend/src/middleware/auth.js:18-28 | a header with another scheme gives no token |
| AuthMiddleware.Protect | backend/src/middleware/auth.js:10-53 | lets the request through exactly when a token is present, decodes, and names an existing user, and then admits exactly the token's user; otherwise 401 "Not authorized to access this route" (no token), "Invalid token", "Token expired" or "User not found", and a not-yet-valid token is passed on as a 500 "jwt not active" |
| AuthMiddleware.OptionalAuth | backend/src/middleware/auth.js:59-84 | never fails; attaches a user exactly when `Protect` would let the request through, and the same user |
| AuthController.RoleOrDefault | backend/src/controllers/auth.controller.js:24 | an absent or empty role becomes "freelancer"; any other role is kept |
| AuthController.NewUser | backend/src/controllers/auth.controller.js:20-25 | the stored user has the given name, e-mail and password, and the given role when it is non-empty, else "freelancer" |
| AuthController.FindByEmail | backend/src/controllers/auth.controller.js:14 | finds a user exactly when one has the e-mail, and then the earliest such user |
| AuthController.Login | backend/src/controllers/auth.controller.js:36-55 | succeeds exactly when the user exists and the password matches; both failures give the same 401 "Invalid credentials" |
| AuthController.CookieExpireDays | backend/src/config/index.js:23 | a set, non-zero setting is used as it is; an unset or zero setting falls back to 7 days |
| AuthController.TokenCookie | backend/src/controllers/auth.controller.js:90-97 | expires the configured number of days from now, is HTTP-only, is secure exactly in production, and is same-site strict in production and lax elsewhere |
| AuthController.ToResponse | backend/src/controllers/auth.controller.js:100-106 | the public user carries id, name, e-mail, role and creation time, and no password |
| AuthController.SendTokenResponse | backend/src/controllers/auth.controller.js:85-119 | a success body with the public user, and the same token in the body and in the cookie |
| AuthController.RegisterResponse | backend/src/controllers/auth.controller.js:28 | a successful registration answers 201 "User registered successfully" with the public user and the token in the body and the token cookie |
| AuthController.LoginResponse | backend/src/controllers/auth.controller.js:54 | a successful login answers 200 "Login successful" with the public user and the token in the body and the token cookie |
| AuthController.LogoutCookie | backend/src/controllers/auth.controller.js:62-66 | the cookie is overwritten with "none", expires ten seconds from now and is HTTP-only |
| GigUpdate.AllowedUpdates | backend/src/controllers/gig.controller.js:119-126 | exactly the body's title, description and budget, with the body's values |
| GigUpdate.CollectUpdates | backend/src/controllers/gig.controller.js:119-126 | the loop over the allowed fields builds exactly `AllowedUpdates(body)` |
| GigUpdate.CastText | backend/src/controllers/gig.controller.js:128-131 | a string becomes its trimmed self, a number its trimmed decimal text, `null` is unset, and any other value fails to cast |
| GigUpdate.CastNumber | backend/src/controllers/gig.controller.js:128-131 | a number is kept; null and the empty string are unset; other text is set exactly when it parses; an object fails to cast |
| GigUpdate.BudgetCastErrors | backend/src/models/Gig.js:22-26 | the budget passes exactly when it failed to cast or is at least 1 |
| GigUpdate.ApplyUpdates | backend/src/controllers/gig.controller.js:128-131 | 404 "Resource not found" exactly when a supplied value cannot be cast; otherwise success exactly when every supplied path passes its validators, else 400; on success each supplied path holds its cast value (trimmed text for title and description) and every other path is unchanged; owner, status and assignee never change; a well-formed gig stays well-formed; an empty update changes nothing |
| StoreRules.AssignedIffOneHired | backend/src/controllers/bid.controller.js:121-138 | under the invariant, a gig is assigned exactly when exactly one of its bids is hired, and it is assigned to that bid's freelancer |
| StoreRules.CreateBidCheck | backend/src/controllers/bid.controller.js:14-43 | passes exactly when the gig exists, is open, is not the caller's own, has no bid from the caller, and the schema accepts the bid; 404 exactly for a missing gig and 409 exactly for a repeated bid |
| StoreRules.InsertBidKeepsConsistent | backend/src/controllers/bid.controller.js:38-43 | storing a well-formed pending bid under a fresh id, on an existing open gig with no bid from the same freelancer, keeps the invariant |
| StoreRules.CreateBidKeepsConsistent | backend/src/controllers/bid.controller.js:38-43 | a bid that passed the checks keeps the invariant |
| StoreRules.ViewBidsCheck | backend/src/controllers/bid.controller.js:59-69 | passes exactly for the owner of an existing gig; otherwise 404 for a missing gig, else 403 |
| StoreRules.HireCheck | backend/src/controllers/bid.controller.js:92-119 | passes exactly when the bid exists and is pending and its gig exists, is the caller's and is open; 404 and 403 each characterised exactly |
| StoreRules.HireGigs | backend/src/controllers/bid.controller.js:121-125 | the bid's gig becomes assigned to the bid's freelancer; every other gig is unchanged |
| StoreRules.HireBids | backend/src/controllers/bid.controller.js:127-138 | the bid becomes hired, each other pending bid of the gig becomes exactly itself with status rejected, so none of them stays pending; everything else is unchanged, and only statuses change |
| StoreRules.HireLeavesOneHired | backend/src/controllers/bid.controller.js:121-138 | after a hire on an open gig the hired bid is the only hired bid of that gig |
| StoreRules.HireKeepsBidRules | backend/src/controllers/bid.controller.js:121-138 | a hire keeps one bid per freelancer and gig and at most one hired bid per gig |
| StoreRules.HireKeepsLinks | backend/src/controllers/bid.controller.js:121-138 | after a hire every hired bid's gig is assigned to its freelancer, every assigned gig has a hired bid, and pending bids are only on open gigs |
| StoreRules.HireKeepsConsistent | backend/src/controllers/bid.controller.js:121-138 | a hire that passed its checks keeps the invariant and leaves the hired bid as the gig's only hired bid |
| StoreRules.SecondHireFails | backend/src/controllers/bid.controller.js:99-102 | any hire naming a bid of an already assigned gig fails with "This bid has already been processed" |
| StoreRules.WithdrawCheck | backend/src/controllers/bid.controller.js:184-198 | passes exactly for the bidder's own pending bid; 404 exactly when missing, 403 exactly when another user's |
| StoreRules.WithdrawKeepsConsistent | backend/src/controllers/bid.controller.js:200 | deleting a pending bid keeps the invariant |
| StoreRules.OwnOpenGigCheck | backend/src/controllers/gig.controller.js:102-116 | passes exactly for the owner of an existing open gig; 404 exactly when missing, 403 exactly when another user's |
| StoreRules.CreateGigCheck | backend/src/controllers/gig.controller.js:83-88 | passes exactly when the schema accepts the gig; otherwise 400 |
| StoreRules.InsertGigKeepsConsistent | backend/src/controllers/gig.controller.js:83-88 | storing a well-formed open, unassigned gig under a fresh id keeps the invariant |
| StoreRules.CreateGigKeepsConsistent | backend/src/controllers/gig.controller.js:83-88 | a new gig that passed the check keeps the invariant |
| StoreRules.UpdateGigKeepsConsistent | backend/src/controllers/gig.controller.js:128-131 | replacing an open gig by a well-formed open, unassigned gig keeps the invariant |
| StoreRules.DeleteGigKeepsConsistent | backend/src/controllers/gig.controller.js:141-158 | deleting an open gig keeps the invariant |
| StoreRules.RegisterCheck | backend/src/controllers/auth.controller.js:13-17 | passes exactly when no user has the e-mail; otherwise 409 |
| StoreRules.RegisterKeepsUsersValid | backend/src/controllers/auth.controller.js:13-25 | a registration that passed its check keeps e-mails unique |
| Marketplace.Store.CreateBid | backend/src/controllers/bid.controller.js:10-49 | on a failed check, the error and no change; otherwise exactly one new pending bid under a fresh id; the invariant is kept |
| Marketplace.Store.GetBidsByGig | backend/src/controllers/bid.controller.js:56-77 | for the owner, exactly the gig's bids, newest first; otherwise the check's error |
| Marketplace.Store.RejectOtherBids | backend/src/controllers/bid.controller.js:130-138 | the loop leaves the bid table equal to `RejectOthers` of the old table, and changes nothing else |
| Marketplace.Store.HireBid | backend/src/controllers/bid.controller.js:89-154 | on a failed check, the error and no change; otherwise the gig is assigned, the bid hired and the others rejected, and the updated bid and gig are answered; hired and rejected bids are never touched; the invariant is kept |
| Marketplace.Store.GetMyBids | backend/src/controllers/bid.controller.js:161-174 | exactly the caller's bids, newest first |
| Marketplace.Store.WithdrawBid | backend/src/controllers/bid.controller.js:181-203 | on a failed check, the error and no change; otherwise exactly that bid is deleted; the invariant is kept |
| Marketplace.Store.GetGigs | backend/src/controllers/gig.controller.js:9-49 | invalid query parameters give 400; a non-empty search the database cannot compile as a regular expression gives 500 with the database's message; otherwise at most `limit` open gigs matching the trimmed search, newest first, taken from position `(page-1)*limit` of all matches, with the pagination of all matches |
| Marketplace.Store.GetGig | backend/src/controllers/gig.controller.js:56-73 | the stored gig, or 404 "Gig not found" exactly when there is none |
| Marketplace.Store.CreateGig | backend/src/controllers/gig.controller.js:80-94 | a schema failure gives 400 and no change; otherwise exactly one new open gig owned by the caller; the invariant is kept |
| Marketplace.Store.UpdateGig | backend/src/controllers/gig.controller.js:101-134 | on a failed check, the error and no change; otherwise the result of the update, and only that gig is rewritten, only when the update succeeds; the invariant is kept |
| Marketplace.Store.DeleteGig | backend/src/controllers/gig.controller.js:141-161 | on a failed check, the error and no change; otherwise exactly that gig is removed and its bids stay; the invariant is kept |
| Marketplace.Store.GetMyGigs | backend/src/controllers/gig.controller.js:168-181 | exactly the caller's gigs, newest first |
| Marketplace.Store.Register | backend/src/controllers/auth.controller.js:10-29 | an e-mail in use gives 409 and no change; otherwise one new user under a fresh id; e-mails stay unique |
| Marketplace.Store.Login | backend/src/controllers/auth.controller.js:36-55 | succeeds exactly when a user has the e-mail and the password matches the earliest such user's, and then names that user; every failure is 401 "Invalid credentials" |
| ListOps.FindIndex | frontend/src/store/slices/bidSlice.js:136 | the first position satisfying the test, or -1 exactly when none does |
| ListOps.ReplaceFirst | frontend/src/store/slices/bidSlice.js:136-139 | same length; the first match is overwritten and every other position is unchanged |
| ListOps.ReplaceFirstIdempotent | frontend/src/store/slices/gigSlice.js:147-150 | replacing twice with the same matching entry is replacing once |
| ListOps.Filter | frontend/src/store/slices/bidSlice.js:154-155 | exactly the kept elements, no more than before |
| ListOps.FilterConcat | frontend/src/store/slices/bidSlice.js:154-155 | filtering keeps order: it distributes over concatenation |
| ListOps.FilterAllKept | frontend/src/store/slices/gigSlice.js:161-162 | a list whose elements all pass is unchanged, so filtering twice is filtering once |
| ListOps.Map | frontend/src/store/slices/bidSlice.js:141-146 | same length, each element transformed in place |
| BidSlice.AfterHire | frontend/src/store/slices/bidSlice.js:133-147 | length and ids are kept except at the replaced entry; the first entry with the hired id becomes the hired bid; every pending entry with another id becomes exactly that entry with status rejected, so none stays pending; later entries with the hired id and non-pending entries that were not replaced are unchanged |
| BidSlice.AfterHireIdempotent | frontend/src/store/slices/bidSlice.js:133-147 | delivering the same hire twice leaves the list as after the first |
| BidSlice.WithdrawUndoesCreate | frontend/src/store/slices/bidSlice.js:94-97 | withdrawing a just-created bid whose id was new gives the old list back |
| BidSlice.RejectionPayload | frontend/src/store/slices/bidSlice.js:19 | the server's non-empty message, else the request's fallback text |
| BidSlice.BidSliceState.constructor | frontend/src/store/slices/bidSlice.js:4-9 | empty lists, not loading, no error |
| BidSlice.BidSliceState.ClearError | frontend/src/store/slices/bidSlice.js:80-82 | only the error is cleared |
| BidSlice.BidSliceState.ClearBids | frontend/src/store/slices/bidSlice.js:83-85 | only the gig's bid list is emptied |
| BidSlice.BidSliceState.RequestPending | frontend/src/store/slices/bidSlice.js:90-93 | loading starts and the error is cleared; the lists are unchanged |
| BidSlice.BidSliceState.RequestRejected | frontend/src/store/slices/bidSlice.js:98-101 | loading stops and the error is the payload; the lists are unchanged |
| BidSlice.BidSliceState.CreateFulfilled | frontend/src/store/slices/bidSlice.js:94-97 | the new bid is appended to the gig's bids |
| BidSlice.BidSliceState.GetBidsByGigFulfilled | frontend/src/store/slices/bidSlice.js:107-110 | the gig's bids become the fetched list |
| BidSlice.BidSliceState.GetMyBidsFulfilled | frontend/src/store/slices/bidSlice.js:120-123 | the user's bids become the fetched list |
| BidSlice.BidSliceState.HireFulfilled | frontend/src/store/slices/bidSlice.js:133-147 | the gig's bids become `AfterHire` of the old list; the user's bids are unchanged |
| BidSlice.BidSliceState.WithdrawFulfilled | frontend/src/store/slices/bidSlice.js:153-156 | both lists lose every entry with the id and keep the rest in order; loading and error are unchanged |
| GigSlice.DeleteUndoesCreate | frontend/src/store/slices/gigSlice.js:136-140 | deleting a just-created gig whose id was new gives the old list back |
| GigSlice.DeleteIdempotent | frontend/src/store/slices/gigSlice.js:160-163 | deleting twice is deleting once |
| GigSlice.GigSliceState.constructor | frontend/src/store/slices/gigSlice.js:4-11 | empty lists, no gig on screen, no pagination, not loading, no error |
| GigSlice.GigSliceState.ClearError | frontend/src/store/slices/gigSlice.js:95-97 | only the error is cleared |
| GigSlice.GigSliceState.ClearCurrentGig | frontend/src/store/slices/gigSlice.js:98-100 | only the gig on screen is dropped |
| GigSlice.GigSliceState.RequestPending | frontend/src/store/slices/gigSlice.js:105-108 | loading starts and the error is cleared; the rest is unchanged |
| GigSlice.GigSliceState.RequestRejected | frontend/src/store/slices/gigSlice.js:114-117 | loading stops and the error is the payload; the rest is unchanged |
| GigSlice.GigSliceState.GetGigsFulfilled | frontend/src/store/slices/gigSlice.js:109-113 | the page and its pagination replace the old ones |
| GigSlice.GigSliceState.GetGigFulfilled | frontend/src/store/slices/gigSlice.js:123-126 | the fetched gig goes on screen |
| GigSlice.GigSliceState.CreateFulfilled | frontend/src/store/slices/gigSlice.js:136-140 | the new gig goes in front of both lists |
| GigSlice.GigSliceState.UpdateFulfilled | frontend/src/store/slices/gigSlice.js:146-158 | in both lists the first entry with the id is replaced; the gig on screen is replaced exactly when it has that id; loading is unchanged |
| GigSlice.GigSliceState.DeleteFulfilled | frontend/src/store/slices/gigSlice.js:160-163 | both lists lose every entry with the id and keep the rest in order; the gig on screen, loading and error are unchanged |
| GigSlice.GigSliceState.GetMyGigsFulfilled | frontend/src/store/slices/gigSlice.js:169-172 | the user's gigs become the fetched list |

## Left out

- Concurrency is not modelled. Each controller runs alone on the store. In particular, `hireBid` performs three separate writes (bid.controller.js:122-138), and two interleaved hires of one gig are not modelled.
- Only the writes of `populate` are modelled, not the joins. Responses carry ids and stored documents; the joined user names and e-mails are left out.
- Creation times are modelled by id order. `createdAt` is never stored; the listings sort by id, which agrees with creation order because one counter hands out every id.
- The regular-expression search, `jwt.verify`, password hashing and comparison, token generation (`generateAuthToken`), and the validator library's `isEmail`, `isMongoId`, `isFloat` and `isInt` are parameters or abstract values, not definitions.
- `normalizeEmail` is left out: the validation chain normalises the e-mail before handing it on, and the model treats that normalised e-mail as an opaque value.
- Handle: requires `Classifiable`, so a duplicate-key error (code 11000) without a key name is left out, and `Reclassify` has the same requirement. In the source, error.js:25-26 then throws a `TypeError` inside the handler itself (`Object.keys` of a missing `keyValue`, or `charAt` of an undefined field), and Express's own fallback handler answers 500 instead of this handler's JSON body.
- Malformed object ids in route parameters are left out. They reach the error handler as a `CastError` and become 404 "Resource not found"; in the model ids are natural numbers, so this path appears only through `ErrorHandler.Reclassify`.
- A decoded token whose id cannot be cast to an object id is left out. In the source, `protect` passes that error on; in the model the decoded id is always an id.
- `AuthMiddleware.Protect`: `jwt.verify`'s third error, `NotBeforeError`, is assumed to be passed on unchanged. It becomes a 500 with the library's message "jwt not active".
- User.js, ApiError.js, ApiResponse.js and asyncHandler.js are not part of this model. A controller's error is taken to carry its status code as an own property and a name outside the handler's five rule names.
- `GigUpdate.ApplyUpdates`: casting is simplified.
  - Booleans and arrays are not modelled.
  - `JsonOther` stands for any value the path cannot be cast from.
  - When several paths fail, the messages are assumed to come in schema path order (title, description, budget).
- Unicode is not modelled. Length is counted in `char`s rather than UTF-16 code units. `trim` strips the ASCII white space, the no-break space and the byte-order mark, but not the other Unicode space separators. Capitalisation of the duplicate-key field is ASCII-only.
- Money is a `real`. The IEEE double rounding of `price` and `budget` is left out.
- The async thunks and the client services are left out. They only issue the HTTP request and hand on either its data or the rejection payload (`BidSlice.RejectionPayload`). The reducers are modelled with the payload as a parameter.
- The update and delete gig cases and the withdraw bid case have no pending or rejected case in the slices, so a failure there leaves `isLoading` and `error` untouched.
- `logout` clears the token cookie, and `getMe` only reads the user. Neither touches the tables, so they are modelled only through `AuthController.LogoutCookie`.
- The hire checks run in the code's order (`StoreRules.HireCheck`): 404 for a missing bid, 400 for a processed bid, 404 for a missing gig, 403 for another user's gig, and 400 for a gig that is no longer open.
