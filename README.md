# Account lockout, sessions and event-route decisions of MAGE server

This project models three pieces of the MAGE server in Dafny and proves properties of them.

- **Account lockout and recent events** (`service/src/models/user.js`, module `Users` in `users.dfy`).
  - `invalidLogin` runs a small state machine over the `security` record of a user's authentication. The record holds `invalidLoginAttempts`, `locked`, `lockedUntil` and `numberOfTimesLocked`. The machine is driven by the `accountLock` settings `{enabled, threshold, interval, max}`.
  - `validLogin` empties that record.
  - `addRecentEventForUser` keeps a most-recent-first, duplicate-free list of at most five event ids.
  - `getUsers` turns `limit` and `start` into a page request.
- **Session repository** (`service/src/ingress/sessions.adapters.db.mongoose.ts`, module `Sessions` in `sessions.dfy`, and the token format in `hex.dfy`).
  - A collection of session documents keyed by bearer token.
  - An upsert by (user, device) that issues a new token and expiry.
  - Lookup by token, single delete, and bulk deletes by user and by device.
- **Event routes** (`routes/events.js`, module `EventRoutes` in `events.dfy`).
  - `parseEventQueryParams` builds the request parameters and empties the choices of per-user form fields in place.
  - `validateEventAccess` and the GET `/api/events` handler make the permission decisions.

Shape of the model:

- The lockout state lives in the classes `Users.User` and `Users.Authentication`. `InvalidLogin` and `ValidLogin` update them in place and are proved against the pure transition `InvalidLoginOutcome`. The lemmas are about runs of failures.
- The session collection is a `seq` field of the class `Sessions.SessionsRepository`. MongoDB's `findOne`, `findOneAndUpdate`, `deleteOne` and `deleteMany` are the functions `FindFirst`, `UpsertOutcome`, `DeleteOne` and `DeleteMany`.
- Form fields are objects whose `choices` are cleared by a loop.

Inputs stand in for what the code gets from outside:

- The lockout settings come from the authentication configuration.
- The clock is `now`, in integer milliseconds.
- The SHA-256 digest of the random seed is a 32-byte input that is fresh with respect to the stored tokens.
- The caller's permissions are a set.
- The event-membership query answer is a boolean.

Behaviour of the code worth knowing:

- **Disabling.** The code disables an account when `numberOfTimesLocked + 1 >= max`. With `threshold = 3` and `max = 2`, the sixth consecutive failure disables the account (`Users.ThresholdThreeMaxTwo`). In general it is exactly the `threshold * max`-th failure (`Users.DisabledAfterThresholdTimesMax`).
- **Successful login.** `validLogin` sets `security = {}`, so it also clears `numberOfTimesLocked`.
- **Locking.** The lock branch replaces the record and drops `invalidLoginAttempts`.
- **Session expiry.** `readSessionByToken` does not check expiry. Expired documents disappear only through the database's time-to-live index, modelled as `PurgeExpired`.
- **Device-less refresh.** Without a device id, the upsert filter is the user alone. A device-less login may therefore refresh, and revoke the token of, a session opened from a device (`Sessions.DevicelessRefreshTakesDeviceSession`). Sessions without a device do not get a slot of their own. When a user holds several sessions, the device-less filter matches all of them and the database updates any one. Two consecutive device-less logins may therefore refresh two different sessions, and the first new token then stays valid (`Sessions.DevicelessRefreshesNeedNotRevoke`).

## Model

| member | source | states |
|---|---|---|
| Users.LockEnabled | service/src/models/user.js:179-181 | Missing settings default to `{}`, so the lockout is off. With settings present, the lockout is on exactly when `enabled` is set. |
| Users.InvalidLoginOutcome | service/src/models/user.js:177-206 | With the lockout off nothing changes. The account is never re-enabled. Below the threshold the attempt count rises by exactly one, `locked`/`lockedUntil` are cleared and the lock count is kept. At the threshold with lock budget left, the record becomes exactly {locked, lockedUntil = now + interval s, lock count + 1} with no attempt counter. With the budget spent, `enabled` becomes false and the record is empty. |
| Users.User.InvalidLogin | service/src/models/user.js:177-206 | The in-place update of `user.enabled` and `authentication.security` leaves the user in the state `InvalidLoginOutcome` gives for the old state. |
| Users.User.ValidLogin | service/src/models/user.js:208-211 | Whatever the prior state, the security record becomes empty, the lock count included, and `enabled` is unchanged. |
| Users.AfterFailures | service/src/models/user.js:177-206 | Over any run of failed logins, a switched-off lockout changes nothing and a disabled account stays disabled. |
| Users.FailuresBeforeDisable | service/src/models/user.js:184-203 | Start from an enabled account with an empty record and stay under threshold*max failures. The account stays enabled, and failures = lock count * threshold + attempts, with attempts < threshold. The record is locked exactly when a cycle of `threshold` failures has just completed, until `interval` seconds after that failure. |
| Users.DisabledAfterThresholdTimesMax | service/src/models/user.js:185-191 | An enabled account with an empty record is disabled exactly from the (threshold*max)-th consecutive failed login on. |
| Users.ThresholdThreeMaxTwo | service/src/models/user.js:184-198 | With threshold 3, interval 60 s and max 2, the third failure locks for 60 s, the fifth leaves the account enabled and the sixth disables it. |
| Users.IndexOf | service/src/models/user.js:241 | `indexOf` returns the first position holding the value, or -1 exactly when the value is absent. |
| Users.FirstOccurrences | service/src/models/user.js:240-242 | The `filter` with `indexOf(id) === index` keeps every value once, ordered by first occurrence, and loses none. |
| Users.DedupWithFront | service/src/models/user.js:236-242 | After `unshift` and the filter, the new id is first and appears once. The other entries are exactly the earlier ids, each once, in their original order. |
| Users.PrefixKeepsEarliest | service/src/models/user.js:244-247 | Cutting to five drops an id only when the result holds five, and only ids that come after every kept one. |
| Users.RecentEventIds | service/src/models/user.js:233-247 | The new list starts with the new event id. It has no duplicates, at most five entries, only ids from the old list besides the new one, and the earlier ids in their original relative order. An old id is dropped only when the list is full, and only if it came after every old id that was kept. |
| Users.CeilDiv | service/src/models/user.js:102 | `Math.ceil(start / limit)` is the least page index whose first record is not before `start`. |
| Users.PagingFor | service/src/models/user.js:98-108 | Paging is requested iff `limit` is present and positive. Then `pageSize = limit` and the total count is asked for. `pageIndex` is ceil(\|start\| / limit), with `start` defaulting to 0. |
| HexTokens.Hex | service/src/ingress/sessions.adapters.db.mongoose.ts:54 | `digest('hex')` writes two lower-case hex digits per byte. |
| HexTokens.UnhexHex | service/src/ingress/sessions.adapters.db.mongoose.ts:54 | Reading the hex text back gives the digest, so the encoding loses nothing. |
| HexTokens.HexInjective | service/src/ingress/sessions.adapters.db.mongoose.ts:53-54 | Distinct digests give distinct tokens. |
| HexTokens.TokenOf | service/src/ingress/sessions.adapters.db.mongoose.ts:53-54 | A token made from a SHA-256 digest is 64 lower-case hex characters and decodes back to the digest. |
| Sessions.ToSession | service/src/ingress/sessions.adapters.db.mongoose.ts:45-50 | The session handed out keeps every field of the stored document, so the document can be rebuilt from it. |
| Sessions.Matches | service/src/ingress/sessions.adapters.db.mongoose.ts:41 | A filter is equality on the fields it names. The empty filter matches every document, a token filter matches the document holding that token, and a device filter never matches a document without a device. |
| Sessions.CountMatching | service/src/ingress/sessions.adapters.db.mongoose.ts:75-82 | `deletedCount` is at most the collection size and is 0 exactly when no document matches. |
| Sessions.UpsertOutcome | service/src/ingress/sessions.adapters.db.mongoose.ts:59-65 | `findOneAndUpdate` with `upsert` and `new` returns a stored document with the new token and expiry, the filter's user, and satisfying the filter. An update keeps the collection's size and an insert adds exactly one document. |
| Sessions.UpsertQuery | service/src/ingress/sessions.adapters.db.mongoose.ts:55-58 | The upsert filter always names the user. It names the device iff a non-empty device id is given. |
| Sessions.FindFirst | service/src/ingress/sessions.adapters.db.mongoose.ts:41 | `findOne` finds nothing iff no document matches, and otherwise finds the first match. |
| Sessions.Lookup | service/src/ingress/sessions.adapters.db.mongoose.ts:40-51 | Null iff no document holds the token. Otherwise a document holding it, mapped to its token, expiration date, user and optional device. |
| Sessions.SessionsRepository.ReadSessionByToken | service/src/ingress/sessions.adapters.db.mongoose.ts:40-51 | Returns `Lookup` of the collection: null iff no document holds the token, and otherwise a session carrying that token. No expiry check is made. |
| Sessions.SessionsRepository.CreateOrRefreshSession | service/src/ingress/sessions.adapters.db.mongoose.ts:52-66 | The returned document carries the new hex token, `expirationDate = now + sessionTimeoutSeconds * 1000` and the user. If a document matches the filter, any one of them is updated in place. Otherwise one document is inserted. The uniqueness of tokens and of (user, device) pairs is kept. |
| Sessions.SessionsRepository.constructor | service/src/ingress/sessions.adapters.db.mongoose.ts:36-38 | A repository is bound to a collection that may already hold documents, and it keeps them as they are, with the given timeout. |
| Sessions.UpsertKeepsWellFormed | service/src/ingress/sessions.adapters.db.mongoose.ts:52-66 | With a fresh token, the upsert keeps every token a 64-digit hex digest, tokens unique, and (user, device) pairs unique. |
| Sessions.UpsertRotatesToken | service/src/ingress/sessions.adapters.db.mongoose.ts:64-65 | The new token finds the returned document. When a document was refreshed, its previous token finds nothing, the size is unchanged and every other document is untouched. Otherwise exactly one document is added and every other token finds what it found before. |
| Sessions.SecondRefreshRevokesFirst | service/src/ingress/sessions.adapters.db.mongoose.ts:52-66 | Two refreshes for the same user and device: the first token is no longer found, and the second token finds that user and device with the second expiry. |
| Sessions.DevicelessRefreshesNeedNotRevoke | service/src/ingress/sessions.adapters.db.mongoose.ts:55-65 | Take a user with one device session and one device-less session. Two consecutive device-less refreshes can update different documents, and afterwards the first new token still finds its session. |
| Sessions.DevicelessRefreshTakesDeviceSession | service/src/ingress/sessions.adapters.db.mongoose.ts:55-58 | Without a device id, the user's only session (one opened from a device) is the one refreshed. It keeps its device, and its old token stops working. |
| Sessions.DeleteOne | service/src/ingress/sessions.adapters.db.mongoose.ts:72 | `deleteOne` removes one matching document, or changes nothing when none matches. |
| Sessions.SessionsRepository.DeleteSession | service/src/ingress/sessions.adapters.db.mongoose.ts:67-74 | Returns the session the token found, or null. The collection loses exactly the document holding the token. |
| Sessions.DeleteSessionIdempotent | service/src/ingress/sessions.adapters.db.mongoose.ts:67-74 | After one delete the token finds nothing and a second delete changes nothing. The first delete removes exactly one document when the token was stored. |
| Sessions.DeleteOneKeepsWellFormed | service/src/ingress/sessions.adapters.db.mongoose.ts:72 | Removing one document keeps tokens and (user, device) pairs unique. |
| Sessions.DeleteMany | service/src/ingress/sessions.adapters.db.mongoose.ts:75-82 | `deleteMany` leaves no matching document, keeps every other document with its multiplicity, and removes exactly the counted number. |
| Sessions.SessionsRepository.DeleteSessionsForUser | service/src/ingress/sessions.adapters.db.mongoose.ts:75-78 | Removes exactly the documents of the user and returns their number. |
| Sessions.SessionsRepository.DeleteSessionsForDevice | service/src/ingress/sessions.adapters.db.mongoose.ts:79-82 | Removes exactly the documents of the device and returns their number. Documents without a device are kept. |
| Sessions.DeleteManyKeepsWellFormed | service/src/ingress/sessions.adapters.db.mongoose.ts:75-82 | Bulk deletion keeps tokens and (user, device) pairs unique. |
| Sessions.BulkDeleteLookups | service/src/ingress/sessions.adapters.db.mongoose.ts:75-82 | After a bulk delete, a token of a removed session finds nothing and every other token finds what it found before. |
| Sessions.SessionsRepository.PurgeExpired | service/src/ingress/sessions.adapters.db.mongoose.ts:29 | The time-to-live index removes exactly the documents whose expiration date has passed. |
| EventRoutes.ParseEventQueryParams | routes/events.js:26-54 | `complete` is false for a missing, empty or 'active' state, true iff the state is 'complete', and unset otherwise. `userId` is passed through. `populate` is false iff the query's `populate` is exactly 'false'. Every form field named in `userFields` gets empty choices and every other field is unchanged. |
| EventRoutes.ValidateEventAccess | routes/events.js:9-24 | Access is granted iff the caller has READ_LOCATION_ALL, or has READ_LOCATION_EVENT and belongs to the event. Otherwise the answer is 403. |
| EventRoutes.EventAccessMonotone | routes/events.js:9-24 | Adding permissions never takes location access away. |
| EventRoutes.ListEvents | routes/events.js:73-101 | With READ_EVENT_ALL the store's `getEvents` is called with no access restriction. Otherwise, with READ_EVENT_USER, the store's `getEvent` is called with the caller's id as the access filter. Otherwise the answer is 403. The filter keeps `complete` and `populate` as parsed, and carries `userId` iff it was given. |
| EventRoutes.ListingMonotone | routes/events.js:82-101 | Adding permissions never turns a listing into a 403, nor an unrestricted listing into a restricted one. |

## Left out

- Persistence: Mongoose `save`, `populate` and `findByIdAndUpdate` are not modelled. The new recent-event list is computed, not written back to the user document.
- The schema of the authentication record is not part of this model. An absent `invalidLoginAttempts` or `numberOfTimesLocked` reads as 0, its stored default. Without that default, JavaScript would compute `undefined + 1`.
- Users.PagingFor: `limit` and `start` are integers. JavaScript's coercion of query strings and of fractional or non-numeric values (`Math.abs` giving `NaN`) is not modelled.
- Users.User.InvalidLogin: the read-then-save race between concurrent failed logins is not modelled. Neither is the order of the two `save` calls in the disable branch. The operation is one atomic step.
- Sessions.SessionsRepository.CreateOrRefreshSession:
  - The random seed and SHA-256 are not modelled. The digest is an input, required to give a token no stored document holds.
  - The index at line 28, `{ token: 1, unique: 1 }`, is a compound index on `token` and a field named `unique`, not a uniqueness constraint. So the database would not reject a repeated token, and token uniqueness rests on the generator alone.
  - Populating the user's role on the returned document is left out.
  - The atomicity of `findOneAndUpdate` is not modelled. Each repository method is one atomic step.
- Sessions.SessionsRepository.constructor: documents already in the collection are assumed to be well formed. Their tokens are assumed to be 64 hex digits, unique, with at most one document per (user, device) pair. Documents written by other processes, or duplicates the non-unique index at line 28 would admit, are not covered by `Valid()`.
- Sessions.SessionsRepository.DeleteSession: the case where a concurrent delete removes the document between the read and `deleteOne` (the code then returns null) cannot arise in this sequential model.
- Sessions.SessionsRepository.PurgeExpired: the time-to-live monitor runs in the background at the database's pace. It is modelled as an explicit step that removes the documents whose expiration date is not after `now`.
- Conversion of hex ids to `ObjectId`, which throws on malformed ids, is not modelled. Ids are strings compared by value.
- EventRoutes: route registration, passport authentication, the event store calls themselves (`getEvents`, `getEvent`), the 403 response object and the `next(err)` error paths are outside the model. `req.param` is given as the value it finds.
