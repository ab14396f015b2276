# SoundBoard server — a verified model

SoundBoard is a small web service. Users register and log in. They upload
short sound clips into an object-storage bucket, fetch clips through a
playback proxy, group clips into collections and mark clips as favorites.
This project models its HTTP API and its four document types in Dafny.

- `api.dfy` (module `Api`): optional request fields with JavaScript
  truthiness, the two configured limits (5 MB and 30 s), every error reply
  with its status code and message, and handler outcomes.
- `strings.dfy` (module `Strings`): the JavaScript string built-ins the
  server relies on. These are `trim`, `toLowerCase`, `startsWith`,
  `replace` with a string pattern, and `split('/').pop()`.
- `models.dfy` (module `Models`): the four document types and their
  defaults. It also holds the normalisation the schema setters apply, and
  the store invariant `Valid`, which the schemas, the unique indexes and
  the handlers' checks maintain.
- `auth.dfy` (module `Auth`): the required and optional bearer-token
  middlewares, registration and login. Token verification and password
  comparison are parameters.
- `media.dfy` (module `Media`): the upload-token guard, the storage delete
  that a sound removal requests, and the playback proxy's routing decision.
- `catalog.dfy` (module `Catalog`): the sound, collection and favorite
  handlers. Each is a function from the store before the request to the
  store after it plus the reply (`Step`). The lemmas that relate several
  handlers live here too.
- `server.dfy` (module `Server`): the server itself.
  - Class `Request` holds the header and the user that a middleware
    attaches in place.
  - Class `Store` holds the document maps and the id counter.
  - Each `Store` method takes its route's steps in the route's order. It
    changes the fields in place, and it is proved to give exactly the
    effect and reply of its `Catalog`/`Auth` function. `Register` is the
    exception: it takes the corrected steps, with the password hash
    awaited (see "## Findings").

Every record gets a fresh id from one counter, as ObjectIds are unique
across collections. Timestamps are a `now` parameter.

## Model

| member | source | states |
|---|---|---|
| Api.Present | server.js:80 | JavaScript truthiness of an optional string field, as tested by `!x` at server.js:41, 80, 118, 183, 286, 444 and 462: absent and empty are falsy |
| Api.Status | server.js:42-463 | every error reply is sent with 400, 401, 403, 404 or 500, and with 500 exactly for the failed registration save and the unconfigured upload token |
| Api.Message | server.js:42-463 | every error reply carries a non-empty `error` message |
| Api.LimitMessages | server.js:188-194 | the size and duration messages are built from the limits and read "5MB" and "30秒" |
| Strings.Trim | models.js:5-6 | `trim()` gives an infix of the input with no white space at either end, and everything it drops before and after that infix is white space |
| Strings.TrimIdempotent | models.js:5-6 | trimming twice is trimming once |
| Strings.ToLower | models.js:6 | `toLowerCase()` keeps the length, turns each upper-case ASCII letter into its lower-case letter and keeps every other character |
| Strings.StartsWithAtZero | server.js:446 | `startsWith` holds exactly when the first occurrence is at position 0 |
| Strings.ReplaceFirst | server.js:40 | `replace` with a string pattern leaves text without the pattern unchanged, and otherwise puts the replacement in place of the first occurrence only |
| Strings.IndexOf | server.js:40 | the position found is an occurrence of the pattern, and no occurrence comes earlier |
| Strings.Split | server.js:233 | splitting yields at least one piece, no piece holds the separator, and joining the pieces restores the string |
| Strings.LastSegment | server.js:233 | `pop()` of the split is a suffix with no '/', and it is the whole string or directly follows a '/' |
| Models.NewSound | models.js:12-21 | a new sound has the default icon 'fa-music', the caller as uploader, and the given fields |
| Models.NewCollection | models.js:24-31 | a new collection has the given name and description, no members, the caller as owner and the current time, and it is public only when `isPublic` is true |
| Models.NormalizeUsername | models.js:5 | the stored username has no surrounding white space, is no longer than the input, and is the input itself when that has none |
| Models.NormalizeEmail | models.js:6 | the stored email is no longer than the input, and is the input itself when that is already trimmed and lower-case |
| Models.NormalizeEmailIsNormal | models.js:6 | a stored email is trimmed and has no upper-case letter |
| Models.NormalizeEmailIdempotent | models.js:6 | normalising an email twice is normalising it once, so the unique index works on normalised emails |
| Models.Valid | models.js:5-41 | the store invariant, conjunct by conjunct: usernames and emails unique (the unique indexes, models.js:5-6); every user's username and email present, trimmed, and the email lower-case (models.js:5-6); no two favorites for one (user, sound) pair (the compound index, models.js:40-41); every sound with a url and within the size and duration limits, kept by the checks at server.js:183-195 and not by the schema, whose fields are optional and unbounded; every collection named (the schema's `required` at models.js:25, with the check at server.js:286); no collection listing a sound twice, kept by the `includes` check at server.js:333-335 and not by the schema's plain array at models.js:28, for ids in their canonical spelling (another spelling of a member's id escapes that check); every id below the counter, which is how the model hands out fresh ids |
| Models.Taken | server.js:89 | the `$or` lookup: some stored user has the username or the email |
| Models.WithinLimit | server.js:188-193 | an absent value, or one not above the limit, passes; `undefined > limit` is false in JavaScript |
| Models.HasFavorite | server.js:394 | `Favorite.findOne`: some favorite records this user and sound |
| Models.EmptyDbValid | models.js:1-48 | the empty store meets the invariant: unique, trimmed and required usernames and emails, lower-case emails, named and duplicate-free collections, and one favorite per pair |
| Auth.BearerToken | server.js:40 | no header gives no token; a header without "Bearer " is the token whole; otherwise the token is the header with its first "Bearer " cut out |
| Auth.BearerTokenStripsPrefix | server.js:40 | the header "Bearer &lt;t&gt;" yields exactly the token t |
| Auth.BearerTokenRawHeader | server.js:40 | a header that does not contain "Bearer " is taken whole as the token |
| Auth.RequiredAuth | server.js:38-56 | the result is 401 exactly in three cases: no token ("未登录"), a token that fails verification, or an unknown user; the handler runs exactly when the token verifies to an existing user, and that user is attached |
| Auth.OptionalAuth | server.js:59-73 | never rejects; attaches a user exactly when the required middleware would, and the same user |
| Auth.IssueSession | server.js:101-106 | the token's claims name the user and expire after 30 days; the profile is the user's id, username and email |
| Auth.ValidateRegistration | server.js:80-86 | passes exactly when all three fields are present and the password has at least 6 characters; a missing field gets "请填写完整信息", and otherwise a short password gets "密码至少6位"; both are 400 |
| Auth.Register | server.js:76-111 | validation failure, then 400 exactly when the normalised username or email is taken, then 500 when either normalises to the empty string; any failure leaves the store unchanged; on success exactly one normalised user is added under a fresh id and a session for it is issued; the invariant is preserved |
| Auth.RegisterAsWritten | server.js:95-110 | registration as written: the field and uniqueness checks reply as intended, and every request that passes them gets 500, with the store unchanged |
| Auth.RegisterAsWrittenRejectsFreshUser | server.js:95-110 | a fresh user on the empty store registers once the hash is awaited, but gets 500 as written |
| Auth.AddUserKeepsValid | models.js:5-6 | adding a well-formed user whose username and email are both free keeps the store invariant |
| Auth.AddUserKeepsUnique | models.js:5-6 | adding a user with a free username and email keeps both unique indexes |
| Auth.RegisterTwiceConflicts | server.js:88-92 | after a registration, registering the same username again gets 400 and changes nothing, whatever email is given |
| Auth.FindByEmail | server.js:122 | lookup by email (normalised by the schema setters) finds a user with that stored email, or reports that none has it |
| Auth.LoginAsWritten | server.js:114-142 | login as written: 400 for a missing field, 401 exactly when no user has the email, and otherwise a session for the user found, whatever the password |
| Auth.Login | server.js:114-142 | login with the comparison awaited: 400 for a missing field; the same 401 for an unknown email and for a wrong password; a session for the user with that email exactly when the password matches |
| Auth.RegistrationCanSucceed | server.js:76-106 | a registration with a present username, a present email and a six-character password succeeds on the empty store, so the lemmas that start from a successful registration are not vacuous |
| Auth.RegisteredUserIsFound | server.js:97-98 | after a registration, a lookup by the email just registered finds exactly the new user |
| Auth.LoginAfterRegister | server.js:127-137 | a registered user who gives the accepted password gets a session for their own account |
| Auth.LoginAsWrittenAcceptsWrongPassword | server.js:127-130 | as written, for any stored account, a non-empty password the check refuses still logs in to that account; with the comparison awaited, the same request gets 401 |
| Media.UploadToken | server.js:461-472 | 500 when any of the four storage settings is unset; otherwise a policy scoped to the bucket that expires in 3600 s, the domain, and maxSize 5 MB |
| Media.StorageKey | server.js:233 | the storage key holds no '/', ends the url, and is the whole url or directly follows its last '/' |
| Media.DeleteRequest | server.js:227-238 | a delete is requested exactly when the access key, secret key and bucket are set, for that bucket and the url's storage key |
| Media.UploadableImpliesDeletable | server.js:462-467 | a configuration that issues upload tokens also deletes stored files, in the bucket uploads go to |
| Media.Proxy | server.js:442-458 | 400 exactly without a url; the unchanged url as a 302 redirect exactly when it does not start with "http://"; 500 exactly when such a url cannot be fetched; otherwise 200 with the upstream Content-Type or 'audio/mpeg', and Cache-Control 'public, max-age=31536000' |
| Media.ProxyStatus | server.js:444-456 | the status each proxy reply is sent with: 400 for a missing url, 302 for the redirect, 200 for the streamed body and 500 for a failed fetch |
| Media.ProxyIgnoresUpstreamUnlessPlain | server.js:444-448 | the upstream is not consulted for a missing or non-"http://" url |
| Catalog.Without | server.js:359 | `filter` and `$pull` remove every occurrence of the sound and keep every other member as often as it occurs (the multiset of the list with the sound's count set to 0); no duplicates are introduced; a list without the sound is unchanged |
| Catalog.WithoutAppended | server.js:337-359 | removing a sound just appended to a list that lacked it restores the list |
| Catalog.AppendFresh | server.js:333-337 | pushing a non-member makes it occur exactly once and keeps the list duplicate-free |
| Catalog.CreateSound | server.js:179-212 | 400 without a name or url, then 400 for a size above 5 MB, then 400 for a duration above 30 s (values at the limit, and absent ones, pass); any failure leaves the store unchanged; otherwise one sound is added under a fresh id, built by `NewSound` from the request's name, url, color, duration and size, uploaded by the caller, with the default icon; the invariant is preserved |
| Catalog.UpdateSound | server.js:255-279 | 404 for an unknown id, then 403 for anyone but the uploader, neither changing the store; otherwise only name and color change, each only when given; the invariant is preserved |
| Catalog.PullFromCollections | server.js:245 | every collection keeps its id and fields, with the sound pulled from its list |
| Catalog.DropFavoritesOf | server.js:244 | exactly the favorites of other sounds remain, unchanged |
| Catalog.DeleteSound | server.js:215-252 | 404, then 403, neither changing the store; otherwise the storage delete is requested and the sound is removed; afterwards no favorite and no collection refers to it, every other sound, favorite and collection member is kept, users and the counter are unchanged, and the invariant is preserved |
| Catalog.PruneKeepsValid | server.js:241-245 | removing a sound together with its favorites and collection references keeps the invariant |
| Catalog.DeleteSoundIsFinal | server.js:241-245 | after a delete the sound is in no favorites list, and a second delete gets 404 |
| Catalog.CreateThenDeleteSound | server.js:179-252 | a sound created and then deleted by its uploader leaves the sounds and users as they were |
| Catalog.CreateCollection | server.js:282-303 | 400 without a name, changing nothing; otherwise one collection is added under a fresh id, built by `NewCollection` from the request's name, description and isPublic: empty, owned by the caller, public only if asked; the invariant is preserved |
| Catalog.ListOwnCollections | server.js:306-317 | lists exactly the caller's collections |
| Catalog.AddToCollection | server.js:320-345 | 404, then 403, then 400 for a sound already in the list, none changing the store; otherwise the sound is appended exactly once and nothing else changes; the invariant is preserved |
| Catalog.RemoveFromCollection | server.js:348-367 | 404, then 403, neither changing the store; otherwise the sound is no longer in the list and every other member is kept; the invariant is preserved |
| Catalog.RemoveFromCollectionIdempotent | server.js:348-367 | removing a sound twice has the effect and the reply of removing it once |
| Catalog.AddThenRemove | server.js:320-367 | removing a sound just added to a collection restores the store |
| Catalog.DeleteCollection | server.js:370-387 | 404, then 403, neither changing the store; otherwise only that collection is removed; the invariant is preserved |
| Catalog.SaveFavorite | models.js:40-41 | the unique index refuses a save exactly when the pair already has a favorite, so a save never breaks it |
| Catalog.AddFavorite | server.js:390-410 | 400 "已收藏" exactly when the pair already has a favorite, from the pre-check or the index, changing nothing; otherwise exactly one favorite is added; the invariant is preserved |
| Catalog.FavoriteTwice | server.js:394-407 | a second favorite of the same pair gets 400 and leaves the store as the first left it |
| Catalog.RemoveFavorite | server.js:413-425 | always succeeds; afterwards the pair has no favorite, every other favorite is kept, and the invariant is preserved |
| Catalog.RemoveFavoriteAtMostOne | server.js:415-418 | under the unique index, an unfavorite removes at most one record |
| Catalog.AtMostOnePair | models.js:40-41 | under the unique index a pair has at most one favorite |
| Catalog.FavoriteThenUnfavorite | server.js:390-425 | unfavoriting a sound just favorited restores the favorites |
| Catalog.ListFavorites | server.js:428-439 | lists exactly the sounds the caller has favorited |
| Catalog.ListSounds | server.js:154-176 | lists every sound unchanged; with no caller, no sound is flagged as a favorite |
| Server.Request.constructor | server.js:40 | a new request carries its header and no user |
| Server.Request.Authenticate | server.js:38-56 | on 401 the user is left as it was; otherwise the user is attached, as `RequiredAuth` decides |
| Server.Request.AuthenticateIfPresent | server.js:59-73 | attaches the user `OptionalAuth` finds, and otherwise leaves the request as it was |
| Server.Store.constructor | models.js:43-46 | the store starts empty and valid |
| Server.Store.Register | server.js:76-111 | the corrected registration named in "## Findings", with the hash awaited: the new store and the reply are those of `Auth.Register`; the invariant is preserved |
| Server.Store.SaveUser | server.js:97-98 | `user.save()` stores the new user under the next fresh id and changes nothing else |
| Server.Store.CreateSound | server.js:179-212 | the new store and the reply are those of `Catalog.CreateSound`; the invariant is preserved |
| Server.Store.UpdateSound | server.js:255-279 | the new store and the reply are those of `Catalog.UpdateSound`; the invariant is preserved |
| Server.Store.DeleteSound | server.js:215-252 | the new store and the reply are those of `Catalog.DeleteSound`; after success nothing refers to the sound; the invariant is preserved |
| Server.Store.CreateCollection | server.js:282-303 | the new store and the reply are those of `Catalog.CreateCollection`; the invariant is preserved |
| Server.Store.AddSoundToCollection | server.js:320-345 | the new store and the reply are those of `Catalog.AddToCollection`; the invariant is preserved |
| Server.Store.RemoveSoundFromCollection | server.js:348-367 | the new store and the reply are those of `Catalog.RemoveFromCollection`; the invariant is preserved |
| Server.Store.DeleteCollection | server.js:370-387 | the new store and the reply are those of `Catalog.DeleteCollection`; the invariant is preserved |
| Server.Store.AddFavorite | server.js:390-410 | the new store and the reply are those of `Catalog.AddFavorite`; the invariant is preserved |
| Server.Store.RemoveFavorite | server.js:413-425 | the new store and the reply are those of `Catalog.RemoveFavorite`; the invariant is preserved |

## Left out

- Express wiring is not modelled: CORS, JSON body parsing, static files, `app.listen`, the database connection and console logging. These are plumbing and I/O.
- Token signing and verification are not modelled. Verification is the `Verifier` parameter: it gives the user id or reports a throw. A verified token for a deleted user is the `UserNotFound` case.
- Password hashing is not modelled, and the password field is not stored. `Login` takes the awaited comparison as the `PasswordCheck` parameter.
- Auth.Register models registration with the hash awaited, the evidently intended behaviour. As written, the hash at server.js:95 is not awaited, so the save fails; `Auth.RegisterAsWritten` models that (see "## Findings").
- The object-storage SDK is left out. The upload token is modelled as the policy and the access key it carries; the HMAC signature under the secret key is not modelled. The file delete is the `StorageDelete` request. The delete is not awaited and its failure is only logged, so it never affects the reply.
- The proxy's upstream fetch and streaming are left out. `Upstream` stands for the fetch result. The upstream status code is not forwarded, and the body is not modelled.
- Database errors are not modelled, so the generic 500 replies in the catch blocks are absent, including those from malformed ids. The exceptions are the empty-after-trim registration and the failed save of `Auth.RegisterAsWritten`.
- Concurrent requests are not modelled, including races on the unique indexes. Requests run one at a time. The favorite index is the `DuplicateKey` result of `SaveFavorite`.
- `populate` and sorting by `createdAt` are left out: list results are maps and sets of ids, not ordered arrays of populated records.
- Catalog.ListFavorites: returns the set of favorited sound ids. It does not model the populated sound records, the `null` entries for deleted sounds, or their order.
- Catalog.ListSounds: `isFavorite` is stated only for a request with no logged-in user. With a user, line 168 compares ids from `distinct` against a string, and the outcome of that comparison is not settled here.
- Catalog.RemoveFavorite: models `findOneAndDelete` as removing every favorite of the pair. Under the unique index there is at most one (`Catalog.RemoveFavoriteAtMostOne`), so this is the same.
- The body fields are assumed to have the expected JSON types: `username`, `email`, `password`, `name`, `url`, `color` and `description` are strings or absent, `isPublic` a boolean, `duration` and `size` numbers, and `soundId` an id. A value of another type, such as a numeric password that has no `.length` and so passes server.js:84, is not modelled. A missing `soundId` is not modelled.
- Sizes and durations are real numbers. JavaScript's `>` comparison with an absent value is false; `WithinLimit` models that.
- `toLowerCase` is modelled on ASCII letters only. String lengths count characters, not UTF-16 code units.
- `GET /api/auth/me` (server.js:145-151) is not modelled. It only echoes the attached user's public fields.
- The `createdAt` defaults are the `now` parameter.
- Ids are modelled in their canonical (lower-case hex) spelling. Two checks compare ids as strings: `includes` at server.js:333 and the `filter` at server.js:359. So a path or body id spelled otherwise (say in upper case) is neither found nor removed there. Elsewhere the id is cast before comparison (`findById`, `$pull` at server.js:245, `deleteMany` at server.js:244, `Favorite.findOne` at server.js:394).
- Catalog.AddToCollection: with an id in another spelling, the `includes` check misses an existing member and the push stores it a second time; the model's 400 for a repeated sound and its no-duplicates invariant hold for canonical ids only.
- Catalog.RemoveFromCollection: with an id in another spelling, the `filter` keeps the member and the route still replies success; the model's removal holds for canonical ids only.
- Proxy: `res.redirect` at server.js:447 percent-encodes the `Location` header (spaces, non-ASCII text), and in Express 4 the url `back` redirects to the Referer instead; the model sends the url as given.
- UpdateSound: a field missing from the request is left unchanged. This is how current Mongoose (version 6 and later) treats an `undefined` value in `findByIdAndUpdate` (server.js:268-272). Under Mongoose 5 such a field would be set to null, and the model does not cover that.

## Findings

| source | as written | input that shows it | evidently intended | confidence | as-written member | corrected member |
|---|---|---|---|---|---|---|
| server.js:95-98 | `bcrypt.hash` is not awaited, so the password field gets a pending promise; Mongoose's string cast refuses it and `user.save()` rejects | any registration that passes the field and uniqueness checks, such as "alice", "a@x.com", "secret" on an empty store: the reply is 500 "注册失败" | await the hash, store the user and issue a session | medium (not executed) | Auth.RegisterAsWritten, Auth.RegisterAsWrittenRejectsFreshUser | Auth.Register |
| server.js:127-130 | `bcrypt.compare` is not awaited, so `isValid` is a pending promise, which is always truthy | an email of an account already in the database with any non-empty wrong password: the login succeeds and returns a token for that account (registration as written stores no account, see the row above) | await the comparison and reply 401 "邮箱或密码错误" when it fails | high (not executed) | Auth.LoginAsWritten, Auth.LoginAsWrittenAcceptsWrongPassword | Auth.Login |
