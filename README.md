# Connectify server: a Dafny model of its request pipeline and record rules

This project models the decision logic of the Connectify social-network server (Express and Mongoose),
and proves properties of it. It covers:

- **the response cache** (`middleware/cache.js`). A process-wide map from `"__express__" + originalUrl`
  to `{data, expiry}`. GET requests read it with a strict `expiry > now` test. The first `res.json`
  after a miss writes through to it. `clearCache` deletes by substring, and a periodic sweep drops
  expired entries. Modelled as the class `ResponseCache.Cache`, with the current time as a parameter.
- **the token gate** (`middleware/auth.js`). OPTIONS requests bypass it. Otherwise the first
  `"Bearer "` is removed from the Authorization header and the rest is checked by a verification
  oracle, which stands in for `jwt.verify`.
- **the post controller** (`controllers/posts.js`):
  - the like toggle on a post document's `likes` map (the class `Posts.PostDocument`);
  - the skip/limit/`totalPages` arithmetic of the feed handlers, and the `getPaginationParams`
    helper, which the file defines but never calls;
  - `createPost`: a user lookup, then a save raced against a 5000 ms timer inside a MongoDB client
    session. The session is the class `Posts.Session`, with states none, starting, in progress,
    committed and aborted.
- **the auth controller** (`controllers/auth.js`). `register` and `login` over a users collection keyed
  by stored email. bcrypt and JWT signing are oracles. `register` also exists as a method of the class
  `AuthController.UserStore`.
- **the pipeline policy of `index.js`**: the CORS origin callback, the image-only upload filter, the
  final error handler's status mapping, and `verifyToken` running before `cacheMiddleware(300)`.
- **the migration script** (`scripts/migrate.js`). The per-user and per-post rewrites, and the two
  loops that save each record and count the successful saves.

The JavaScript string built-ins these rely on are modelled in `JsString`: `trim`, `toLowerCase`
(ASCII letters only), `indexOf`, `includes`, `replace` with a string pattern, `split` on one
character, and `parseInt` without a radix (section 19.2.5 of ECMA-262). `Wrappers` holds `Option`,
and `Http` holds the request record.

Behaviour of the code worth knowing:

- Every token the verifier refuses, expired or forged, gets the one answer "Invalid token".
- The gate removes the first `"Bearer "` wherever it occurs in the header, keeps any other white
  space, and is case-sensitive.
- The cache key is the URL alone. It is not scoped to the user, so an admitted user can be served
  another user's cached response.
- Nothing invalidates the cache after a write. `clearCache` is imported by the post controller but
  never called.
- The routes pass `300` as the TTL, and the middleware reads it as milliseconds.
- `createPost` returns 404 for an unknown user after starting a transaction that `endSession` then
  aborts.

Two quirks of the code as written are proved:

- The controllers build two different keys from an email. `register` stores
  `email.toLowerCase().trim()`, while both handlers look up `email.toLowerCase()`. Over that
  lookup key, an email typed with surrounding spaces misses the duplicate check (the unique index
  then makes the save fail with 500, not 400), and it cannot log in as typed. The lemmas are about
  the key the controllers write. Mongoose may also apply the schema's `lowercase` and `trim`
  setters to query filters (models/User.js:20-27), and then the server would find such a user.
- If the "latest posts" query fails after the commit, the catch block calls `abortTransaction` on a
  committed transaction. That call rejects, so no response is sent (`Unanswered`).

## Model

| member | source | states |
|---|---|---|
| ResponseCache.CacheKey | middleware/cache.js:10 | the key is the prefix `__express__` followed by the original URL and nothing else |
| ResponseCache.CacheKeyInjective | middleware/cache.js:10 | two requests share a key exactly when their URLs are equal |
| ResponseCache.SharedAcrossUsers | middleware/cache.js:10-15 | requests with the same method and URL get the same cache decision, whoever sends them |
| ResponseCache.Decide | middleware/cache.js:4-25 | only GETs consult the cache; a hit serves the data stored under the request's key; a miss carries that key and finds no live entry |
| ResponseCache.HitIffUnexpired | middleware/cache.js:11-15 | a GET is a hit iff its entry exists with `expiry > now`; a hit serves the stored data; an expired entry behaves as no entry |
| ResponseCache.ServedUntilExpiry | middleware/cache.js:13-24 | a body written through at `t0` is served to GETs of the same URL before `t0 + duration` and is a miss from then on |
| ResponseCache.LastWriterWins | middleware/cache.js:17-24 | a second write-through to a key replaces the first entirely |
| ResponseCache.Cleared | middleware/cache.js:29-35 | a key survives `clearCache` iff it is not matched (a falsy pattern matches all, otherwise substring match); survivors keep their entries |
| ResponseCache.ClearIdempotent | middleware/cache.js:29-35 | clearing twice with one pattern equals clearing once |
| ResponseCache.ClearAll | middleware/cache.js:31-32 | a falsy pattern empties the cache |
| ResponseCache.Swept | middleware/cache.js:38-45 | the sweep keeps exactly the entries with `expiry > now`, unchanged |
| ResponseCache.SweepInvisible | middleware/cache.js:38-45 | no lookup at `now` or later sees the difference the sweep makes |
| ResponseCache.Cache.constructor | middleware/cache.js:1 | the cache starts empty |
| ResponseCache.Cache.Handle | middleware/cache.js:4-27 | non-GET passes through; a hit returns the stored body and `next` is not reached; a miss carries the request's key; the cache is only read |
| ResponseCache.Cache.Respond | middleware/cache.js:17-24 | the patched `res.json` stores `{body, now + duration}` under the key, whatever the status (not an input), and sends the body unchanged |
| ResponseCache.Cache.Clear | middleware/cache.js:29-35 | the loop over the keys leaves exactly `Cleared` of the old map |
| ResponseCache.Cache.Sweep | middleware/cache.js:38-45 | the loop over the keys leaves exactly `Swept` of the old map |
| TokenGate.VerifyToken | middleware/auth.js:3-31 | `next()` runs without a user exactly for OPTIONS; any other admitted request carries the claims the verifier gave for its stripped token |
| TokenGate.OptionsBypass | middleware/auth.js:6-8 | OPTIONS requests go to `next` with no user, whatever their header |
| TokenGate.StripLeadingScheme | middleware/auth.js:10 | a header that begins with `Bearer ` loses exactly that prefix |
| TokenGate.DoubleScheme | middleware/auth.js:10 | only the first scheme is removed: `Bearer Bearer t` gives `Bearer t` |
| TokenGate.SchemeNotAnchored | middleware/auth.js:10 | the scheme is cut out of the middle of a header too |
| TokenGate.SchemeCaseSensitive | middleware/auth.js:10 | a lower-case `bearer ` is not removed |
| TokenGate.StripEmptyIff | middleware/auth.js:10-12 | the stripped token is empty exactly for the empty header and the bare scheme |
| TokenGate.MissingTokenIff | middleware/auth.js:10-17 | a non-OPTIONS request gets "No authentication token" with its path and method iff its header is absent, empty or the bare scheme |
| TokenGate.UserOnlyFromOracle | middleware/auth.js:20-23 | `req.user` is set only to the claims the verifier returned for the stripped token |
| TokenGate.RejectedTokenIsInvalid | middleware/auth.js:24-31 | a token the verifier refuses gets "Invalid token", and only then |
| TokenGate.DoubleSchemeReachesOracle | middleware/auth.js:10-31 | a double-prefixed header is verified as `Bearer ` followed by the token |
| Posts.Toggled | controllers/posts.js:123-129 | a toggle flips whether the user likes the post, never stores `false` for them, and changes no other user's entry |
| Posts.ToggleTwice | controllers/posts.js:123-129 | two toggles restore the map when the entry was `true` or absent; a stored `false` ends up removed |
| Posts.PostDocument.constructor | controllers/posts.js:122 | the loaded document holds the stored likes |
| Posts.PostDocument.ToggleLike | controllers/posts.js:123-129 | the in-place update leaves `Toggled` of the old map |
| Posts.LikePost | controllers/posts.js:118-140 | a missing post gets 404 with the null-read message and no update; otherwise only that post's likes change, and the response is the updated post |
| Posts.Paginate | controllers/posts.js:144-149 | page at least 1, limit between 1 and 50, skip is (page−1)·limit; NaN and 0 default to page 1 and limit 10; out-of-range values are clamped |
| Posts.GetPaginationParams | controllers/posts.js:144-149 | for any query strings: page at least 1, limit between 1 and 50, skip (page−1)·limit; absent or unparsable values give page 1 and limit 10; a parsed page of at least 1 and a parsed limit in 1..50 are kept |
| Posts.PaginationOfNumerals | controllers/posts.js:144-149 | query strings that are decimal numerals in range come back as those numbers |
| Posts.Insert | controllers/posts.js:71 | inserting into a newest-first list keeps it sorted and adds exactly one element |
| Posts.SortNewestFirst | controllers/posts.js:71 | the result is sorted by descending `createdAt` and is a permutation of the input |
| Posts.Window | controllers/posts.js:72-73 | skip and limit return the `min(limit, n−skip)` elements from position `skip` on, in order |
| Posts.CeilDiv | controllers/posts.js:82 | the result is the least page count whose pages hold all posts |
| Posts.FeedOf | controllers/posts.js:63-84 | at most `limit` posts, newest first, drawn from the collection from position `skip` of the sorted order; totals and page echoed |
| Posts.PastLastPage | controllers/posts.js:66-82 | the skip reaches past the last post iff page > ceil(total/limit) |
| Posts.EmptyPastLastPage | controllers/posts.js:63-84 | a feed page is empty exactly when its number exceeds `totalPages` |
| Posts.PostsOf | controllers/posts.js:97 | the user filter keeps exactly that user's posts |
| Posts.GetUserPosts | controllers/posts.js:91-110 | the page is the feed page (newest first, from `skip`, at most `limit`) over that user's posts only: every post belongs to the user, the total counts only theirs, `totalPages` is its ceiling over `limit` |
| Posts.Session.constructor | controllers/posts.js:8 | a new session has no transaction and is not ended |
| Posts.Session.StartTransaction | controllers/posts.js:9 | starting opens a transaction |
| Posts.Session.Write | controllers/posts.js:37 | a write inside an open transaction leaves it in progress |
| Posts.Session.Commit | controllers/posts.js:43 | committing an open transaction marks it committed |
| Posts.Session.Abort | controllers/posts.js:54 | abort succeeds iff a transaction is open; otherwise it rejects and changes nothing |
| Posts.Session.End | controllers/posts.js:58 | ending aborts a transaction still open and marks the session ended |
| Posts.NewPost | controllers/posts.js:24-34 | the new post takes its owner from the body, names/location/picture from the user, the trimmed body description (absent stays absent), an empty likes map, no comments, the store's id and the creation time |
| Posts.CreatePost | controllers/posts.js:7-60 | the session is always ended and never left open; the post is stored iff the lookup succeeds, the user exists and the save beats the 5000 ms timer; 404, 500, 201 with the latest posts, or no response, each case stated |
| AuthController.DaySpanMs | controllers/auth.js:42-44 | a span read as `<digits>d` is a whole, non-negative number of days in milliseconds |
| AuthController.SignedLifetimeIsReported | controllers/auth.js:42-49 | the `"7d"` the token is signed with is exactly the `expiresIn` of 604800000 ms the response reports |
| AuthController.LookupKey | controllers/auth.js:20 | the lookup key keeps the email's length, lower-cases each character and contains no capital |
| AuthController.WithoutPassword | controllers/auth.js:80 | the public user carries every field of the record except the password |
| AuthController.Registration | controllers/auth.js:6-55 | no email gives 500; an existing lower-cased email gives 400 "User already exists"; a missing name or password gives 500; otherwise registration succeeds iff the record saves (required fields non-empty, every friend id an ObjectId) and its stored email is free, else 500; failures store nothing; success inserts one record under the trimmed lower-cased email, with trimmed names and hashed password, and returns 201 with the password-free user and a token signed for `"7d"` |
| AuthController.RegistrationInserts | controllers/auth.js:28-41 | a successful registration inserts exactly the new record under its stored email |
| AuthController.StoredEmailNormal | controllers/auth.js:31 | the stored email is trimmed and lower-case |
| AuthController.RegistrationKeepsNormalised | controllers/auth.js:20-41 | registration keeps every key non-empty, equal to its record's email, trimmed and lower-case |
| AuthController.UserStore.constructor | controllers/auth.js:6 | the store starts empty and normalised |
| AuthController.UserStore.Register | controllers/auth.js:20-41 | the in-place insert yields exactly `Registration`'s response and collection and keeps the store normalised |
| AuthController.Login | controllers/auth.js:58-95 | a missing or empty email or password gives 400 "Email and password are required"; otherwise login succeeds iff the lower-cased email is stored and the comparison accepts the password, answered with 200, the password-free user and a token signed for `"7d"`, and every other refusal is "Invalid credentials" |
| AuthController.SameRefusalForUnknownAndWrongPassword | controllers/auth.js:71-78 | an unknown email and a wrong password get the identical 400 "Invalid credentials" |
| AuthController.UnknownEmailRefused | controllers/auth.js:67-73 | an email whose lookup key is not stored is refused with "Invalid credentials" |
| AuthController.LoginWithStoredEmail | controllers/auth.js:67-90 | a stored user logging in with the stored email and an accepted password gets 200 with its password-free record |
| AuthController.SpacedKeyAbsent | controllers/auth.js:67 | the lookup key of an email with surrounding white space is never a stored key |
| AuthController.SpacedEmailCannotLogIn | controllers/auth.js:20-72 | an email registered with surrounding white space cannot log in as typed |
| AuthController.SpacedDuplicateIsServerError | controllers/auth.js:20-53 | re-registering an existing email with surrounding white space gets 500, not 400 |
| Pipeline.AllowedOrigins | index.js:64-69 | the list is the variable split on commas with nothing trimmed; the four defaults only when it is unset |
| Pipeline.CorsOrigin | index.js:63-80 | no Origin or development mode allows; otherwise an origin is allowed iff it is exactly in the list, and any other gets "Not allowed by CORS" |
| Pipeline.SpaceAfterCommaDenies | index.js:64-80 | with a space after the comma, the second listed origin is refused |
| Pipeline.EmptyVariableAllowsNone | index.js:64-80 | a variable set to the empty string allows no origin |
| Pipeline.DefaultsWhenUnset | index.js:64-80 | an unset variable allows exactly the four default origins |
| Pipeline.FileFilter | index.js:129-134 | a file is accepted iff its mimetype starts with `image/`; otherwise "Only images are allowed" |
| Pipeline.FileFilterExamples | index.js:130 | the prefix test is case-sensitive |
| Pipeline.ClassifyError | index.js:177-186 | a message containing "CORS" gives 403 "CORS Error"; otherwise status `err.status` or 500 and error `err.message` or "Internal Server Error" |
| Pipeline.CorsDenialIs403 | index.js:177-182 | a refused origin reaches the client as 403 |
| Pipeline.UploadRejectionIs500 | index.js:184-186 | a refused upload reaches the client as 500 with the filter's message |
| Pipeline.GateBeforeCache | index.js:146-147 | a request the gate refuses never depends on the cache; an admitted one sees the cache's own decision |
| Pipeline.SharedAcrossAdmittedUsers | index.js:146 | after one user's GET fills a URL's entry, any other admitted user's GET of that URL within 300 ms gets the same body |
| Pipeline.RouteEntryExpires | index.js:146 | a route entry is a miss from 300 ms after it was written |
| Pipeline.ServeProtected | index.js:146-147 | running the gate and then the cache gives `Protected`, and the cache is reached only after the gate admits |
| Migrate.MigrateUser | scripts/migrate.js:24-39 | a migrated user always has a friends list of the old length and both counters set |
| Migrate.FriendsMigrated | scripts/migrate.js:24-32 | a non-list becomes empty; a list keeps length and order, valid ids kept, each invalid one replaced by a generated id |
| Migrate.ScalarsMigrated | scripts/migrate.js:35-39 | counters become 0 iff falsy and are otherwise kept; the email becomes the trimmed lower-cased form `register` stores; each name becomes its trimmed value; absent fields stay absent |
| Migrate.MigratedEmailNormal | scripts/migrate.js:37 | a migrated email is trimmed and lower-case |
| Migrate.EmailFieldIdempotent | scripts/migrate.js:37 | normalising an email twice is normalising it once |
| Migrate.TrimFieldIdempotent | scripts/migrate.js:38-39 | trimming a name twice is trimming it once |
| Migrate.MigrateUserIdempotent | scripts/migrate.js:24-39 | with valid generated ids, migrating a user twice equals migrating once |
| Migrate.MigrateComment | scripts/migrate.js:73-86 | every comment becomes an object comment with trimmed text and a date; a string comment gets the post's owner, an object comment keeps its own |
| Migrate.MigratePost | scripts/migrate.js:57-86 | the rewrite throws exactly on a null comment; otherwise the owner is an ObjectId, likes a Map, the date kept, and every comment, in the same number, an object |
| Migrate.OwnerAndLikesMigrated | scripts/migrate.js:57-70 | the owner becomes an ObjectId; a non-Map likes becomes a Map of exactly its valid-keyed entries, a Map is untouched |
| Migrate.CommentsMigrated | scripts/migrate.js:73-86 | comments keep number and order; string comments become objects owned by the post's owner and dated by the post; object comments keep their owner, get trimmed text or `""`, and keep or get a date |
| Migrate.NullCommentThrows | scripts/migrate.js:73-91 | the rewrite throws exactly when some comment is null |
| Migrate.CommentIdempotent | scripts/migrate.js:73-86 | a migrated comment is an object comment that a second pass leaves alone |
| Migrate.MigratePostIdempotent | scripts/migrate.js:57-86 | migrating a post twice equals migrating it once |
| Migrate.Saved | scripts/migrate.js:42 | the count of successful saves never exceeds the number of records |
| Migrate.SavedAllIff | scripts/migrate.js:21-46 | every record counts exactly when no save fails |
| Migrate.MigrateUsers | scripts/migrate.js:21-46 | every user is rewritten and saved in turn, a failed save leaves that user as it was and does not stop the loop, and the counter is the number of successful saves |
| Migrate.PostsSaved | scripts/migrate.js:89 | the post counter never exceeds the number of posts |
| Migrate.MigratePosts | scripts/migrate.js:54-93 | every post is rewritten and saved in turn, one that throws or fails to save is left as it was, and the counter counts the others |
| JsString.TrimStart | controllers/auth.js:29 | the result is the suffix after the leading run of ECMAScript white space |
| JsString.TrimEnd | controllers/auth.js:29 | the result is the prefix before the trailing run of white space |
| JsString.Trim | controllers/auth.js:29 | the result is `trimStart` then `trimEnd` of the input (each cutting exactly a white-space run), no longer than it, and starts and ends with non-space |
| JsString.TrimEmptyIff | controllers/posts.js:29 | trimming gives `""` exactly for a blank string |
| JsString.TrimFixedIff | controllers/auth.js:31 | `trim` leaves a string alone iff neither end is white space |
| JsString.TrimIdempotent | scripts/migrate.js:38 | trimming twice is trimming once |
| JsString.ToLower | controllers/auth.js:20 | each character is lower-cased in place and the length is kept |
| JsString.LowerFixedIff | controllers/auth.js:67 | lower-casing leaves a string alone iff it has no capital letter |
| JsString.ToLowerIdempotent | scripts/migrate.js:37 | lower-casing twice is lower-casing once |
| JsString.TrimToLower | controllers/auth.js:31 | lower-casing and trimming commute |
| JsString.IndexOf | middleware/auth.js:10 | the result is the first position where the pattern occurs, or none iff it occurs nowhere |
| JsString.Split | index.js:64 | pieces contain no separator and joining them gives back the string |
| JsString.SplitJoin | index.js:64 | splitting a join of separator-free pieces gives back the pieces |
| JsString.DigitRun | controllers/posts.js:145 | the run is the longest prefix of digits |
| JsString.ReplaceFirst | middleware/auth.js:10 | without an occurrence the string is unchanged; otherwise the first occurrence, and no later one, is replaced |
| JsString.ParseIntStart | controllers/posts.js:145-146 | `parseInt` gives a number only when the first non-space character is a sign or a decimal digit, and a negative one only behind `-` |
| JsString.ParseIntDecimal | controllers/posts.js:145-146 | `parseInt` reads back a decimal numeral followed by anything that does not continue it |
| JsString.ParseIntNegativeDecimal | controllers/posts.js:145-146 | `parseInt` reads a minus sign followed by a numeral as the negated number |

## Left out

- Express, Mongoose and MongoDB wiring are not modelled: `app.listen`, the connection, the shutdown
  handlers, the body parsers, helmet and rate limiting. The collections are values passed in and
  returned.
- `jwt.verify`, `jwt.sign`, `bcrypt.hash` and `bcrypt.compare` are oracle parameters. Token expiry is
  part of the verification oracle.
- Time is not read from a clock. `Date.now()`, `setInterval` and the `Promise.race` timer become
  explicit times and event records.
- createPost: the race is decided by timestamps, with the save winning only when it settles strictly
  before 5000 ms. A tie at exactly 5000 ms is treated as the timer firing first.
- Randomness and id generation are supplied as parameters: the upload file-name suffix, the random
  counters of `register`, the ids the store assigns, and `ObjectId()` in the migration.
- JsString.ToLower: only the ASCII letters are mapped. `toLowerCase` also maps non-ASCII capitals.
- JsString.ParseInt: results are unbounded integers. The precision loss of very long numerals in a
  JavaScript number is not modelled.
- Posts.FeedOf: the relative order of posts with equal `createdAt` is the store's choice; the model
  keeps such posts in collection order, so which of two simultaneous posts lands on which page
  is not modelled.
- Posts.FeedOf: `page` and `limit` are integers of at least 1. The handlers apply `-`, `*` and `/`
  straight to the query strings. JavaScript's string-to-number coercion, `NaN`, fractional values
  and the store's handling of negative skip or limit are not modelled.
- Posts.GetUserPosts: `currentPage` is the number. The handler echoes the raw query string.
- Posts.LikePost: the read, the in-memory toggle and `findByIdAndUpdate` are one atomic step here.
  In the server two concurrent toggles on one post can interleave and one update can be lost.
- Posts.LikePost: an id that is not a valid ObjectId makes the store throw a cast error, whose message
  is not modelled. Only the missing-document message is.
- Posts.CreatePost: a failing `commitTransaction` is not modelled. The store's maximum query times
  and `lean` are left out.
- TokenGate.VerifyToken: the 500 "Server error" branch is not modelled. It is reached only when
  `next` or the response object throws, which happens in code outside this model.
- AuthController.Login: the lookup is the lower-cased email as the controller writes it. Mongoose may
  also apply the schema's `lowercase` and `trim` setters to query filters, which would remove the
  spaced-email asymmetry; the spaced-email lemmas are about the controller's key only.
- AuthController.Registration: a store lookup that throws (500 "Registration failed") is not modelled.
  The same holds for the 500 "Login failed" of AuthController.Login and for the 500 "Failed to get
  posts" and "Failed to get user posts" of the feed handlers: the collections are values that are
  always readable. Only Posts.CreatePost models a failing lookup.
- AuthController.DaySpanMs: only the day form of the time-span strings `jwt.sign` accepts is modelled.
- Migrate.MigrateUsers: each document's in-place field updates are modelled as a record rewritten
  whole. Mongoose's casting on save is not modelled.
- Migrate.MigratePosts: comment `text` that is present but not a string is not modelled.
- middleware/validator.js, middleware/performance.js, the health route, the Sentry hooks and the
  other scripts are not part of this model.
