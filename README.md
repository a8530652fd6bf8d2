# mern-auth API core, modelled in Dafny

This project models the request-handling core of the `mern-auth` Express
backend. It covers three parts:

- **`auth` middleware** (`middleware/auth.js`): the gate every private route
  passes. It reads `x-auth-token`. A missing or empty token is rejected with 401.
  Otherwise the token is verified. A failed verification is rejected with 401.
  A successful one stores the payload in `req.user` and calls `next()`.
- **Profile routes** (`routes/api/profile.js`):
  - the `status`/`skills` validation;
  - building `profileFields` from the request body, one conditional assignment
    per field, with the `skills` CSV split on `,` and each piece trimmed;
  - the create-or-update upsert keyed by the caller's id;
  - adding experience and education entries (`unshift`);
  - removing them by id (`indexOf` + `splice(i, 1)`);
  - the lookups and the account deletion.
- **Post routes** (`routes/api/posts.js`): the `text` validation, post
  construction from the caller's user record, the newest-first listing, lookup
  by id, and the owner-checked delete.

The modules:

- `Http`: bodies, validation chains and responses.
- `JsString`: `split`, `trim` and a `Join` inverse.
- `JsArray`: `map`, `indexOf` and `splice(start, 1)`, and `RemoveFirst`, a reference definition of "remove the first entry with this key".
- `Models`: documents and the `Db` store class.
- `AuthGate`: the middleware.
- `ProfileRoutes` and `PostRoutes`: the handlers.

The profile and post collections are sequences in insertion order. `findOne`
without a sort promises no order, so taking the first match in insertion
order is a modelling choice; under "at most one profile per user" at most one
profile can match anyway. Users are a map by id. "At most one profile per
user" and "unique post ids" are invariants of the store (`Db.Valid`) that every
handler preserves.

`jwt.verify` is a function held by a `TokenCodec` object. That object counts
its calls, so "the codec is not consulted without a token" can be stated.
`ObjectID.isValid` is a parameter `isValidId`. Fresh entry and post ids, and
`Date.now`, are also parameters.

Several behaviours are modelled as the code is written, and the contracts
state them:

- **Removing by an unknown id.** `DELETE /experience/:id` and
  `DELETE /education/:id` with an id no entry has call `splice(-1, 1)`. That
  removes the last entry.
- **Deleting a missing post.** `DELETE /api/posts/:id` with a well-formed id and
  no post behind it answers 500, not 404. The owner comparison
  (`routes/api/posts.js:86`) dereferences the missing post before the not-found
  check (`routes/api/posts.js:89`) can run.
- **Adding an entry without a profile.** The handler dereferences the missing
  profile. Adding experience or education then answers 500; deleting entries
  answers 401 "Error".

## Model

| member | source | states |
|---|---|---|
| Http.Get | routes/api/profile.js:51-64 | Destructuring a body field: present exactly when the key is in the body, with its value |
| Http.Field | routes/api/profile.js:69-74 | `if (value) fields.x = value`: set exactly when the body value is truthy (present and non-empty), to that value |
| Http.Validate | routes/api/profile.js:38-49 | `check(p).not().isEmpty()` chains: no errors iff every checked field is truthy; every error comes from a failing rule and every failing rule reports one |
| Http.ValidateOne | routes/api/profile.js:38-49 | One chain on its own reports its error exactly when its field is falsy, and nothing otherwise |
| Http.ValidateConcat | routes/api/profile.js:38-49 | Running two lists of chains in sequence reports the first list's errors, then the second's: with `ValidateOne` this fixes one error per failing chain, in chain order |
| JsString.Count | routes/api/profile.js:76 | Occurrences of a character: bounded by the length, zero iff the character is absent |
| JsString.Split | routes/api/profile.js:76 | `split(sep)` gives one more piece than separators, and no piece contains the separator |
| JsString.JoinSplit | routes/api/profile.js:76 | Joining the pieces of a split with the separator gives back the original string |
| JsString.SplitAfterPrefix | routes/api/profile.js:76 | Separator-free leading text becomes the start of the first piece, and the other pieces are unchanged |
| JsString.SplitJoin | routes/api/profile.js:76 | Splitting the join of separator-free pieces gives back exactly those pieces |
| JsString.TrimStart | routes/api/profile.js:76 | Drops a whitespace prefix and nothing else; the result does not start with whitespace |
| JsString.TrimEnd | routes/api/profile.js:76 | Drops a whitespace suffix and nothing else; the result does not end with whitespace |
| JsString.Trim | routes/api/profile.js:76 | `trim()` has no whitespace at either end and keeps only characters of its input |
| JsString.TrimStartAfterWhitespace | routes/api/profile.js:76 | A whitespace prefix is exactly what `trimStart` removes |
| JsString.TrimEndBeforeWhitespace | routes/api/profile.js:76 | A whitespace suffix is exactly what `trimEnd` removes |
| JsString.TrimKeepsTrimmedCore | routes/api/profile.js:76 | Text with no whitespace at its ends, surrounded only by whitespace, trims to itself |
| JsString.TrimIdempotent | routes/api/profile.js:76 | Trimming twice is trimming once |
| JsArray.Map | routes/api/profile.js:232-233 | `xs.map(f)`: same length, and `f` of the element at each position |
| JsArray.IndexOf | routes/api/profile.js:232-234 | `indexOf`: -1 iff absent; otherwise the index of the first occurrence |
| JsArray.IndexOfIsFirst | routes/api/profile.js:232-234 | Any index that holds the first occurrence is the one `indexOf` reports |
| JsArray.SpliceStart | routes/api/profile.js:236 | The start index `splice` uses lies within the array; a start inside the array is used as is, a negative one counts from the end, so -1 on a non-empty array is the last index |
| JsArray.SpliceOne | routes/api/profile.js:236 | `splice(start, 1)` removes the element at the start index when it lands inside the array, keeping the others in order, and removes none otherwise |
| JsArray.RemoveByIndexOfFound | routes/api/profile.js:232-236 | With a matching id, `splice(indexOf(id), 1)` equals the reference "remove the first entry with this id, keep the others in order" |
| JsArray.RemoveByIndexOfMissing | routes/api/profile.js:232-236 | With no matching id, the last entry of a non-empty list is removed and an empty list is unchanged |
| Models.ProfileIndex | routes/api/profile.js:88 | The position `findOne({ user })` finds: -1 iff no profile has that user, otherwise the first one that does |
| Models.FindProfile | routes/api/profile.js:18 | `findOne({ user })`: some profile iff one has that user, and then a stored profile of that user |
| Models.ProfileIndexIs | routes/api/profile.js:88 | Any first profile of a user is the one `findOne` finds |
| Models.RemoveProfileAt | routes/api/profile.js:156 | Removing one profile keeps one profile per user and leaves none for its owner |
| Models.PostIndex | routes/api/posts.js:65 | The position `findById` finds: -1 iff no post has that id, otherwise the first that does |
| AuthGate.Gate | middleware/auth.js:8-18 | Every rejection is 401; the request proceeds iff a non-empty token is present and verifies, carrying the decoded payload; no token gives "No token, authorization denied" and a failed verification "Token is not valid" |
| AuthGate.NoTokenIgnoresCodec | middleware/auth.js:8-11 | Without a token the decision does not depend on the verifier at all |
| AuthGate.Request.Header | middleware/auth.js:8 | `req.header(name)`: defined exactly when the header is present, with its value |
| AuthGate.TokenCodec.Verify | middleware/auth.js:12 | `jwt.verify` answers the decoding function's result and counts one call |
| AuthGate.Auth | middleware/auth.js:4-20 | `next()` is called iff the gate proceeds, and then `req.user` is the payload and nothing is sent; otherwise exactly one 401 with the gate's message is sent and `req.user` is untouched; the codec is called once with a token and never without one |
| ProfileRoutes.ParseSkills | routes/api/profile.js:75-77 | `split(',').map(trim)`: commas + 1 skills, each the trimmed piece at the same position, each trimmed and comma-free |
| ProfileRoutes.ParseSkillsOfJoined | routes/api/profile.js:75-77 | A skill list written with commas (and any whitespace-padded, comma-free spellings) parses back to exactly that list, in order |
| ProfileRoutes.ProfileFieldsOf | routes/api/profile.js:67-85 | The fields built from a body belong to the caller, never hold an empty string or an empty skill list, and hold skills exactly when the skills string is truthy |
| ProfileRoutes.CopyIfSet | routes/api/profile.js:69-74 | One `if (value) profileFields.key = value` step: the value when truthy, unset otherwise |
| ProfileRoutes.BuildProfileFields | routes/api/profile.js:67-85 | `user` is always the caller; each optional field is set iff its body value is truthy, to that value; skills set iff truthy, to the parsed list; `social` always present with exactly the truthy links |
| ProfileRoutes.ValidBodyHasStatusAndSkills | routes/api/profile.js:38-49 | A body that passes validation always yields a status and at least one skill |
| ProfileRoutes.ProfileRulesErrors | routes/api/profile.js:38-49 | The profile rules report a missing status, then a missing skills list, one error each |
| ProfileRoutes.Create | routes/api/profile.js:100 | `new Profile(profileFields)`: the fields' user and social links, no experience and no education |
| ProfileRoutes.CreateIsSetOnBlank | routes/api/profile.js:92-101 | Creating a profile gives the same document as setting the fields on a blank profile of that user |
| ProfileRoutes.ApplySet | routes/api/profile.js:92-96 | `$set: profileFields` keeps the user's experience and education lists, and replaces `social` as a whole |
| ProfileRoutes.ApplySetIdempotent | routes/api/profile.js:92-96 | Setting the same fields twice is setting them once |
| ProfileRoutes.ApplySetFromBody | routes/api/profile.js:67-96 | An update from a body: each of the six text fields and the skills takes the sent value when it is truthy and keeps the stored value when it is falsy or missing; each of the five social links is exactly the sent truthy link, so one left out is cleared |
| ProfileRoutes.Upserted | routes/api/profile.js:88-102 | The answered profile belongs to the caller; it has empty lists when created and keeps the stored lists when updated |
| ProfileRoutes.Upsert | routes/api/profile.js:88-102 | One profile more when the caller had none, the same number otherwise; every other user's profile stays at its position |
| ProfileRoutes.UpsertKeepsOneProfilePerUser | routes/api/profile.js:88-102 | After create-or-update there is still at most one profile per user, the caller's lookup finds the answered profile, and every profile of the caller is that one |
| ProfileRoutes.UpsertLeavesOthers | routes/api/profile.js:88-102 | Create-or-update does not change what another user's lookup finds |
| ProfileRoutes.UpsertIdempotent | routes/api/profile.js:88-102 | Sending the same create-or-update twice has the effect of sending it once |
| ProfileRoutes.NewExperience | routes/api/profile.js:189-208 | The entry carries the generated id, and `to` is set exactly when the body has it |
| ProfileRoutes.NewEducation | routes/api/profile.js:273-292 | The entry carries the generated id, and `to` is set exactly when the body has it |
| ProfileRoutes.ValidExperienceEntry | routes/api/profile.js:172-208 | An entry that passed validation has a non-empty title, company and start date |
| ProfileRoutes.ValidEducationEntry | routes/api/profile.js:253-292 | An entry that passed validation has a non-empty school, degree, field of study and start date |
| ProfileRoutes.GetCurrentProfile | routes/api/profile.js:15-28 | 200 iff the caller has a profile, answering a stored profile of the caller; otherwise 400 "There is no profile for this user" |
| ProfileRoutes.CreateOrUpdateProfile | routes/api/profile.js:34-108 | Invalid body: 400 with all validation errors, store unchanged; otherwise the store becomes the upsert of the built fields, which answers 200, and one profile per user holds |
| ProfileRoutes.GetAllProfiles | routes/api/profile.js:114-122 | 200 with every stored profile, in collection order |
| ProfileRoutes.GetProfileByUserId | routes/api/profile.js:128-145 | Malformed id: 404 before any lookup; well-formed id: 200 iff that user has a profile, otherwise 400 "No profile for this user" |
| ProfileRoutes.RemoveProfileOf | routes/api/profile.js:156 | `findOneAndRemove({ user })` removes one profile when the user has one, none otherwise, and adds none |
| ProfileRoutes.RemoveProfileOfLeavesNone | routes/api/profile.js:156 | With one profile per user, the caller has no profile afterwards and uniqueness holds |
| ProfileRoutes.RemoveProfileOfLeavesOthers | routes/api/profile.js:156 | Removing one user's profile does not change what any other user's lookup finds |
| ProfileRoutes.DeleteAccount | routes/api/profile.js:151-164 | The caller's profile and user record are removed, other profiles stay in order, one profile per user holds, answer "Users deleted" |
| ProfileRoutes.AddExperience | routes/api/profile.js:170-219 | Invalid body: 400 with errors, store unchanged; no profile: 500 "server error", store unchanged; otherwise the new entry is first and the old entries follow in order |
| ProfileRoutes.DeleteExperience | routes/api/profile.js:225-245 | No profile: 401 "Error", store unchanged; otherwise `splice(indexOf(id), 1)`: the first entry with the id goes, others keep order; an unknown id removes the last entry; an empty list stays empty |
| ProfileRoutes.AddEducation | routes/api/profile.js:251-303 | As for experience, with the four education rules: validation errors, 500 without a profile, otherwise the new entry first |
| ProfileRoutes.DeleteEducation | routes/api/profile.js:309-324 | As for experience: 401 without a profile; first matching entry removed; unknown id removes the last entry; empty list unchanged |
| PostRoutes.InsertByDate | routes/api/posts.js:49 | Inserting into a newest-first list keeps it newest first and adds exactly that post |
| PostRoutes.SortByDate | routes/api/posts.js:49 | `sort({ date: -1 })`: newest first, and a permutation of the posts |
| PostRoutes.SortNewestFirstUnchanged | routes/api/posts.js:49 | A list already newest first is returned unchanged |
| PostRoutes.SortIdempotent | routes/api/posts.js:49 | Sorting twice is sorting once |
| PostRoutes.NewPost | routes/api/posts.js:29-34 | A new post has the body's text, the author's name and avatar, the caller as `user`, the given id and date |
| PostRoutes.RemovePost | routes/api/posts.js:92 | `remove()`: no post with that id remains, every other post stays, and nothing is added |
| PostRoutes.RemovePostKeepsUnique | routes/api/posts.js:92 | Removing a post keeps post ids unique |
| PostRoutes.RemovePostAt | routes/api/posts.js:92 | With unique ids, removing by the id at position i removes exactly position i |
| PostRoutes.RemoveAbsentPost | routes/api/posts.js:92 | Removing an id no post has changes nothing |
| PostRoutes.CreatePost | routes/api/posts.js:13-42 | Empty text: 400 with errors, nothing stored; caller without user record, or failed save: 500 "Server Error", nothing stored; otherwise the new post is appended and returned |
| PostRoutes.ListPosts | routes/api/posts.js:47-55 | 200 with every stored post, newest first, each as often as it is stored |
| PostRoutes.GetPost | routes/api/posts.js:60-74 | 200 iff the id is well-formed and a post has it, answering that post; otherwise 404 "No post for this id" |
| PostRoutes.DeletePost | routes/api/posts.js:79-98 | 404 iff the id is malformed; a well-formed absent id answers 500; another user's post: 401 "Unauthorized access!" and kept; the caller's own post: exactly that post is removed, answer "Post Removed" |
| PostRoutes.DeletePostRoute | routes/api/posts.js:79-98 | Behind the middleware: without a valid token nothing is deleted and one 401 is sent (with no token the codec is not called). With a valid token the handler runs for the token's user and sends one answer: 404 for a malformed id, 500 for a missing post, 401 for another user's post, otherwise the post is removed with "Post Removed". A post leaves the store only if the token names its owner |

## Left out

- JWT cryptography, the secret from `config` and token expiry: `jwt.verify` is an uninterpreted decoding function.
- Models.PostIndex, Models.ProfileIndex, PostRoutes.GetPost, PostRoutes.DeletePost, ProfileRoutes.GetProfileByUserId: ids are taken in one canonical spelling, lower-case 24-digit hex, and compared as strings. The store's cast of a well-formed id to an ObjectId is not modelled. Under that cast, other spellings of the same id find the same document: upper-case hex, or a 12-character string whose bytes are the id.
- Header-name case-insensitivity of `req.header`: headers are looked up by their exact name.
- Non-string JSON body values (numbers, booleans, arrays, objects): body fields are strings, and truthy means present and non-empty.
- express-validator's reading of the query string, cookies, headers and params, and the `value`/`location` fields of its error objects: an error carries only `param` and `msg`.
- `populate('user', ['name', 'avatar'])`: answers carry the stored user id, not the joined user document.
- Store exceptions the handlers catch (connection loss, cast and write errors): only the failures the handler code itself causes are modelled, which is a null dereference. A failed `save` is also modelled, through one stand-in: `new Post(...)` gets a fresh id from the store, the model takes that id as the parameter `newId`, and a `newId` that collides with a stored post plays the role of a failed `save`.
- The 401 "cannot be created" branch of create-or-update, the 401 "Error" branch of GET /, the 500 branch of GET /user/:id, GET /api/posts and GET /api/posts/:id, and the 401 "Error" branch of DELETE /api/profile: they are reachable only through such store exceptions.
- `next()` throwing inside the middleware's `try` (which would also send the 401 "Token is not valid"): the handlers are modelled separately from it.
- The GitHub repository proxy (GET /github/:username): a network call and `JSON.parse` of a remote body.
- routes/api/auth.js, server.js and config/db.js are not part of this model: login, token signing, app wiring and the database connection.
- Post likes and comments, and the profile `date` field: no core handler reads or writes them.
- The ordering of posts with equal dates: the store does not guarantee it, and `SortByDate` fixes one order.
- async/await and concurrent requests: each handler runs as one sequential step, so two interleaved upserts cannot be expressed.
- In-place mutation and aliasing of the loaded profile document: `unshift` and `splice` are modelled on values, and the saved profile replaces the stored one.
- Of the routes behind the middleware, only DELETE /api/posts/:id is composed with it (`DeletePostRoute`). The other private routes take the caller's id as a parameter.
