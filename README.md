# Job board server: access control and record keeping, in Dafny

This project models the core of a job-listing service:

- the authentication middleware `authenticateToken`;
- the `/api/auth` routes that register users and log them in;
- the `/api/jobs` routes that list, read, create, update and delete job postings;
- the Job schema that validates new postings;
- the client home page's job filter and its local delete.

Several properties are proved about this model:

- the status code of every outcome;
- what each operation does to the users and jobs collections, and that it changes nothing else;
- the round trip from login to a token that the middleware accepts;
- the order-preserving, idempotent client filter.

## Structure

| file | module | models |
|---|---|---|
| `text.dfy` | `Text` | `split`/`join` on one character, decimal numerals, ASCII `toLowerCase`, `includes` |
| `digest.dfy` | `Digest` | a deterministic polynomial digest, standing in for the cryptography |
| `bcrypt.dfy` | `Bcrypt` | `bcrypt.hash(password, 10)` and `bcrypt.compare` |
| `jwt.dfy` | `Jwt` | `jwt.sign({ _id }, secret, { expiresIn: "1h" })` and `jwt.verify`, after RFC 7519 |
| `job.dfy` | `JobModel` | `jobSchema`: five required String paths and timestamps; casting; `$set` updates |
| `user.dfy` | `UserModel` | the User documents the handlers write; `findOne({ email })` and `findById` |
| `http.dfy` | `Http` | responses: status code and JSON body |
| `auth_middleware.dfy` | `AuthMiddleware` | `authenticateToken` as a decision function and as a method on a request object |
| `auth_routes.dfy` | `AuthRoutes` | `POST /register` as a method of the `UserStore` class; `POST /login` as a function |
| `jobs_routes.dfy` | `JobsRoutes` | the `JobStore` class with the five handlers, the two guarded routes and the router |
| `home_page.dfy` | `HomePage` | `filteredJobs`, `handleDelete`, `handleFilterChange` and the page state |
| `scenario.dfy` | `Scenario` | register twice; log in after registering; list with and without a token; create, read and delete twice |

### Modelling choices

The store and the parts of the environment that cannot be seen become parameters:

- **Store faults.** `fault: Option<string>` is `Some(message)` when the document store raises. `lookupFault` is true when `findById` raises inside the middleware.
- **Fresh `_id`s.** `newId` is the `_id` a new document receives. A clash with an existing `_id` is reported as the store's duplicate-key error.
- **Clock.** `now` is the time in seconds.
- **Salt.** `salt` is the salt bcrypt draws at random.
- **Signing secret.** `secret` is the value of `JWT_SECRET`.

Collections:

- The users collection is a sequence in natural order. A lookup returns the first match, as `findOne` does. The `UserStore` invariant is that emails and ids are unique.
- The jobs collection is a map from `_id` to document. The `JobStore` invariant is that each key is the document's own `_id`.

Behaviour that follows the code and its libraries rather than what the route names and comments suggest:

- **Header extraction.** The scheme word of the header is never checked.
  - An empty `Authorization` header is falsy, so `authHeader && ...` yields the empty token. That token is not `null`, so it reaches `jwt.verify` and the answer is 403, not 401.
  - `"Bearer "` also gives the empty token, and so 403.
  - `"Bearer"` gives no token, and so 401.
- **Lookup faults in the middleware.** A fault in `findById` is caught by the same `catch` as a failed verification, so it gives 403.
- **Token expiry.** `jsonwebtoken` treats a token as expired from the second `exp` on (`now >= exp`). So a token verifies strictly before `iat + 3600`.
- **Required fields.** Mongoose's `required` on a String path also rejects the empty string. Numbers and booleans in a body are cast to text. An object whose `_id` member is a non-empty string is cast to that `_id`. Arrays and all other objects fail to cast.
- **Updates.** `findByIdAndUpdate` runs no validators. An update can therefore store an empty or `null` field, so stored fields are `Option<string>`.
- **Error codes.** Store faults give 500 in list, get, delete and login, but 400 in register, create and update.
- **Guarded routes.** Only list and create pass through the middleware. Get, update and delete never answer 401 or 403, whatever the request carries. `JobsRoutes.JobStore.Handle` states this asymmetry. For those three routes it gives the handler's outcome whatever the `Authorization` header holds. The model keeps the asymmetry as the code has it.

## Model

| member | source | states |
|---|---|---|
| `Text.Split` | server/authenticateMiddleware.js:6 | `split(' ')` yields at least one segment, and no segment contains the separator |
| `Text.JoinSplit` | server/authenticateMiddleware.js:6 | joining the segments of a split with the separator gives back the original header |
| `Text.SplitJoin` | server/authenticateMiddleware.js:6 | splitting a join of separator-free segments gives back exactly those segments |
| `Text.Lower` | client/src/pages/HomePage.jsx:70-71 | lower-casing keeps the length and maps each character by ASCII `toLowerCase` |
| `Text.Includes` | client/src/pages/HomePage.jsx:70-71 | `includes` holds iff the needle occurs at some position of the text |
| `Text.ParseDec` | server/routes/authRoutes.js:38-42 | reading back a numeral written for a claim (`iat`, `exp`) gives the same number |
| `Bcrypt.Hash` | server/routes/authRoutes.js:18 | the stored hash records cost 10 and its salt, and `compare` accepts the password it was made from |
| `Bcrypt.Compare` | server/routes/authRoutes.js:37 | `compare` accepts a password iff recomputing the digest with the stored cost and salt gives back the stored hash |
| `Bcrypt.CompareOnlyItsHash` | server/routes/authRoutes.js:18-37 | a stored hash of cost 10 accepts a password exactly when it is that password's hash under the stored salt |
| `Jwt.EncodeDecode` | server/routes/authRoutes.js:38-42 | decoding an encoded payload gives back its subject, issue time and expiry |
| `Jwt.Sign` | server/routes/authRoutes.js:38-42 | an issued token is three dot-separated segments and contains no space |
| `Jwt.SignThenVerify` | server/routes/authRoutes.js:38-42 | an issued token verifies to its subject before `iat + 3600` and is expired from then on |
| `Jwt.Verify` | server/authenticateMiddleware.js:11 | a token is invalid unless it is the HS256 header, a well-formed payload and the secret's signature over both; a well-signed token is expired iff `now >= exp`, and otherwise yields the payload's `_id` |
| `Jwt.WellSignedVerifies` | server/authenticateMiddleware.js:11 | conversely, the header, any well-formed payload and the secret's signature over both make a token that is not invalid, and is expired iff `now >= exp` |
| `JobModel.FieldsComplete` | server/models/job.js:3-9 | the five paths title, company, location, jobType and description are all the user-supplied paths |
| `JobModel.With` | server/models/job.js:3-9 | setting one path changes that path only; `_id` and timestamps stay |
| `JobModel.CastString` | server/models/job.js:4-8 | a String path keeps a string, writes a safe integer as JavaScript does (a leading `-` only for negatives, no leading zeros, digits that read back as the number), writes a boolean as `"true"` or `"false"`, takes an object's non-empty string `_id`, gives no value for `null` or an absent key, and fails exactly on arrays and on other objects |
| `JobModel.CheckField` | server/models/job.js:4-8 | a required String path accepts exactly a non-empty string, a number, a boolean or an object with a non-empty string `_id`; it reports a cast error exactly for the values that cannot be cast |
| `JobModel.ErrorsIn` | server/models/job.js:4-8 | the errors listed are exactly the paths whose value is not acceptable |
| `JobModel.ErrorsOfFields` | server/models/job.js:4-8 | validation passes iff every one of the five paths is supplied, and each error names an unsupplied path |
| `JobModel.NewJob` | server/routes/jobsRoutes.js:32-38 | a job is built iff all five paths are supplied; it then has the given `_id`, both timestamps equal to now, non-empty fields cast from the body, and is schema-valid |
| `JobModel.OnlySchemaKeysRead` | server/routes/jobsRoutes.js:32-38 | body keys other than the five schema paths do not affect the built job |
| `JobModel.ObjectCastsToId` | server/routes/jobsRoutes.js:32-38 | a title sent as an object with a non-empty string `_id` builds a job titled with that `_id` |
| `JobModel.FreeFormJobType` | server/models/job.js:7 | any non-empty job type is accepted and stored as given |
| `JobModel.UpdateChanges` | server/routes/jobsRoutes.js:51-53 | an update body sets exactly the schema keys it carries, cast; it fails iff one of them cannot be cast |
| `JobModel.CastErrorsIn` | server/routes/jobsRoutes.js:51-53 | the cast errors listed are exactly the schema keys whose value cannot be cast |
| `JobModel.Updated` | server/models/job.js:9 | after an update the changed paths hold their new values, the others keep theirs, `_id` and `createdAt` stay, and `updatedAt` is now |
| `JobModel.UpdateSkipsValidation` | server/routes/jobsRoutes.js:51-53 | an update can store an empty title, which the schema would reject on create |
| `UserModel.FindByEmail` | server/routes/authRoutes.js:12 | `findOne({ email })` finds nothing iff no user has that exact email, else the first user that has it |
| `UserModel.FindById` | server/authenticateMiddleware.js:12 | `findById` finds nothing iff no user has that id, else a stored user with that id |
| `UserModel.FindByOwnEmail` | server/routes/authRoutes.js:36 | with unique emails, looking up a stored user's email finds that user |
| `UserModel.FindByOwnId` | server/authenticateMiddleware.js:12 | with unique ids, looking up a stored user's id finds that user |
| `Http.SendStatus` | server/authenticateMiddleware.js:8-19 | `sendStatus` answers with the given code (401 or 403) and its status text |
| `AuthRoutes.UserStore.constructor` | server/routes/authRoutes.js:1-6 | the users collection starts empty and valid |
| `AuthRoutes.UserStore.Register` | server/routes/authRoutes.js:9-31 | 201 iff there is no fault and the email and id are new; then exactly one user is appended, with the given name and email and the hash of the password. Otherwise 400, "This Email already exist" for a taken email, and nothing changes. Emails and ids stay unique. |
| `AuthRoutes.Login` | server/routes/authRoutes.js:34-50 | a token (200) only for a user with that email whose hash matches the password; 500 iff the store raises; every 401 is the same "Invalid email or password" |
| `AuthRoutes.LoginSucceedsIff` | server/routes/authRoutes.js:36-43 | with unique emails, login gives 200 iff there is no fault and a user with that email matches the password |
| `AuthRoutes.LoginTokenVerifies` | server/routes/authRoutes.js:38-43 | the issued token verifies to the user's `_id` for the hour after login and is expired afterwards |
| `AuthRoutes.RegisterThenLogin` | server/routes/authRoutes.js:18-43 | after registering a new email, logging in with it and the password gives a token for the new `_id` |
| `AuthMiddleware.ExtractToken` | server/authenticateMiddleware.js:5-6 | no header gives no token; a header gives a token iff it is empty or contains a space; a token never contains a space |
| `AuthMiddleware.SecondWord` | server/authenticateMiddleware.js:6 | the token is exactly the second space-separated word, whatever the first word is |
| `AuthMiddleware.HeaderEdgeCases` | server/authenticateMiddleware.js:6-8 | `"Bearer"` gives 401; `"Bearer "` and the empty header give 403 |
| `AuthMiddleware.Decide` | server/authenticateMiddleware.js:4-21 | 401 iff there is no token; otherwise 403 unless the token verifies, the lookup does not fail and a user has the subject as id; on success the user is a stored user whose id is the token's subject |
| `AuthMiddleware.IssuedTokenAdmits` | server/authenticateMiddleware.js:6-17 | a token issued for a stored user, behind any first word, admits that user before expiry and gives 403 afterwards |
| `AuthMiddleware.Request.constructor` | server/authenticateMiddleware.js:5 | a request carries its header and no user yet |
| `AuthMiddleware.AuthenticateToken` | server/authenticateMiddleware.js:4-21 | `next` is called exactly when the decision is to continue, and then `req.user` is the resolved user; otherwise the decided status is sent and `req.user` is untouched; nothing but `req.user` is written |
| `JobsRoutes.JobStore.constructor` | server/routes/jobsRoutes.js:1-5 | the jobs collection starts empty and valid |
| `JobsRoutes.JobStore.List` | server/routes/jobsRoutes.js:8-15 | every stored job, unfiltered, with 200; 500 with the store's message on a fault |
| `JobsRoutes.JobStore.Get` | server/routes/jobsRoutes.js:18-28 | 200 with the stored job iff it exists and there is no fault; 404 "Job not found" iff it is absent; 500 on a fault; the store is not changed; the job returned has the requested id |
| `JobsRoutes.JobStore.Create` | server/routes/jobsRoutes.js:31-46 | 201 with the new record iff the body is valid, there is no fault and the id is fresh; then exactly that job is added. Otherwise 400 and the store is unchanged. |
| `JobsRoutes.JobStore.Update` | server/routes/jobsRoutes.js:49-61 | 400 iff a value cannot be cast or the store raises; 404 iff the id is absent; 200 with the post-update record, which has the requested id, with only that job changed; the store is unchanged unless the answer is 200 |
| `JobsRoutes.JobStore.Delete` | server/routes/jobsRoutes.js:64-75 | 200 "Job deleted" iff the id is present and there is no fault, and then exactly that job is removed; 404 iff absent; 500 on a fault; afterwards the id is absent, so a second delete gives 404 |
| `JobsRoutes.JobStore.ListRoute` | server/routes/jobsRoutes.js:8 | a rejected request gets the middleware's status; an accepted one gets `req.user` set and the list |
| `JobsRoutes.JobStore.CreateRoute` | server/routes/jobsRoutes.js:31-46 | a rejected request gets the middleware's status and nothing is created; an accepted one gets `req.user` set and exactly the outcome of create, including the new record as the 201 body |
| `JobsRoutes.JobStore.Handle` | server/routes/jobsRoutes.js:7-75 | list and create with no header give 401; with a rejected credential they give the decided 401/403 and change nothing; with an accepted one they set `req.user` and answer as list or create. Get, update and delete answer as their handlers do, whatever the credentials, never give 401 or 403, and do not touch `req.user`. |
| `JobsRoutes.UnguardedIgnoresCredentials` | server/routes/jobsRoutes.js:18-75 | two requests to the same unguarded route get the same status and leave the same store, and the same answer when it is 200 or 404, whatever their credentials |
| `HomePage.Keep` | client/src/pages/HomePage.jsx:66 | `filter` keeps every occurrence of each element that passes the test and none of those that fail, and never lengthens the list |
| `HomePage.KeepIsSubsequence` | client/src/pages/HomePage.jsx:66-74 | a filtered list is an order-preserving subsequence of the list |
| `HomePage.KeepIdempotent` | client/src/pages/HomePage.jsx:66-74 | filtering twice with the same test is filtering once |
| `HomePage.KeepAll` | client/src/pages/HomePage.jsx:66-74 | a test every element passes keeps the whole list |
| `HomePage.Filtered` | client/src/pages/HomePage.jsx:66-74 | `filteredJobs` keeps every occurrence of each matching job and no other, in order; with a job-type filter every kept job has exactly that type |
| `HomePage.EmptyFilterShowsAll` | client/src/pages/HomePage.jsx:66-74 | with an empty job type and an empty keyword the filtered list is the full list |
| `HomePage.FilterIdempotent` | client/src/pages/HomePage.jsx:66-74 | filtering the filtered list again with the same filter returns it unchanged |
| `HomePage.KeywordIgnoresLocationAndDescription` | client/src/pages/HomePage.jsx:68-71 | location and description never decide whether a job is shown |
| `HomePage.KeywordCaseInsensitive` | client/src/pages/HomePage.jsx:68-71 | two keywords that differ only in ASCII letter case select the same jobs |
| `HomePage.KeywordOtherCase` | client/src/pages/HomePage.jsx:68-71 | the keyword "ENG" does not occur in the title "Eng" and still selects that job |
| `HomePage.WithoutId` | client/src/pages/HomePage.jsx:85 | the list minus exactly the entries with that `_id`, every other occurrence kept, in order; its length drops by the number of such entries |
| `HomePage.Page.constructor` | client/src/pages/HomePage.jsx:33-38 | the page starts with no jobs, the empty filter and no error |
| `HomePage.Page.FilteredJobs` | client/src/pages/HomePage.jsx:66-74 | the rendered list holds every occurrence of the page's jobs that match its filter and no other, in order |
| `HomePage.Page.HandleFilterChange` | client/src/pages/HomePage.jsx:62-64 | the named filter field takes the new value and the other field is unchanged |
| `HomePage.Page.HandleDelete` | client/src/pages/HomePage.jsx:80-90 | on a confirmed delete the list loses exactly the entries with that id, in order; on failure the list stays and the error is the server's message or "Failed to delete job." |

## Left out

- Cryptography. `bcrypt` and the HMAC behind `jwt.sign`/`jwt.verify` are replaced by a polynomial digest (`Digest.Fingerprint`). No security property, such as unforgeability or one-wayness, is stated. bcrypt's 72-byte password limit is not modelled.
- Token format. The payload is written as `sub-iat-exp` instead of base64url-encoded JSON. Only the HS256 header is accepted. The `nbf` claim, clock tolerance and other algorithms are not modelled.
- `Jwt.Verify`: says nothing about tokens forged without the secret, because the digest that stands in for HMAC carries no unforgeability property.
- MongoDB and Mongoose I/O. Store faults are a parameter. Casting a route `:id` to an ObjectId is folded into that fault parameter.
- Concurrency. `async`/`await` and concurrent requests are not modelled, and requests run one after another. This includes the non-atomic check-then-insert of registration (server/routes/authRoutes.js:12, 26).
- The User schema. server/models/user.js is not part of this model. Register takes its three body values as strings. An absent value is covered by the fault parameter. A unique index on email, if the schema has one, is not modelled.
- `JobModel.CheckField`: body numbers are safe integers, at most 2^53 - 1 in magnitude, which JavaScript holds exactly and writes as plain digits. Some numbers are not modelled in create or update bodies. Non-integer numbers are cast to text by JavaScript's number formatting. Larger integers are rounded by `JSON.parse`, and from 10^21 on `toString` writes them in exponent notation, such as `"1e+21"`. An object with its own `toString` member is not modelled either; an object is seen only through its `_id`.
- `AuthRoutes.Login`: the email is a string. The source passes `req.body.email` to `User.findOne` as it is, so an object such as `{"$ne": ""}` acts as a query operator and finds a user with another email. Such query operators are not modelled by `UserModel.FindByEmail` or `Login`, and neither is a non-string password.
- Update body details:
  - update operators (`$set`, `$unset`, …);
  - `_id` and timestamp keys.
- `JobsRoutes.JobStore.List`: returns the collection as a map, so the order in which `Job.find()` returns documents is not captured.
- `Text.Lower`: lower-cases ASCII letters only. Unicode case mapping is not modelled.
- Client postings. The client model's postings have string fields. A posting with a `null` title or company, which an update can produce, would make `toLowerCase` throw in the browser. That case is outside the client model.
- Client pages and plumbing:
  - the fetch effect and JSX rendering of the home page (client/src/pages/HomePage.jsx:41-60, 92-243);
  - `handleEdit` navigation;
  - the login, create and edit pages, `App.jsx` and `PrivateRoute.jsx`, which are forms, routing and UI state.
- server/index.js: bootstrap, CORS, environment loading, the database connection and the top-level 500 handler. Its only relevant fact is the mount points `/api/jobs` and `/api/auth`, which the comments on `JobsRoutes.JobRoute` record.
- `console.log` in the delete handler.
