# Session authentication demo, modelled in Dafny

This project models the authentication and session flow of a small Express
application. Users sign up with an email and a password stored as a bcrypt
hash. They then log in, and their login is kept in a server-side session. Two
pages are gated: `/profile` for any logged-in user, `/admin` for
administrators. The model covers:

- the POST /signup input check;
- the request handlers, which change the per-client session record
  (`inputData`, `user`, `isAuthenticated`) and the `users` collection;
- the authorization middleware, which sets the request flags `isAuth` and
  `isAdmin` in `res.locals`;
- the two gates, which turn those flags into 401, 403 or a rendered page.

Modules, one per file:

| file | module | models |
|---|---|---|
| `js.dfy` | `Js` | absent form fields, truthiness, `String.prototype.trim`, and `.length` counted in UTF-16 code units |
| `users.dfy` | `Users` | the `users` collection: documents in insertion order, `findOne` by email and by `_id`, and `insertOne` |
| `http.dfy` | `Http` | `req.session` and `res.locals` as classes; `Outcome`, the way a handler ends (redirect, render, status page, or thrown error) |
| `demo.dfy` | `Demo` | the routes of `routes/demo.js` |
| `app.dfy` | `App` | the middleware of `app.js` and the route table, run one request at a time (`Serve`) |
| `scenarios.dfy` | `Scenarios` | several requests from one client in a row |

Modelling choices:

- The `users` collection is a sequence of documents plus the next free id.
  It is not a map keyed by email, because such a map would make emails unique
  by construction. In the source, uniqueness holds only because signup checks
  before it inserts. The model chooses to have `findOne` return the first
  matching document in insertion order. MongoDB promises no order without a
  sort, and the choice matters only when two documents share an email.
- A form field is `None` (`undefined`) or a string.
- bcrypt's `hash` and `compare` are function-valued parameters, and nothing is
  assumed about them. In particular the model does not assume
  `compare(p, hash(p))`.
- The session has two parts. One is the record the session store keeps
  between requests (`SessionStore`). The other is the in-memory
  `req.session` that a request loads from the store and works on (`Session`).
  Whether `req.session.save` succeeds is a boolean input (`Env.saveOk`).
  A successful save writes the in-memory session to the store. A failed save
  leaves the store as it was, so the next request sees the old session even
  where the handler ignores the error (routes/demo.js:64, 85, 147). A route
  that does not call `save` has its session written back when the response
  ends. A route that throws writes nothing.
- Fire-and-forget session writes (logout, login with an unknown email) are
  immediate field updates, written back at the end of the response.
- `bcrypt.compare` with an `undefined` password rejects its promise. An
  authenticated session whose user id matches no document makes the
  middleware read `.isAdmin` of `null`. Both end the request as `Failure`.
  The model does not default `isAdmin` to false in the second case: it
  follows the code. `Scenarios.RunFailsOnlyOnPasswordlessLogin` shows the
  second case never arises in sessions the flow itself produces.
- The admin gate's fresh lookup reads the same collection as the middleware
  did. Run one request at a time, it therefore never answers 403: an admin
  whose flag is cleared gets 401 from the next request, because the
  middleware reads the cleared flag first (`App.AdminGate`).
- `App.Step` is a function giving one request's answer and its effect on the
  stored session and the collection. `App.Serve` runs the request
  imperatively over the classes and is proved to follow `Step`. Sequences of
  requests are stated on `Step` (`Scenarios.Run`).

## Model

| member | source | states |
|---|---|---|
| `Js.SkipWhitespace` | routes/demo.js:53 | the first non-whitespace index at or after `i`; everything skipped is whitespace in the sense `trim()` uses |
| `Js.SkipWhitespaceBack` | routes/demo.js:53 | the end of the stretch once trailing whitespace is dropped; everything dropped is whitespace |
| `Js.TrimBounds` | routes/demo.js:53 | `trim()` returns `s[a..b]`: everything before `a` and after `b` is whitespace, and a non-empty result starts and ends with non-whitespace |
| `Js.Trim` | routes/demo.js:53 | `String.prototype.trim`: `s` with its leading and trailing whitespace removed, where whitespace is ECMAScript's WhiteSpace and LineTerminator set |
| `Js.Utf16Length` | routes/demo.js:53 | `.length`: the number of UTF-16 code units, two for a code point outside the Basic Multilingual Plane and one otherwise |
| `Js.Utf16LengthAppend` | routes/demo.js:53 | `.length` (UTF-16 code units) adds up over concatenation |
| `Js.Utf16LengthBounds` | routes/demo.js:53 | a string's `.length` lies between its number of code points and twice that number |
| `Js.TrimmedLengthAtLeast` | routes/demo.js:53 | for a positive bound `n` (required), `s.trim().length >= n` exactly when `s` has a stretch of at least `n` code units that starts and ends with non-whitespace |
| `Demo.SignupInputInvalid` | routes/demo.js:49-56 | the POST /signup guard: a field is absent or empty, the trimmed password is shorter than six code units, the email differs from its confirmation, or the email has no '@' |
| `Demo.PasswordAccepted` | routes/demo.js:117-140 | the login succeeds: the lookup by email finds a document, a password was entered, and `compare` accepts it against that document's stored hash |
| `Demo.SignupInputAccepted` | routes/demo.js:49-56 | the signup check accepts exactly when the email contains '@', the confirmation equals it, and the password has a six-unit non-whitespace-bounded stretch; the three emptiness tests are implied by the rest |
| `Users.FindByEmail` | routes/demo.js:71-74 | `findOne({email})`: the first document with that email, or none exactly when no document has it; `undefined` matches nothing |
| `Users.FindById` | app.js:42 | `findOne({_id})`: the first document with that id, or none exactly when no document has it |
| `Users.FindByIdUnique` | routes/demo.js:173 | with unique ids, the lookup by id returns index `k` exactly when document `k` has that id |
| `Users.FindByEmailUnique` | routes/demo.js:117-120 | with unique emails, the lookup by email finds the one document that has it |
| `Users.FindByEmailAppended` | routes/demo.js:71-99 | after inserting an email the lookup did not find, the lookup finds the new document |
| `Users.InsertKeepsEmailsUnique` | routes/demo.js:71-99 | appending a document whose email the lookup did not find keeps emails unique |
| `Users.UserCollection.constructor` | routes/demo.js:71-74 | a collection holding the given documents, with distinct ids, and the id generator past all of them |
| `Users.UserCollection.InsertOne` | routes/demo.js:99 | appends exactly one document, with an id no existing document has, and keeps the id invariant |
| `Http.SessionStore.constructor` | app.js:27-32 | a new client's stored session is empty, so it is consistent with any collection |
| `Http.Session.Load` | app.js:27-32 | `req.session` starts as the stored record, with no save called yet |
| `Http.Session.Save` | routes/demo.js:155-160 | a successful save stores the in-memory session; a failed one leaves the store unchanged |
| `Demo.GetSignup` | routes/demo.js:12-25 | renders the pending echo or the blank signup form; always clears `inputData` |
| `Demo.GetLogin` | routes/demo.js:27-38 | renders the pending echo or the blank login form; changes nothing |
| `Demo.PostSignup` | routes/demo.js:41-102 | invalid input: the "Invalid input" echo, saved, and a redirect to /signup, table unchanged. Email taken: the "User exists already!" echo, saved, table unchanged. Otherwise exactly one new document `{email, hash(password)}` with no `isAdmin` and a fresh id, the session untouched, and a redirect to /login. `user` and `isAuthenticated` are never touched. Unique emails stay unique |
| `Demo.PostLogin` | routes/demo.js:105-164 | unknown email: the "Could not log you in" echo without a save, redirect to /login. Rejected password: the same echo, saved. Neither touches `user` or `isAuthenticated`. Missing password for a known email: the library throws. Accepted password: `user = {id, email}` of that document and `isAuthenticated = true`, saved; /profile if the save succeeds, /login if not |
| `Demo.PostLogout` | routes/demo.js:181-185 | `user` cleared, `isAuthenticated` false, `inputData` kept, redirect to / |
| `Demo.GetProfile` | routes/demo.js:187-192 | renders the profile exactly when `isAuth` is truthy, else 401 |
| `Demo.GetAdmin` | routes/demo.js:167-179 | falsy `isAdmin` flag: 401. Otherwise it looks the user up again by id and renders admin exactly when a document with the session's id is marked admin, else 403. It throws when no session user stands behind the flag |
| `App.RequestFlags` | app.js:34-49 | anonymous exactly when there is no user or no authentication; dangling exactly when an authenticated user id matches no document; otherwise `isAuth` is true and `isAdmin` is that document's own field |
| `App.Authorize` | app.js:34-49 | writes the flags of `RequestFlags` into `res.locals` when it resolves a document, and nothing otherwise; reports dangling sessions; never changes the session or the collection |
| `App.Step` | app.js:34-51 | one request's answer and new stored state: the collection only grows, by one document, and only through a signup that redirects to /login and leaves the session as it was |
| `App.StepKeepsEmailsUnique` | routes/demo.js:71-99 | a request keeps emails unique |
| `App.StepKeepsConsistent` | routes/demo.js:153-154 | a request keeps the stored session consistent: an authenticated session names an existing document |
| `App.StepFailure` | app.js:42-43 | from a consistent session, a request fails exactly when it is a login naming a known email without a password |
| `App.ProfileGate` | routes/demo.js:187-192 | /profile changes nothing and renders exactly when the session resolves to a document; else 401, or a failure on a dangling session |
| `App.AdminGate` | routes/demo.js:167-179 | /admin changes nothing and renders exactly for an authenticated session whose document is marked admin; a lone request never answers 403: any other session gets 401, or fails exactly when it is dangling |
| `App.Route` | app.js:51 | the route handlers, with the session written back at the end of the response unless the route saved it or threw, follow `Step` |
| `App.Serve` | app.js:27-51 | loading the session, the middleware and the route, run over the store and the collection, follow `Step` |
| `Scenarios.InitialInvariant` | app.js:27-32 | a new client of a collection with distinct ids and emails starts in a state satisfying the invariant |
| `Scenarios.StepKeepsInvariant` | routes/demo.js:71-99 | a request keeps ids distinct and below the generator, emails unique, and the session consistent |
| `Scenarios.RunKeepsInvariant` | routes/demo.js:71-99 | any sequence of requests, run one after another, keeps the invariant |
| `Scenarios.RunFailsOnlyOnPasswordlessLogin` | app.js:42-43 | in any sequence from any consistent session, whatever the collection holds, a request fails only when it is a login without a password |
| `Scenarios.LogoutThenProfile` | routes/demo.js:181-191 | after logout the middleware sets no flags and the profile request answers 401; from a consistent session the logout itself never fails |
| `Scenarios.SignupOfFreshEmail` | routes/demo.js:91-101 | a signup that redirects to /login appended the new document under the next id, left the session alone, and the lookup finds the new document |
| `Scenarios.LoginAdminAsNonAdmin` | routes/demo.js:153-170 | a login accepted for a user with no `isAdmin` field: if saved, the session names that user, the middleware sets `isAuth` but not `isAdmin`, and /admin answers 401; if not saved, nothing changed |
| `Scenarios.SignupLoginAdmin` | routes/demo.js:94-170 | a fresh signup followed by an accepted login leads to a 401 on /admin when the session was saved, because signup never sets `isAdmin`; a failed save leaves the session from before the login |
| `Scenarios.LoginThenProfile` | routes/demo.js:153-192 | after an accepted login that was saved, the profile renders; after one whose save failed, the login redirects to /login, nothing changed, and the profile answers as it did before |
| `Scenarios.LoginTwice` | routes/demo.js:105-164 | the same login twice in a row gives the same answer and leaves the same state |

## Left out

- Database connection, collection API and `app.listen` (app.js:57-59): I/O. The collection is in memory.
- `_id` values: modelled as natural numbers from a counter, not ObjectIds. How ids survive session storage is not modelled.
- Session store persistence, cookies and `resave`/`saveUninitialized` (app.js:10-32): the store is one record per client. The timing of `save` callbacks and of the write at the end of a response is not modelled.
- The write at the end of a response (logout, login with an unknown email, GET /signup) is taken to succeed: only the explicit `req.session.save` calls take `Env.saveOk`. `Scenarios.LogoutThenProfile` relies on this.
- `console.log` and `console.error` (routes/demo.js:158, 169): logging, I/O.
- bcrypt internals and the cost factor 12 (routes/demo.js:91): a foreign library. So the model proves nothing about `hash(p)` differing from `p`, and nothing about a matching password being accepted.
- Concurrent requests: out of scope. Email uniqueness is proved only for requests run one after another. The 403 branch of `/admin` can be reached only when the collection changes between the middleware and the gate, which needs a concurrent request.
- EJS rendering, static files, body parsing and the catch-all 500 handler (app.js:22-26, 53-55): framework plumbing. An outcome is a view name or a status code. `Failure` stands for a thrown error. Whether Express then reaches the error handler is not modelled.
- Form fields that arrive as arrays (a repeated key in the body): fields are strings or absent.
- JavaScript strings with lone surrogates: Dafny strings hold Unicode scalar values only.
- `res.status("401")` passes a string where a number is usual: modelled as status 401.
