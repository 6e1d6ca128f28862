# Strideify authentication middleware, modelled in Dafny

Strideify's backend serves two routes, `/signup` and `/login`. Each route runs
a chain of middlewares:

- `dbConnect` checks the MongoDB Atlas credentials in the environment and opens the connection.
- `createUserIfNotExist` (signup) or `checkCredentials` (login) comes next.
- A final handler answers `{"message": "success"}`.

A user record holds a unique username and one session token. The token is a
JSON Web Token (RFC 7519) signed over the claim `{username, password}`, whose
`password` field holds the bcrypt hash of the password. Signup stores a new
record and sets the token as the `jwt` cookie. Login decodes the stored token
and compares the password with the hash inside it. On a match it signs a new
token over a fresh hash, overwrites the record and sets the cookie to the new
token.

The model is in four files:

- `wrappers.dfy`: `Option`.
- `crypto.dfy`: bcrypt and jsonwebtoken as a record of abstract functions, `Crypto.Primitives`. Their laws are the predicate `Crypto.Sound`:
  - a password matches any hash made of it;
  - a token verifies to its claim during `[iat, iat + ttl)`;
  - a token fails to verify once that window has passed.

  Every lemma that relies on these laws takes `Sound` as a precondition.
- `middleware.dfy`: the three middlewares.
  - `DbConnect`, `SignupSpec` and `LoginSpec` are functions from the state before a request to an `Effect`: the outcome, the user map and the response cookie.
  - The class `Server` holds the user map (`users`) and the response cookie (`cookie`). Its methods `Signup` and `Login` run the same early-return steps in place. Each method is proved equal to its function.
- `app.dfy`: the routes of `backend/main.ts`, with methods that run them against a `Server`. `Serve` runs any sequence of requests, and lemmas describe what every such history does to the accounts.

The following things become explicit parameters:

- the environment variables (`Middleware.Env`);
- the salt bcrypt draws;
- the clock at which a token is issued or verified;
- whether `mongoose.connect` throws synchronously;
- whether the database write of a handler fails.

JavaScript's `!value` on an environment variable is true for an unset variable
and for an empty string. `Middleware.Present` models both as missing.

## Model

| member | source | states |
|---|---|---|
| Middleware.DbConnect | backend/middleware.ts:29-45 | A missing Atlas username gives 500 "Missing Atlas username". That check comes before the password check, which gives 500 "Missing Atlas password". A synchronous connect failure gives 500 "Failed to connect to Atlas". `next` is reached exactly when both variables are set and connect did not throw. |
| Middleware.SignupSpec | backend/middleware.ts:58-86 | An existing username gives 401 "User already exists with this username", even when the secret is missing. A missing secret gives 500 "Token secret missing". `next` is reached exactly when the name is new, the secret is set and the save succeeds. Every failure leaves the store and the cookie unchanged. Success adds exactly the record `username -> sign({username, hash(password, salt)})` and leaves all other records alone. The plaintext password is never stored. The cookie equals the stored token. |
| Middleware.LoginSpec | backend/middleware.ts:99-144 | An absent user gives 401 "Username or password incorrect". A missing secret gives 500 before any verification. A stored token that fails to verify gives 403 "Invalid token". A password that does not match the decoded hash gives 401 with the same message. A failing update gives 500 "Internal failure". `next` is reached exactly when every check passes. Failures change neither the store nor the cookie. Success keeps the set of usernames and every other token. It replaces this user's token with a new one signed over a fresh hash, and the cookie equals that token. |
| Middleware.FreshRecordLogsIn | backend/middleware.ts:110-143 | Assume the crypto laws. A record whose token was issued for the password under the current secret, and has not expired, passes login when the update does not fail. |
| Middleware.ExpiredRecordRejected | backend/middleware.ts:115-121 | Assume the crypto laws. A stored token whose lifetime has elapsed makes login answer 403 "Invalid token", whatever the password, and leaves the state unchanged. |
| Middleware.RejectionsIndistinguishable | backend/middleware.ts:106-126 | A login for an unknown username and a login with a wrong password give the same answer: 401 "Username or password incorrect". |
| Middleware.Server.constructor | backend/schemas.ts:3-6 | A new server starts with an empty user collection and no cookie. |
| Middleware.Server.Signup | backend/middleware.ts:58-86 | Runs the signup steps in place. The outcome, the new user map and the new cookie are exactly those `SignupSpec` gives for the old state. |
| Middleware.Server.Login | backend/middleware.ts:99-144 | Runs the login steps in place. The outcome, the new user map and the new cookie are exactly those `LoginSpec` gives for the old state. |
| App.Finish | backend/main.ts:14-20 | The final handler turns `next` into 200 "success" and passes every rejection through unchanged. |
| App.SignupRoute | backend/main.ts:14-16 | `/signup` answers 200 "success" exactly when `dbConnect` passes and signup succeeds. Any other answer is an error that leaves the store alone and sets no cookie. On success the store gains the new record and the cookie is its token. |
| App.LoginRoute | backend/main.ts:18-20 | `/login` answers 200 "success" exactly when `dbConnect` passes and login succeeds. Any other answer is an error that leaves the store alone and sets no cookie. On success exactly this user's token is rotated and the cookie is the new token. |
| App.HandleSignup | backend/main.ts:14-16 | Runs `/signup` against a `Server` with a fresh response. The result is exactly `SignupRoute` of the old store. |
| App.HandleLogin | backend/main.ts:18-20 | Runs `/login` against a `Server` with a fresh response. The result is exactly `LoginRoute` of the old store. |
| App.SignupThenLogin | backend/middleware.ts:72-143 | Assume the crypto laws and a complete configuration. A signup followed by a login with the same password before the token expires: both answer 200 "success", the login keeps the set of accounts, and the cookie is the rotated token. |
| App.LoginThenLogin | backend/middleware.ts:128-142 | Assume the crypto laws. After a successful login, another login with the same password before the new token expires also succeeds. |
| App.Dispatch | backend/main.ts:14-20 | A single request never removes an account. Only a signup creates one, and it creates only the requested username. No other user's record changes. |
| App.ServeKeepsAccounts | backend/main.ts:14-20 | No sequence of requests deletes an account. |
| App.ServeCreatesOnlyBySignup | backend/middleware.ts:80-81 | After any sequence of requests, every account either existed before or was named by one of its signup requests. |
| App.ServeIsolatesUsers | backend/middleware.ts:137 | Over any sequence of requests that never names `u`, the record of `u` is not created, removed or changed. |

## Left out

- bcrypt internals, its salt rounds (10) and its randomness. `hash` and `compare` are abstract functions, and the salt is a parameter.
- jsonwebtoken internals: the encoding, the signature algorithm and the `iat`/`exp` arithmetic. `sign` and `verify` are abstract functions, and the only assumption about expiry is the `[iat, iat + ttl)` window in `Crypto.Sound`. Nothing is assumed about a token verified under another secret or a tampered token.
- An unset or malformed `JWT_EXPIRES_IN`. The model takes it as a number of clock units. The case where jsonwebtoken refuses the option and throws is not modelled.
- Mongoose itself: the connection URI, the asynchronous connection and its rejection, and real persistence. The user collection is an in-memory map.
- Failures of the `findOne` reads, and `bcrypt.compare` throwing on a malformed hash. Only the writes have a failure parameter:
  - an uncaught `newUser.save()` rejection becomes `Outcome.Thrown`;
  - the caught `findOneAndUpdate` error becomes 500 "Internal failure".
- How Hono answers an escaped exception. The model stops at `Thrown`.
- The races between `findOne` and `save` in signup, and between two concurrent logins. Requests are modelled one after another.
- Hono routing, `Deno.serve`, body parsing (`c.req.json()`) and the Angular `AuthComponent`. These are HTTP wiring and UI.
- A session-verification or "superseded token" flow. The backend has no such handler.
- Whether a rotated token differs from the previous one. It depends on bcrypt producing different hashes for different salts, and the model assumes nothing about that.
