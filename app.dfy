/**
 * The two routes of backend/main.ts: `/signup` runs `dbConnect`, then
 * `createUserIfNotExist`, then a final handler answering "success";
 * `/login` does the same with `checkCredentials`. Each request gets a fresh
 * response, so it starts without a cookie.
 *
 * `Serve` runs a sequence of requests against the user collection, and the
 * lemmas at the end state what any such history does to the accounts.
 */
module App {
  import opened Wrappers
  import opened Crypto
  import opened Middleware

  const Success := "success"

  /** What the environment does to one request: whether `mongoose.connect`
      throws, and whether the database write of the handler fails. */
  datatype Faults = Faults(connectThrows: bool, writeFails: bool)

  /** The final handler: a request that passed every middleware is answered
      with status 200 and "success". */
  function Finish(r: Effect): (f: Effect)
    ensures f.users == r.users && f.cookie == r.cookie
    ensures f.outcome != Next
    ensures r.outcome == Next ==> f.outcome == Reply(200, Success)
    ensures IsRejection(r.outcome) ==> f.outcome == r.outcome
  {
    if r.outcome == Next then r.(outcome := Reply(200, Success)) else r
  }

  /** POST /signup */
  function SignupRoute(users: Users, env: Env, crypto: Primitives, faults: Faults,
                       username: string, password: string, salt: string, now: int): (r: Effect)
    ensures r.outcome == Reply(200, Success) <==>
              DbConnect(env, faults.connectThrows) == Next && username !in users
              && Present(env.jwtSecret) && !faults.writeFails
    ensures r.outcome != Reply(200, Success) ==> IsRejection(r.outcome) && r.users == users && r.cookie == None
    ensures r.outcome == Reply(200, Success) ==>
              && r.users == users[username := IssuedToken(env, crypto, username, password, salt, now)]
              && r.cookie == Some(r.users[username])
  {
    var gate := DbConnect(env, faults.connectThrows);
    if gate != Next then Effect(gate, users, None)
    else Finish(SignupSpec(users, None, env, crypto, username, password, salt, now, faults.writeFails))
  }

  /** POST /login */
  function LoginRoute(users: Users, env: Env, crypto: Primitives, faults: Faults,
                      username: string, password: string, salt: string, now: int): (r: Effect)
    ensures r.outcome == Reply(200, Success) <==>
              DbConnect(env, faults.connectThrows) == Next
              && LoginSpec(users, None, env, crypto, username, password, salt, now, faults.writeFails).outcome == Next
    ensures r.outcome != Reply(200, Success) ==> IsRejection(r.outcome) && r.users == users && r.cookie == None
    ensures r.outcome == Reply(200, Success) ==>
              && username in users
              && r.users == users[username := IssuedToken(env, crypto, username, password, salt, now)]
              && r.cookie == Some(r.users[username])
  {
    var gate := DbConnect(env, faults.connectThrows);
    if gate != Next then Effect(gate, users, None)
    else Finish(LoginSpec(users, None, env, crypto, username, password, salt, now, faults.writeFails))
  }

  /** /signup run against a server: a fresh response, then the middleware
      chain, stopping at the first middleware that answers. */
  method HandleSignup(s: Server, faults: Faults, username: string, password: string, salt: string, now: int)
    returns (o: Outcome)
    modifies s`users, s`cookie
    ensures Effect(o, s.users, s.cookie)
            == SignupRoute(old(s.users), s.env, s.crypto, faults, username, password, salt, now)
  {
    s.cookie := None;
    o := DbConnect(s.env, faults.connectThrows);
    if o != Next {
      return;
    }
    o := s.Signup(username, password, salt, now, faults.writeFails);
    if o == Next {
      o := Reply(200, Success);
    }
  }

  /** /login run against a server. */
  method HandleLogin(s: Server, faults: Faults, username: string, password: string, salt: string, now: int)
    returns (o: Outcome)
    modifies s`users, s`cookie
    ensures Effect(o, s.users, s.cookie)
            == LoginRoute(old(s.users), s.env, s.crypto, faults, username, password, salt, now)
  {
    s.cookie := None;
    o := DbConnect(s.env, faults.connectThrows);
    if o != Next {
      return;
    }
    o := s.Login(username, password, salt, now, faults.writeFails);
    if o == Next {
      o := Reply(200, Success);
    }
  }

  /** A signup followed, before the token expires and with the same
      configuration, by a login with the same password: both succeed, and
      the login keeps the set of accounts. */
  lemma SignupThenLogin(users: Users, env: Env, crypto: Primitives, username: string, password: string,
                        salt1: string, t1: int, salt2: string, t2: int)
    requires Sound(crypto)
    requires Present(env.atlasUsername) && Present(env.atlasPassword) && Present(env.jwtSecret)
    requires username !in users
    requires t1 <= t2 < t1 + env.jwtExpiresIn
    ensures var r1 := SignupRoute(users, env, crypto, Faults(false, false), username, password, salt1, t1);
            var r2 := LoginRoute(r1.users, env, crypto, Faults(false, false), username, password, salt2, t2);
            && r1.outcome == Reply(200, Success)
            && r2.outcome == Reply(200, Success)
            && r2.users.Keys == r1.users.Keys == users.Keys + {username}
            && r2.cookie == Some(r2.users[username])
  {
    var r1 := SignupRoute(users, env, crypto, Faults(false, false), username, password, salt1, t1);
    assert IssuedFor(r1.users, env, crypto, username, password, t1);
    FreshRecordLogsIn(r1.users, None, env, crypto, username, password, salt2, t1, t2);
  }

  /** Token rotation keeps an account usable: after a successful login, a
      further login with the same password before the new token expires
      succeeds as well. */
  lemma LoginThenLogin(users: Users, env: Env, crypto: Primitives, username: string, password: string,
                       salt1: string, t1: int, salt2: string, t2: int)
    requires Sound(crypto)
    requires LoginRoute(users, env, crypto, Faults(false, false), username, password, salt1, t1).outcome == Reply(200, Success)
    requires t1 <= t2 < t1 + env.jwtExpiresIn
    ensures var r1 := LoginRoute(users, env, crypto, Faults(false, false), username, password, salt1, t1);
            LoginRoute(r1.users, env, crypto, Faults(false, false), username, password, salt2, t2).outcome
            == Reply(200, Success)
  {
    var r1 := LoginRoute(users, env, crypto, Faults(false, false), username, password, salt1, t1);
    assert IssuedFor(r1.users, env, crypto, username, password, t1);
    FreshRecordLogsIn(r1.users, None, env, crypto, username, password, salt2, t1, t2);
  }

  datatype Path = SignupPath | LoginPath

  /** One request: its route, its JSON body, the salt bcrypt draws for it,
      the clock when it is handled and the faults it meets. */
  datatype Call = Call(path: Path, username: string, password: string, salt: string, now: int, faults: Faults)

  function Dispatch(users: Users, env: Env, crypto: Primitives, c: Call): (r: Effect)
    ensures users.Keys <= r.users.Keys
    ensures r.users.Keys <= users.Keys + (if c.path == SignupPath then {c.username} else {})
    ensures forall v :: v != c.username ==> (v in r.users <==> v in users)
    ensures forall v :: v != c.username && v in users ==> r.users[v] == users[v]
  {
    match c.path
    case SignupPath => SignupRoute(users, env, crypto, c.faults, c.username, c.password, c.salt, c.now)
    case LoginPath => LoginRoute(users, env, crypto, c.faults, c.username, c.password, c.salt, c.now)
  }

  /** The user collection after handling `calls` one after another. */
  function Serve(users: Users, env: Env, crypto: Primitives, calls: seq<Call>): Users
    decreases |calls|
  {
    if calls == [] then users
    else Serve(Dispatch(users, env, crypto, calls[0]).users, env, crypto, calls[1..])
  }

  /** The usernames `calls` mention. */
  function Names(calls: seq<Call>): set<string>
    decreases |calls|
  {
    if calls == [] then {} else {calls[0].username} + Names(calls[1..])
  }

  /** The usernames of the signup requests among `calls`. */
  function SignupNames(calls: seq<Call>): set<string>
    decreases |calls|
  {
    if calls == [] then {}
    else (if calls[0].path == SignupPath then {calls[0].username} else {}) + SignupNames(calls[1..])
  }

  /** No history of requests deletes an account. */
  lemma {:induction false} ServeKeepsAccounts(users: Users, env: Env, crypto: Primitives, calls: seq<Call>)
    ensures users.Keys <= Serve(users, env, crypto, calls).Keys
    decreases |calls|
  {
    if calls != [] {
      ServeKeepsAccounts(Dispatch(users, env, crypto, calls[0]).users, env, crypto, calls[1..]);
    }
  }

  /** Accounts are created only by signup requests. */
  lemma {:induction false} ServeCreatesOnlyBySignup(users: Users, env: Env, crypto: Primitives, calls: seq<Call>)
    ensures Serve(users, env, crypto, calls).Keys <= users.Keys + SignupNames(calls)
    decreases |calls|
  {
    if calls != [] {
      ServeCreatesOnlyBySignup(Dispatch(users, env, crypto, calls[0]).users, env, crypto, calls[1..]);
    }
  }

  /** Requests for other usernames neither create, remove nor change the
      record of `u`. */
  lemma {:induction false} ServeIsolatesUsers(users: Users, env: Env, crypto: Primitives, calls: seq<Call>, u: string)
    requires u !in Names(calls)
    ensures u in Serve(users, env, crypto, calls) <==> u in users
    ensures u in users ==> Serve(users, env, crypto, calls)[u] == users[u]
    decreases |calls|
  {
    if calls != [] {
      ServeIsolatesUsers(Dispatch(users, env, crypto, calls[0]).users, env, crypto, calls[1..], u);
    }
  }
}
