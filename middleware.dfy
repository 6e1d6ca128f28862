/**
 * The three middlewares of backend/middleware.ts: the configuration guard
 * `dbConnect`, signup (`createUserIfNotExist`) and login (`checkCredentials`).
 *
 * Each handler is specified by a function from the state before the request
 * (the user collection and the `jwt` cookie of the response) to the outcome
 * and the state after it; the `Server` class below performs the same steps
 * in place and is proved to agree with those functions.
 */
module Middleware {
  import opened Wrappers
  import opened Crypto

  /** The user collection (backend/schemas.ts): one record per unique
      username, holding that user's current session token. */
  type Users = map<string, string>

  /** The environment variables the middlewares read. */
  datatype Env = Env(
    atlasUsername: Option<string>,   // MONGO_ATLAS_USERNAME
    atlasPassword: Option<string>,   // MONGO_ATLAS_PASSWORD
    jwtSecret: Option<string>,       // JWT_SECRET
    jwtExpiresIn: nat)               // JWT_EXPIRES_IN

  /** How a middleware ends: by calling `next()`, by answering with a JSON
      message and a status, or by letting an exception escape. */
  datatype Outcome = Next | Reply(status: int, message: string) | Thrown

  /** The outcome of a request together with the state it leaves behind. */
  datatype Effect = Effect(outcome: Outcome, users: Users, cookie: Option<string>)

  const MissingAtlasUsername := "Missing Atlas username"
  const MissingAtlasPassword := "Missing Atlas password"
  const AtlasConnectFailed := "Failed to connect to Atlas"
  const UserExists := "User already exists with this username"
  const SecretMissing := "Token secret missing"
  const BadCredentials := "Username or password incorrect"
  const InvalidToken := "Invalid token"
  const InternalFailure := "Internal failure"

  /** JavaScript's truthiness of `Deno.env.get(..)`: an unset variable and
      an empty one are both treated as missing. */
  predicate Present(v: Option<string>)
  {
    v.Some? && v.value != ""
  }

  /** An error answer: one of the statuses the middlewares use, or an
      escaped exception. */
  predicate IsRejection(o: Outcome)
  {
    o == Thrown || (o.Reply? && o.status in {401, 403, 500})
  }

  /** `dbConnect`: the Atlas username is checked before the password, and
      `next` is reached only when both are set and `mongoose.connect` did not
      throw. */
  function DbConnect(env: Env, connectThrows: bool): (o: Outcome)
    ensures !Present(env.atlasUsername) ==> o == Reply(500, MissingAtlasUsername)
    ensures Present(env.atlasUsername) && !Present(env.atlasPassword) ==> o == Reply(500, MissingAtlasPassword)
    ensures Present(env.atlasUsername) && Present(env.atlasPassword) && connectThrows ==> o == Reply(500, AtlasConnectFailed)
    ensures o == Next <==> Present(env.atlasUsername) && Present(env.atlasPassword) && !connectThrows
    ensures o != Next ==> o.Reply? && o.status == 500
  {
    if !Present(env.atlasUsername) then Reply(500, MissingAtlasUsername)
    else if !Present(env.atlasPassword) then Reply(500, MissingAtlasPassword)
    else if connectThrows then Reply(500, AtlasConnectFailed)
    else Next
  }

  /** The token a successful signup or login stores: the claim holds the
      username and a fresh hash of the password under `salt`, never the
      plaintext. */
  function IssuedToken(env: Env, crypto: Primitives, username: string, password: string, salt: string, now: int): string
    requires Present(env.jwtSecret)
  {
    crypto.sign(Claim(username, crypto.hash(password, salt)), env.jwtSecret.value, now, env.jwtExpiresIn)
  }

  /**
   * `createUserIfNotExist`. `salt` is the salt bcrypt generates, `now` the
   * clock at which the token is issued and `saveFails` whether
   * `newUser.save()` rejects (its rejection is not caught).
   */
  function SignupSpec(users: Users, cookie: Option<string>, env: Env, crypto: Primitives,
                      username: string, password: string, salt: string, now: int, saveFails: bool): (r: Effect)
    // an existing username is refused first, even when the secret is missing
    ensures username in users ==> r == Effect(Reply(401, UserExists), users, cookie)
    ensures username !in users && !Present(env.jwtSecret) ==> r == Effect(Reply(500, SecretMissing), users, cookie)
    ensures r.outcome == Next <==> username !in users && Present(env.jwtSecret) && !saveFails
    ensures r.outcome != Next ==> IsRejection(r.outcome) && r.users == users && r.cookie == cookie
    // success adds exactly one record and leaves every other one as it was
    ensures r.outcome == Next ==> r.users.Keys == users.Keys + {username}
    ensures r.outcome == Next ==> forall v :: v in users ==> r.users[v] == users[v]
    ensures r.outcome == Next ==> r.users[username] == IssuedToken(env, crypto, username, password, salt, now)
    ensures r.outcome == Next ==> r.cookie == Some(r.users[username])
  {
    if username in users then Effect(Reply(401, UserExists), users, cookie)
    else
      var hashed := crypto.hash(password, salt);
      var secret := env.jwtSecret;
      if !Present(secret) then Effect(Reply(500, SecretMissing), users, cookie)
      else
        var token := crypto.sign(Claim(username, hashed), secret.value, now, env.jwtExpiresIn);
        if saveFails then Effect(Thrown, users, cookie)
        else Effect(Next, users[username := token], Some(token))
  }

  /**
   * `checkCredentials`. `salt` and `now` are as for signup; `updateFails`
   * is whether `findOneAndUpdate` throws.
   */
  function LoginSpec(users: Users, cookie: Option<string>, env: Env, crypto: Primitives,
                     username: string, password: string, salt: string, now: int, updateFails: bool): (r: Effect)
    ensures username !in users ==> r == Effect(Reply(401, BadCredentials), users, cookie)
    // a missing secret is reported before any token is verified
    ensures username in users && !Present(env.jwtSecret) ==> r == Effect(Reply(500, SecretMissing), users, cookie)
    ensures username in users && Present(env.jwtSecret) && crypto.verify(users[username], env.jwtSecret.value, now).None? ==>
              r == Effect(Reply(403, InvalidToken), users, cookie)
    ensures username in users && Present(env.jwtSecret) && crypto.verify(users[username], env.jwtSecret.value, now).Some? ==>
              var claim := crypto.verify(users[username], env.jwtSecret.value, now).value;
              (!crypto.compare(password, claim.password) ==> r == Effect(Reply(401, BadCredentials), users, cookie)) &&
              (crypto.compare(password, claim.password) && updateFails ==> r == Effect(Reply(500, InternalFailure), users, cookie))
    ensures r.outcome == Next <==>
              && username in users && Present(env.jwtSecret) && !updateFails
              && var decoded := crypto.verify(users[username], env.jwtSecret.value, now);
                 decoded.Some? && crypto.compare(password, decoded.value.password)
    ensures r.outcome != Next ==> IsRejection(r.outcome) && r.users == users && r.cookie == cookie
    // success rotates the token of exactly this user
    ensures r.outcome == Next ==> r.users.Keys == users.Keys
    ensures r.outcome == Next ==> forall v :: v in users && v != username ==> r.users[v] == users[v]
    ensures r.outcome == Next ==> r.users[username] == IssuedToken(env, crypto, username, password, salt, now)
    ensures r.outcome == Next ==> r.cookie == Some(r.users[username])
  {
    if username !in users then Effect(Reply(401, BadCredentials), users, cookie)
    else
      var token := users[username];
      var secret := env.jwtSecret;
      if !Present(secret) then Effect(Reply(500, SecretMissing), users, cookie)
      else
        var decoded := crypto.verify(token, secret.value, now);
        if decoded.None? then Effect(Reply(403, InvalidToken), users, cookie)
        else if !crypto.compare(password, decoded.value.password) then Effect(Reply(401, BadCredentials), users, cookie)
        else
          var newToken := crypto.sign(Claim(username, crypto.hash(password, salt)), secret.value, now, env.jwtExpiresIn);
          if updateFails then Effect(Reply(500, InternalFailure), users, cookie)
          else Effect(Next, users[username := newToken], Some(newToken))
  }

  /** A record whose token was issued by `IssuedToken` for `password` at
      clock time `iat` under the secret now configured. */
  ghost predicate IssuedFor(users: Users, env: Env, crypto: Primitives, username: string, password: string, iat: int)
  {
    exists salt :: Present(env.jwtSecret) && username in users
                   && users[username] == IssuedToken(env, crypto, username, password, salt, iat)
  }

  /** A user whose stored token was issued for `password` and has not
      expired logs in with that password, unless the update throws. */
  lemma FreshRecordLogsIn(users: Users, cookie: Option<string>, env: Env, crypto: Primitives,
                          username: string, password: string, salt: string, iat: int, now: int)
    requires Sound(crypto)
    requires IssuedFor(users, env, crypto, username, password, iat)
    requires iat <= now < iat + env.jwtExpiresIn
    ensures LoginSpec(users, cookie, env, crypto, username, password, salt, now, false).outcome == Next
  {
    var s :| Present(env.jwtSecret) && username in users
             && users[username] == IssuedToken(env, crypto, username, password, s, iat);
    var claim := Claim(username, crypto.hash(password, s));
    assert crypto.verify(users[username], env.jwtSecret.value, now) == Some(claim);
    assert crypto.compare(password, claim.password);
  }

  /** A stored token whose lifetime has elapsed makes login fail with 403
      "Invalid token", whatever password is given, and changes nothing. */
  lemma ExpiredRecordRejected(users: Users, cookie: Option<string>, env: Env, crypto: Primitives,
                              username: string, password: string, storedPassword: string,
                              salt: string, iat: int, now: int, updateFails: bool)
    requires Sound(crypto)
    requires IssuedFor(users, env, crypto, username, storedPassword, iat)
    requires iat + env.jwtExpiresIn <= now
    ensures LoginSpec(users, cookie, env, crypto, username, password, salt, now, updateFails)
            == Effect(Reply(403, InvalidToken), users, cookie)
  {
    var s :| Present(env.jwtSecret) && username in users
             && users[username] == IssuedToken(env, crypto, username, storedPassword, s, iat);
    assert crypto.verify(users[username], env.jwtSecret.value, now) == None;
  }

  /** A login for an unknown username and a login with a wrong password are
      answered identically, so an answer does not reveal whether an account
      exists. */
  lemma RejectionsIndistinguishable(env: Env, crypto: Primitives, salt: string, now: int, updateFails: bool,
                                    users: Users, cookie: Option<string>, unknown: string, password: string,
                                    users': Users, cookie': Option<string>, known: string, wrong: string)
    requires unknown !in users
    requires known in users' && Present(env.jwtSecret)
    requires crypto.verify(users'[known], env.jwtSecret.value, now).Some?
    requires !crypto.compare(wrong, crypto.verify(users'[known], env.jwtSecret.value, now).value.password)
    ensures LoginSpec(users, cookie, env, crypto, unknown, password, salt, now, updateFails).outcome
            == LoginSpec(users', cookie', env, crypto, known, wrong, salt, now, updateFails).outcome
            == Reply(401, BadCredentials)
  {
  }

  /**
   * The state the middlewares share: the user collection and the `jwt`
   * cookie of the response being built. The environment and the crypto
   * libraries are fixed when the server is created.
   */
  class Server {
    var users: Users
    var cookie: Option<string>
    const env: Env
    const crypto: Primitives

    constructor (env: Env, crypto: Primitives)
      ensures users == map[] && cookie == None
      ensures this.env == env && this.crypto == crypto
    {
      users := map[];
      cookie := None;
      this.env := env;
      this.crypto := crypto;
    }

    /** createUserIfNotExist */
    method Signup(username: string, password: string, salt: string, now: int, saveFails: bool) returns (o: Outcome)
      modifies this`users, this`cookie
      ensures Effect(o, users, cookie)
              == SignupSpec(old(users), old(cookie), env, crypto, username, password, salt, now, saveFails)
    {
      if username in users {
        return Reply(401, UserExists);
      }
      var hashed := crypto.hash(password, salt);
      var payload := Claim(username, hashed);
      var secret := env.jwtSecret;
      if !Present(secret) {
        return Reply(500, SecretMissing);
      }
      var token := crypto.sign(payload, secret.value, now, env.jwtExpiresIn);
      if saveFails {
        return Thrown;
      }
      users := users[username := token];
      cookie := Some(token);
      return Next;
    }

    /** checkCredentials */
    method Login(username: string, password: string, salt: string, now: int, updateFails: bool) returns (o: Outcome)
      modifies this`users, this`cookie
      ensures Effect(o, users, cookie)
              == LoginSpec(old(users), old(cookie), env, crypto, username, password, salt, now, updateFails)
    {
      if username !in users {
        return Reply(401, BadCredentials);
      }
      var token := users[username];
      var secret := env.jwtSecret;
      if !Present(secret) {
        return Reply(500, SecretMissing);
      }
      var decoded := crypto.verify(token, secret.value, now);
      if decoded.None? {
        return Reply(403, InvalidToken);
      }
      var hashedPassword := decoded.value.password;
      var validPassword := crypto.compare(password, hashedPassword);
      if !validPassword {
        return Reply(401, BadCredentials);
      }
      var newPassword := crypto.hash(password, salt);
      var newToken := crypto.sign(Claim(username, newPassword), secret.value, now, env.jwtExpiresIn);
      if updateFails {
        return Reply(500, InternalFailure);
      }
      users := users[username := newToken];
      cookie := Some(newToken);
      return Next;
    }
  }
}
