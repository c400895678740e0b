/** `src/auth/AuthService.ts`: the login, registration, logout and token
    decision chains.  The foreign parts are parameters: `compare` is
    `bcrypt.compare(password, hash)`, `sign` is the JSON Web Token signer
    (`createToken`), `verifyJwt` the verifier (`None` for a rejected token),
    and a registration receives the bcrypt hash of the password already
    computed. */
module AuthService {
  import opened Common
  import opened Types
  import opened Tables
  import opened AuthRepository

  const UserNotFound: Failure := CustomError(401, "user not found", Validation)
  const IncorrectPassword: Failure := CustomError(401, "Incorrect password", Validation)
  const UsernameTaken: Failure := CustomError(403, "Username already taken", Validation)
  const TokenUserNotFound: Failure := CustomError(401, "authentication error, user not found", Auth)

  /** `{ username, userId: insertId }` */
  datatype Registered = Registered(username: string, userId: UserId)

  /** `login(username, password)` over the user table: the first row with
      that username, when the password matches its hash.  The row is
      returned whole: the `Omit<User, 'pass'>` of the source is a type cast
      only. */
  function Login(users: seq<User>, username: string, password: string, compare: (string, string) -> bool): (r: Result<User>)
    ensures FirstUserNamed(users, username).None? ==> r == Err(UserNotFound)
    ensures FirstUserNamed(users, username).Some? && !compare(password, FirstUserNamed(users, username).value.pass) ==>
      r == Err(IncorrectPassword)
    ensures FirstUserNamed(users, username).Some? && compare(password, FirstUserNamed(users, username).value.pass) ==>
      r == Ok(FirstUserNamed(users, username).value)
    ensures r.Ok? ==> r.value in users && r.value.username == username && compare(password, r.value.pass)
  {
    match FirstUserNamed(users, username)
    case None => Err(UserNotFound)
    case Some(user) =>
      if !compare(password, user.pass) then Err(IncorrectPassword) else Ok(user)
  }

  /** `generateToken(username)`: the signed user row without `pass`. */
  function GenerateToken(users: seq<User>, username: string, sign: TokenPayload -> string): (r: Result<string>)
    ensures r.Err? <==> FirstUserNamed(users, username).None?
    ensures r.Err? ==> r.error == TokenUserNotFound
    ensures r.Ok? ==> exists u :: u in users && u.username == username && r.value == sign(TokenPayload(u.id, u.username, u.displayName))
    ensures r.Ok? ==>
      var u := FirstUserNamed(users, username).value;
      r.value == sign(TokenPayload(u.id, u.username, u.displayName))
  {
    match FirstUserNamed(users, username)
    case None => Err(TokenUserNotFound)
    case Some(user) =>
      var payload := TokenPayload(user.id, user.username, user.displayName);
      Ok(sign(payload))
  }

  /** `isValidToken(token)`: `null` (`Ok(None)`) for an empty token or a
      blacklisted one; a verification failure rejects (the verifier throws,
      it never yields a falsy value); otherwise the row of the decoded
      username, `None` when there is none. */
  function IsValidToken(users: seq<User>, blacklist: seq<BlacklistRow>, token: string,
                        verifyJwt: string -> Option<JwtDecoded>): (r: Result<Option<User>>)
    ensures token == "" ==> r == Ok(None)
    ensures token != "" && verifyJwt(token).None? ==> r == Err(TokenRejected)
    ensures Blacklisted(blacklist, token) ==> r == Ok(None) || r == Err(TokenRejected)
    ensures token != "" && verifyJwt(token).Some? ==>
      r == Ok(if Blacklisted(blacklist, token) then None else FirstUserNamed(users, verifyJwt(token).value.username))
    ensures r.Ok? && r.value.Some? ==>
      && token != ""
      && !Blacklisted(blacklist, token)
      && verifyJwt(token).Some?
      && r.value.value in users
      && r.value.value.username == verifyJwt(token).value.username
  {
    if token == "" then Ok(None)
    else
      match verifyJwt(token)
      case None => Err(TokenRejected)
      case Some(decoded) =>
        if Blacklisted(blacklist, token) then Ok(None)
        else Ok(FirstUserNamed(users, decoded.username))
  }

  /** After registering a name with the hash of a password, logging in with
      that name and password gives the new row. */
  lemma LoginAfterRegister(users: seq<User>, username: string, password: string, hash: string,
                           id: UserId, compare: (string, string) -> bool)
    requires FirstUserNamed(users, username).None?
    requires compare(password, hash)
    ensures Login(users + [User(id, username, username, hash)], username, password, compare)
         == Ok(User(id, username, username, hash))
  {
    FirstUserNamedAppend(users, User(id, username, username, hash), username);
  }

  /** After logout, the token never again names a user. */
  lemma LogoutInvalidates(users: seq<User>, blacklist: seq<BlacklistRow>, token: string, now: int,
                          verifyJwt: string -> Option<JwtDecoded>)
    ensures var r := IsValidToken(users, blacklist + [BlacklistRow(token, now)], token, verifyJwt);
      r == Ok(None) || r == Err(TokenRejected)
  {
    BlacklistStays(blacklist, BlacklistRow(token, now), token);
  }

  /** A token for a user, once verified and not blacklisted, names that
      user again. */
  lemma ValidTokenNamesItsUser(users: seq<User>, blacklist: seq<BlacklistRow>, token: string,
                               verifyJwt: string -> Option<JwtDecoded>, u: User)
    requires token != "" && !Blacklisted(blacklist, token)
    requires verifyJwt(token).Some? && verifyJwt(token).value.username == u.username
    requires FirstUserNamed(users, u.username) == Some(u)
    ensures IsValidToken(users, blacklist, token, verifyJwt) == Ok(Some(u))
  {
  }

  /** The writing half of the service; the read-only chains above take the
      user and blacklist tables as arguments. */
  class AuthService {
    const repository: AuthRepository

    constructor(repository: AuthRepository)
      ensures this.repository == repository
    {
      this.repository := repository;
    }

    /** `register(username, password)`, with `hash` the password's hash:
        a taken name is refused and nothing is written; otherwise exactly
        one user row is added, and a lookup by the name finds it. */
    method Register(username: string, hash: string) returns (r: Result<Registered>)
      modifies repository.db`users
      ensures r.Err? <==> old(repository.GetByUser(username)).Some?
      ensures r.Err? ==> r.error == UsernameTaken && unchanged(repository.db`users)
      ensures r.Ok? ==>
        && r.value.username == username
        && repository.db.users == old(repository.db.users) + [User(r.value.userId, username, username, hash)]
        && repository.GetByUser(username) == Some(User(r.value.userId, username, username, hash))
    {
      var user := repository.GetByUser(username);
      if user.Some? {
        return Err(UsernameTaken);
      }
      var before := repository.db.users;
      var insertId := repository.CreateUser(username, hash);
      FirstUserNamedAppend(before, User(insertId, username, username, hash), username);
      r := Ok(Registered(username, insertId));
    }

    /** `logout(token)`: the token is blacklisted, stamped `now`. */
    method Logout(token: string, now: int)
      modifies repository.db`blacklist
      ensures repository.db.blacklist == old(repository.db.blacklist) + [BlacklistRow(token, now)]
      ensures repository.IsTokenBlacklisted(token)
    {
      repository.BlacklistToken(token, now);
    }
  }
}
