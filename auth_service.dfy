/**
 * `AuthService`: signup and signin over the user table, and token
 * verification. Password hashing and tokens are foreign: a `Crypto` value
 * supplies `hash`, `compare`, `sign` and `verify` as plain functions, and the
 * signing secret is a parameter.
 */
module AuthService {
  import opened Wrappers
  import opened Domain
  import opened ErrorHandler
  import opened Store
  import AuthSchemas

  /** Why `jwt.verify` refused a token. */
  datatype JwtFailure = Malformed | BadSignature | Expired

  datatype Crypto = Crypto(
    hash: string -> string,
    compare: (string, string) -> bool,
    sign: (AuthUser, string) -> string,
    verify: (string, string) -> Result<AuthUser, JwtFailure>)

  /** `bcrypt.compare` accepts a password against its own hash. */
  ghost predicate HashesCheck(c: Crypto) {
    forall p :: c.compare(p, c.hash(p))
  }

  datatype AuthResponse = AuthResponse(token: string, user: AuthUser)

  /** The answer a session for the stored user gets: a token for the same {id, username, role}. */
  function ResponseFor(u: User, c: Crypto, secret: string): (r: AuthResponse)
    ensures r.user == AuthUserOf(u) && r.token == c.sign(r.user, secret)
  {
    var user := AuthUserOf(u);
    AuthResponse(c.sign(user, secret), user)
  }

  /** The row a successful signup writes: the password is stored hashed. */
  function NewUser(id: Id, data: AuthSchemas.SignupData, c: Crypto, now: int): (u: User)
    ensures u.id == id && u.username == data.username && u.role == data.role
    ensures u.password == c.hash(data.password) && u.createdAt == now
  {
    User(id, data.username, c.hash(data.password), data.role, now)
  }

  /** `signup(data)`; `newId` and `now` are the id and timestamp the store assigns. */
  method Signup(db: Database, data: AuthSchemas.SignupData, c: Crypto, secret: string, newId: Id, now: int)
    returns (r: Result<AuthResponse, ErrorValue>)
    requires db.Valid() && newId !in db.users && newId != ""
    modifies db`users
    ensures db.Valid()
    ensures UsernameTaken(old(db.users), data.username) ==>
      r == Err(AppError("Username already exists", 409)) && db.users == old(db.users)
    ensures !UsernameTaken(old(db.users), data.username) ==>
      && db.users == old(db.users)[newId := NewUser(newId, data, c, now)]
      && r == Ok(ResponseFor(NewUser(newId, data, c, now), c, secret))
    ensures old(db.AssigneesAreEmployees()) ==> db.AssigneesAreEmployees()
  {
    var existing := FindUserByUsername(db, data.username);
    if existing.Some? {
      return Err(AppError("Username already exists", 409));
    }
    var hashedPassword := c.hash(data.password);
    var user := User(newId, data.username, hashedPassword, data.role, now);
    db.users := db.users[newId := user];
    var authUser := AuthUser(user.id, user.username, user.role);
    r := Ok(AuthResponse(c.sign(authUser, secret), authUser));
  }

  /** What `signin` answers on a user table: the same 401 for an unknown user and a wrong password. */
  ghost function SigninOutcome(users: map<Id, User>, data: AuthSchemas.SigninData, c: Crypto, secret: string)
    : (r: Result<AuthResponse, ErrorValue>)
    ensures r.Err? ==> r.error == AppError("Invalid credentials", 401)
    ensures r.Ok? <==> UsernameTaken(users, data.username) && c.compare(data.password, UserNamed(users, data.username).password)
    ensures r.Ok? ==> r.value == ResponseFor(UserNamed(users, data.username), c, secret)
  {
    if !UsernameTaken(users, data.username) then Err(AppError("Invalid credentials", 401))
    else
      var u := UserNamed(users, data.username);
      if !c.compare(data.password, u.password) then Err(AppError("Invalid credentials", 401))
      else Ok(ResponseFor(u, c, secret))
  }

  /** `signin(data)`: reads the user table and changes nothing. */
  method Signin(db: Database, data: AuthSchemas.SigninData, c: Crypto, secret: string)
    returns (r: Result<AuthResponse, ErrorValue>)
    requires db.Valid()
    ensures r == SigninOutcome(db.users, data, c, secret)
    ensures !UsernameTaken(db.users, data.username) ==> r == Err(AppError("Invalid credentials", 401))
  {
    var user := FindUserByUsername(db, data.username);
    if user.None? {
      return Err(AppError("Invalid credentials", 401));
    }
    var isValidPassword := c.compare(data.password, user.value.password);
    if !isValidPassword {
      return Err(AppError("Invalid credentials", 401));
    }
    var authUser := AuthUser(user.value.id, user.value.username, user.value.role);
    r := Ok(AuthResponse(c.sign(authUser, secret), authUser));
  }

  /** A user inserted under a fresh id and an untaken username is the one that name now finds. */
  lemma InsertedUserIsFound(users: map<Id, User>, u: User)
    requires forall a, b :: a in users && b in users && users[a].username == users[b].username ==> a == b
    requires u.id !in users && !UsernameTaken(users, u.username)
    ensures UsernameTaken(users[u.id := u], u.username)
    ensures UserNamed(users[u.id := u], u.username) == u
  {
    var users' := users[u.id := u];
    assert users'[u.id].username == u.username;
  }

  /**
   * Signing in right after a successful signup, with the same password,
   * succeeds and yields the same user and token, provided compare accepts a
   * password against its hash.
   */
  lemma SignupThenSignin(users: map<Id, User>, data: AuthSchemas.SignupData, c: Crypto, secret: string, newId: Id, now: int)
    requires HashesCheck(c)
    requires forall a, b :: a in users && b in users && users[a].username == users[b].username ==> a == b
    requires newId !in users && !UsernameTaken(users, data.username)
    ensures var u := NewUser(newId, data, c, now);
      SigninOutcome(users[newId := u], AuthSchemas.SigninData(data.username, data.password), c, secret)
        == Ok(ResponseFor(u, c, secret))
  {
    var u := NewUser(newId, data, c, now);
    InsertedUserIsFound(users, u);
    assert c.compare(data.password, c.hash(data.password));
  }

  /** `verifyToken(token)`: the decoded user, or 401 'Invalid or expired token' for every failure. */
  function VerifyToken(token: string, c: Crypto, secret: string): (r: Result<AuthUser, ErrorValue>)
    ensures r.Ok? <==> c.verify(token, secret).Ok?
    ensures r.Ok? ==> r.value == c.verify(token, secret).value
    ensures r.Err? ==> r.error == AppError("Invalid or expired token", 401)
  {
    match c.verify(token, secret)
    case Ok(user) => Ok(user)
    case Err(_) => Err(AppError("Invalid or expired token", 401))
  }

  /** Every kind of verification failure gets the same answer. */
  lemma FailuresLookAlike(t1: string, t2: string, c: Crypto, secret: string)
    requires c.verify(t1, secret).Err? && c.verify(t2, secret).Err?
    ensures VerifyToken(t1, c, secret) == VerifyToken(t2, c, secret)
  {
  }
}
