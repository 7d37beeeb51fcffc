/**
 * The authentication middleware: the bearer token of the Authorization
 * header, the gate that verifies it and records the user on the request,
 * and the role gates. `next(error)` is modelled as a returned error and
 * `next()` as None.
 */
module AuthMiddleware {
  import opened Wrappers
  import opened Domain
  import opened Text
  import opened ErrorHandler
  import AuthService

  /** `authHeader && authHeader.split(' ')[1]`, as None when that is falsy or absent. */
  function TokenOf(header: Option<string>): (t: Option<string>)
    ensures t.Some? ==> t.value != "" && ' ' !in t.value
    ensures t.Some? ==> header.Some? && |Split(header.value, ' ')| >= 2 && t.value == Split(header.value, ' ')[1]
  {
    if header.None? || header.value == "" then None
    else
      var fields := Split(header.value, ' ');
      if |fields| < 2 || fields[1] == "" then None else Some(fields[1])
  }

  /** The token is the second word; the first word is not looked at. */
  lemma {:induction false} TokenIsSecondWord(scheme: string, token: string, rest: string)
    requires ' ' !in scheme && ' ' !in token && token != ""
    ensures TokenOf(Some(scheme + " " + token)) == Some(token)
    ensures TokenOf(Some(scheme + " " + token + " " + rest)) == Some(token)
  {
    SplitAfterField(scheme, token, ' ');
    SplitNoSep(token, ' ');
    assert scheme + " " + token + " " + rest == scheme + [' '] + (token + [' '] + rest);
    SplitAfterField(scheme, token + " " + rest, ' ');
    SplitAfterField(token, rest, ' ');
  }

  /** A header with no second word carries no token. */
  lemma NoSecondWord(word: string)
    requires ' ' !in word
    ensures TokenOf(Some(word)) == None
  {
    SplitNoSep(word, ' ');
  }

  /** The outcome of `authenticateToken` for a header: the user to record, or the error passed to `next`. */
  function Authenticate(header: Option<string>, c: AuthService.Crypto, secret: string): (r: Result<AuthUser, ErrorValue>)
    ensures TokenOf(header).None? ==> r == Err(AppError("Access token required", 401))
    ensures TokenOf(header).Some? ==> r == AuthService.VerifyToken(TokenOf(header).value, c, secret)
    ensures r.Err? ==> r.error.AppError? && r.error.statusCode == 401
  {
    match TokenOf(header)
    case None => Err(AppError("Access token required", 401))
    case Some(token) => AuthService.VerifyToken(token, c, secret)
  }

  class AuthRequest {
    var authorization: Option<string>
    var user: Option<AuthUser>

    constructor (authorization: Option<string>)
      ensures this.authorization == authorization && this.user == None
    {
      this.authorization := authorization;
      this.user := None;
    }
  }

  /** `authenticateToken`: sets `req.user` only when the token verifies. */
  method AuthenticateToken(req: AuthRequest, c: AuthService.Crypto, secret: string) returns (next: Option<ErrorValue>)
    modifies req`user
    ensures Authenticate(req.authorization, c, secret).Ok? ==>
      next == None && req.user == Some(Authenticate(req.authorization, c, secret).value)
    ensures Authenticate(req.authorization, c, secret).Err? ==>
      next == Some(Authenticate(req.authorization, c, secret).error) && req.user == old(req.user)
  {
    var token := TokenOf(req.authorization);
    if token.None? {
      return Some(AppError("Access token required", 401));
    }
    var user := AuthService.VerifyToken(token.value, c, secret);
    if user.Err? {
      return Some(user.error);
    }
    req.user := Some(user.value);
    next := None;
  }

  /** `requireRole(roles)`: 401 without a user, 403 for a role outside the list, else `next()`. */
  function RequireRole(roles: seq<Role>, user: Option<AuthUser>): (r: Option<ErrorValue>)
    ensures user.None? ==> r == Some(AppError("Authentication required", 401))
    ensures user.Some? && user.value.role !in roles ==> r == Some(AppError("Insufficient permissions", 403))
    ensures r.None? <==> user.Some? && user.value.role in roles
  {
    if user.None? then Some(AppError("Authentication required", 401))
    else if user.value.role !in roles then Some(AppError("Insufficient permissions", 403))
    else None
  }

  function RequireEmployer(user: Option<AuthUser>): (r: Option<ErrorValue>)
    ensures r.None? <==> user.Some? && user.value.role == Employer
  {
    RequireRole([Employer], user)
  }

  function RequireEmployee(user: Option<AuthUser>): (r: Option<ErrorValue>)
    ensures r.None? <==> user.Some? && user.value.role == Employee
  {
    RequireRole([Employee], user)
  }

  function RequireAnyRole(user: Option<AuthUser>): (r: Option<ErrorValue>)
    ensures r.None? <==> user.Some?
  {
    var roles := [Employer, Employee];
    assert user.Some? ==> user.value.role == roles[0] || user.value.role == roles[1];
    RequireRole(roles, user)
  }

  /** Behind `authenticateToken`, a role gate sees the verified user: it admits exactly the listed roles. */
  lemma GateAfterAuthentication(header: Option<string>, c: AuthService.Crypto, secret: string, roles: seq<Role>)
    requires Authenticate(header, c, secret).Ok?
    ensures var u := Authenticate(header, c, secret).value;
      RequireRole(roles, Some(u)).None? <==> c.verify(TokenOf(header).value, secret).value.role in roles
  {
  }
}
