/**
 * The older signup and signin handlers: the express-validator rule set
 * first (400), then the same flow as `AuthService`, with the secret read
 * from the environment afterwards; a missing or empty secret is answered 500,
 * and by then signup has already stored the user.
 */
module AuthController {
  import opened Wrappers
  import opened Domain
  import opened ErrorHandler
  import opened Store
  import opened Requests
  import opened Validation
  import AuthSchemas
  import AuthService

  datatype Body = AuthJson(auth: AuthService.AuthResponse) | ErrorJson(error: string) | ErrorsJson(errors: seq<FieldError>)

  datatype Response = Response(status: int, body: Body)

  const InternalError := Response(500, ErrorJson("Internal server error"))

  /** The signup data a body carries once its rules pass. */
  function SignupDataOf(b: RawAuthBody): (d: AuthSchemas.SignupData)
    requires SignupErrors(b) == []
    ensures AuthSchemas.ParseSignup(b) == Some(d)
  {
    SignupRulesAgree(b);
    AuthSchemas.ParseSignup(b).value
  }

  /** `signup`: 400, then 409, then the insert; 500 when `JWT_SECRET` is falsy, else 201. */
  method Signup(db: Database, b: RawAuthBody, c: AuthService.Crypto, jwtSecret: Option<string>, newId: Id, now: int)
    returns (r: Response)
    requires db.Valid() && newId !in db.users && newId != ""
    modifies db`users
    ensures db.Valid()
    ensures SignupErrors(b) != [] ==> r == Response(400, ErrorsJson(SignupErrors(b))) && db.users == old(db.users)
    ensures SignupErrors(b) == [] && UsernameTaken(old(db.users), b.username.value) ==>
      r == Response(409, ErrorJson("Username already exists")) && db.users == old(db.users)
    ensures SignupErrors(b) == [] && !UsernameTaken(old(db.users), b.username.value) ==>
      var u := AuthService.NewUser(newId, SignupDataOf(b), c, now);
      && db.users == old(db.users)[newId := u]
      && r == if Truthy(jwtSecret) then Response(201, AuthJson(AuthService.ResponseFor(u, c, jwtSecret.value)))
              else InternalError
  {
    var errors := SignupErrors(b);
    if errors != [] {
      return Response(400, ErrorsJson(errors));
    }
    var data := SignupDataOf(b);
    var result := AuthService.Signup(db, data, c, jwtSecret.GetOr(""), newId, now);
    if result.Err? {
      return Response(409, ErrorJson("Username already exists"));
    }
    if !Truthy(jwtSecret) {
      return InternalError;
    }
    r := Response(201, AuthJson(result.value));
  }

  /** `signin`: 400, then the same 401 for an unknown user and a wrong password, then the secret check, else 200. */
  method Signin(db: Database, b: RawAuthBody, c: AuthService.Crypto, jwtSecret: Option<string>) returns (r: Response)
    requires db.Valid()
    ensures SigninErrors(b) != [] ==> r == Response(400, ErrorsJson(SigninErrors(b)))
    ensures SigninErrors(b) == [] ==>
      var outcome := AuthService.SigninOutcome(db.users, AuthSchemas.SigninData(b.username.value, b.password.value), c, jwtSecret.GetOr(""));
      r == if outcome.Err? then Response(401, ErrorJson("Invalid credentials"))
           else if !Truthy(jwtSecret) then InternalError
           else Response(200, AuthJson(outcome.value))
  {
    var errors := SigninErrors(b);
    if errors != [] {
      return Response(400, ErrorsJson(errors));
    }
    var data := AuthSchemas.SigninData(b.username.value, b.password.value);
    var result := AuthService.Signin(db, data, c, jwtSecret.GetOr(""));
    if result.Err? {
      return Response(401, ErrorJson("Invalid credentials"));
    }
    if !Truthy(jwtSecret) {
      return InternalError;
    }
    r := Response(200, AuthJson(result.value));
  }
}
