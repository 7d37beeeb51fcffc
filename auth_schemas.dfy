/** The zod schemas for the signup and signin bodies. */
module AuthSchemas {
  import opened Wrappers
  import opened Domain
  import opened Text
  import opened Requests

  datatype SignupData = SignupData(username: string, password: string, role: Role)
  datatype SigninData = SigninData(username: string, password: string)

  /** `min(3).max(30).regex(/^[a-zA-Z0-9_]+$/)`; zod measures `length` in UTF-16 code units. */
  predicate UsernameOk(u: string) {
    3 <= Utf16Length(u) <= 30 && AllChars(u, IsWordChar)
  }

  /** `signupSchema`: username, password of at least 6 characters, and a role name. */
  function ParseSignup(b: RawAuthBody): (r: Option<SignupData>)
    ensures r.Some? <==>
      && b.username.Some? && 3 <= Utf16Length(b.username.value) <= 30
      && (forall i :: 0 <= i < |b.username.value| ==> IsWordChar(b.username.value[i]))
      && b.password.Some? && Utf16Length(b.password.value) >= 6
      && b.role.Some? && (b.role.value == "EMPLOYER" || b.role.value == "EMPLOYEE")
    ensures r.Some? ==>
      && r.value.username == b.username.value && r.value.password == b.password.value
      && RoleName(r.value.role) == b.role.value
  {
    if b.username.Some? && UsernameOk(b.username.value) && b.password.Some? && Utf16Length(b.password.value) >= 6
       && b.role.Some? && ParseRole(b.role.value).Some?
    then Some(SignupData(b.username.value, b.password.value, ParseRole(b.role.value).value))
    else None
  }

  /** `signinSchema`: a non-empty username and password, nothing more. */
  function ParseSignin(b: RawAuthBody): (r: Option<SigninData>)
    ensures r.Some? <==> b.username.Some? && b.username.value != "" && b.password.Some? && b.password.value != ""
    ensures r.Some? ==> r.value == SigninData(b.username.value, b.password.value)
  {
    if b.username.Some? && Utf16Length(b.username.value) >= 1 && b.password.Some? && Utf16Length(b.password.value) >= 1
    then Some(SigninData(b.username.value, b.password.value))
    else None
  }

  /** Every accepted signup is an accepted signin with the same credentials. */
  lemma SignupCredentialsSignIn(b: RawAuthBody)
    requires ParseSignup(b).Some?
    ensures ParseSignin(b) == Some(SigninData(ParseSignup(b).value.username, ParseSignup(b).value.password))
  {
  }

  /** A role name outside the two is refused even when the credentials are well formed. */
  lemma UnknownRoleRefused(u: string, p: string)
    ensures ParseSignup(RawAuthBody(Some(u), Some(p), Some("ADMIN"))).None?
  {
  }
}
