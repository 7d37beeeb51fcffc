/**
 * The frontend login state: the signed-in user and the `isAuthenticated`
 * flag, overwritten together by `setAuth` and `clearAuth`.
 */
module FrontendAuthStore {
  import opened Wrappers
  import opened Domain
  import opened ClientTypes

  class AuthStore {
    var user: Option<ClientUser>
    var isAuthenticated: bool

    /** The flag is set exactly when a user is held. */
    ghost predicate Valid()
      reads this
    {
      isAuthenticated <==> user.Some?
    }

    /** The initial state: logged out. */
    constructor ()
      ensures Valid() && user == None && !isAuthenticated
    {
      user := None;
      isAuthenticated := false;
    }

    method SetAuth(u: ClientUser)
      modifies this
      ensures Valid() && user == Some(u) && isAuthenticated
    {
      user := Some(u);
      isAuthenticated := true;
    }

    /** `clearAuth`: logged out whatever the state was, so a second call changes nothing. */
    method ClearAuth()
      modifies this
      ensures Valid() && user == None && !isAuthenticated
    {
      user := None;
      isAuthenticated := false;
    }

    /** `user?.role === 'EMPLOYER'` */
    function IsEmployer(): (b: bool)
      reads this
      ensures b <==> user.Some? && user.value.role == Employer
    {
      match user
      case None => false
      case Some(u) => u.role == Employer
    }

    /** `user?.role === 'EMPLOYEE'` */
    function IsEmployee(): (b: bool)
      reads this
      ensures b <==> user.Some? && user.value.role == Employee
    {
      match user
      case None => false
      case Some(u) => u.role == Employee
    }
  }

  /** The two role tests never both hold, both fail when logged out, and one holds when logged in. */
  lemma RoleTestsExclusive(s: AuthStore)
    requires s.Valid()
    ensures !(s.IsEmployer() && s.IsEmployee())
    ensures !s.isAuthenticated ==> !s.IsEmployer() && !s.IsEmployee()
    ensures s.isAuthenticated ==> s.IsEmployer() || s.IsEmployee()
  {
  }
}
