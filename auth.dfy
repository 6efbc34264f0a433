/**
 * The authentication store: a session of two fields, the current user and
 * whether someone is logged in, overwritten by mock login, signup and logout,
 * and the derived admin flag.
 */
module Auth {
  import opened Options

  datatype User = User(id: int, email: string, name: string, role: string)

  /** What login and signup return: `{ success: true }` or `{ success: false, error }`. */
  datatype AuthResult = Success | Failure(error: string)

  const InvalidCredentials := "Invalid credentials"
  const AdminRole := "admin"
  const UserRole := "user"

  /** The two hard-coded accounts, as (email, password) pairs. */
  const Accounts: set<(string, string)> :=
    {("admin@example.com", "admin123"), ("user@example.com", "user123")}

  /** The user record that login installs for a pair, or nothing when the pair is not an account. */
  function AccountUser(email: string, password: string): (u: Option<User>)
    ensures u.Some? <==> (email, password) in Accounts
    ensures u.Some? ==> u.value.email == email
    ensures u.Some? ==> (u.value.role == AdminRole <==> email == "admin@example.com")
  {
    if email == "admin@example.com" && password == "admin123" then
      Some(User(1, "admin@example.com", "Admin User", AdminRole))
    else if email == "user@example.com" && password == "user123" then
      Some(User(2, "user@example.com", "Regular User", UserRole))
    else
      None
  }

  /** The derived isAdmin flag `user?.role === 'admin'`: no user is never an
      admin, and a present user is one exactly when the role is 'admin'. */
  predicate IsAdminUser(user: Option<User>)
    ensures IsAdminUser(user) ==> user.Some?
    ensures user.Some? ==> (IsAdminUser(user) <==> user.value.role == AdminRole)
  {
    user.Some? && user.value.role == AdminRole
  }

  /** Exactly the admin pair yields an admin; the regular pair yields a logged-in non-admin. */
  lemma AccountRoles(email: string, password: string)
    ensures IsAdminUser(AccountUser(email, password))
            <==> email == "admin@example.com" && password == "admin123"
    ensures AccountUser("user@example.com", "user123").Some?
    ensures !IsAdminUser(AccountUser("user@example.com", "user123"))
  {
    if IsAdminUser(AccountUser(email, password)) {
      assert (email, password) in Accounts;
    }
  }

  class AuthStore {
    var user: Option<User>
    var isAuthenticated: bool

    /** The session invariant: someone is logged in exactly when a user is present. */
    ghost predicate Valid()
      reads this
    {
      isAuthenticated <==> user.Some?
    }

    constructor()
      ensures Valid()
      ensures user == None && !isAuthenticated
    {
      user := None;
      isAuthenticated := false;
    }

    /** The store's computed isAdmin, recomputed from the current user; under
        the session invariant an admin is logged in. */
    predicate IsAdmin()
      reads this
      ensures IsAdmin() ==> user.Some? && user.value.role == AdminRole
      ensures Valid() && IsAdmin() ==> isAuthenticated
    {
      IsAdminUser(user)
    }

    /** Mock login: one of the two accounts replaces the session; anything else
        fails and leaves the session, logged in or not, as it was. */
    method Login(email: string, password: string) returns (result: AuthResult)
      modifies this
      ensures (email, password) in Accounts ==>
                result == Success && user == AccountUser(email, password) && isAuthenticated
      ensures (email, password) !in Accounts ==>
                && result == Failure(InvalidCredentials)
                && user == old(user) && isAuthenticated == old(isAuthenticated)
      ensures old(Valid()) ==> Valid()
    {
      if email == "admin@example.com" && password == "admin123" {
        user := Some(User(1, "admin@example.com", "Admin User", AdminRole));
        isAuthenticated := true;
        result := Success;
      } else if email == "user@example.com" && password == "user123" {
        user := Some(User(2, "user@example.com", "Regular User", UserRole));
        isAuthenticated := true;
        result := Success;
      } else {
        result := Failure(InvalidCredentials);
      }
    }

    /** Mock signup: always succeeds. `stamp` stands for the clock reading used as the id. */
    method Signup(stamp: int, name: string, email: string, password: string, role: string := UserRole)
      returns (result: AuthResult)
      modifies this
      ensures result == Success
      ensures user == Some(User(stamp, email, name, role)) && isAuthenticated
      ensures Valid()
      ensures IsAdmin() <==> role == AdminRole
    {
      user := Some(User(stamp, email, name, role));
      isAuthenticated := true;
      result := Success;
    }

    /** Logout: the new session does not depend on the old one, so a second logout changes nothing. */
    method Logout()
      modifies this
      ensures user == None && !isAuthenticated
      ensures Valid() && !IsAdmin()
    {
      user := None;
      isAuthenticated := false;
    }
  }

  /** Under the session invariant an admin is always logged in. */
  lemma AdminIsAuthenticated(store: AuthStore)
    requires store.Valid() && store.IsAdmin()
    ensures store.isAuthenticated
  {
  }
}
