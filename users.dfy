/** The OIDC demo's user store (oidc-demo/pkg/users/auth.go): one fixed user
    and a credential check against a single hard-coded login and password. */
module Users {
  import opened Wrappers

  datatype User = User(
    sub: string,
    name: string,
    givenName: string,
    familyName: string,
    preferredUsername: string,
    email: string,
    picture: string)

  /** Go's zero `User{}`: every field empty. */
  const NoUser := User("", "", "", "", "", "", "")

  /** `GetAllUsers`: the one known user. */
  function GetAllUsers(): (users: seq<User>)
    ensures |users| == 1
    ensures users[0].sub == "9-9-9-9" && users[0].preferredUsername == "raymond"
    ensures users[0].picture == ""
  {
    [User("9-9-9-9", "Raymond Yan", "Raymond", "Yan", "raymond", "keraymondyan69@gmail.com", "")]
  }

  /** The (ok, user, error) triple `Auth` returns. */
  datatype AuthResult = AuthResult(ok: bool, user: User, err: Option<string>)

  /** `Auth`: succeeds for login "raymond" with password "password" only; the
      mfa argument is never consulted. */
  function Auth(login: string, password: string, mfa: string): (r: AuthResult)
    ensures r.ok <==> login == "raymond" && password == "password"
    ensures r.ok <==> r.err.None?
    ensures r.ok ==> r.user == GetAllUsers()[0] && r.user.sub == "9-9-9-9"
    ensures !r.ok ==> r.user == NoUser && r.err == Some("invalid login or password")
  {
    if login == "raymond" && password == "password" then
      AuthResult(true, GetAllUsers()[0], None)
    else
      AuthResult(false, NoUser, Some("invalid login or password"))
  }

  /** The mfa argument never changes the outcome. */
  lemma AuthIgnoresMfa(login: string, password: string, mfa1: string, mfa2: string)
    ensures Auth(login, password, mfa1) == Auth(login, password, mfa2)
  {
  }
}
