/** Credential resolution on the login screen (screens/LoginScreen.tsx). */
module LoginScreen {
  import opened Common
  import opened Types

  /** The admin password a fresh browser starts from. */
  const DefaultAdminPassword := "admini"

  const AdminUser := User("admin-user", "admin", "Administrator", Admin)

  const LoginErrorMessage := "Username atau password salah."

  /** The admin password in effect: the stored one, if any. */
  function AdminPassword(stored: Option<string>): (p: string)
    ensures stored.None? ==> p == DefaultAdminPassword
    ensures stored.Some? ==> p == stored.value
  {
    stored.GetOr(DefaultAdminPassword)
  }

  /** The admin check: the user name in any letter case, the password exactly. */
  predicate IsAdminLogin(username: string, password: string, stored: Option<string>) {
    Lower(username) == "admin" && password == AdminPassword(stored)
  }

  /** A student record matches on exactly equal `nis` and `password`; a record
      without a password never matches. */
  function Credentials(username: string, password: string): Siswa -> bool {
    (s: Siswa) => s.nis == username && s.password == Some(password)
  }

  function StudentUser(s: Siswa): (u: User)
    ensures u.id == s.id && u.nis == s.nis && u.nama == s.nama && u.role.Student?
  {
    User(s.id, s.nis, s.nama, Student)
  }

  datatype LoginOutcome = LoggedIn(user: User) | LoginFailed(error: string)

  /** `handleLogin`: the admin check first, then the first matching student,
      else the error message. */
  function ResolveLogin(username: string, password: string, stored: Option<string>, students: seq<Siswa>): (r: LoginOutcome)
    ensures IsAdminLogin(username, password, stored) ==> r == LoggedIn(AdminUser)
    ensures !IsAdminLogin(username, password, stored) ==>
              (r.LoggedIn? <==> exists k :: 0 <= k < |students| && Credentials(username, password)(students[k]))
    ensures !IsAdminLogin(username, password, stored) && r.LoggedIn? ==>
              var k := FindIndex(students, Credentials(username, password));
              k < |students| && r.user == StudentUser(students[k])
    ensures r.LoginFailed? ==> r.error == LoginErrorMessage
  {
    if IsAdminLogin(username, password, stored) then LoggedIn(AdminUser)
    else match Find(students, Credentials(username, password))
      case Some(s) => LoggedIn(StudentUser(s))
      case None => LoginFailed(LoginErrorMessage)
  }

  /** The admin account is reachable in every letter case of its name, and a
      student only with the exact `nis`. */
  lemma LoginCaseRules(stored: Option<string>)
    ensures ResolveLogin("ADMIN", AdminPassword(stored), stored, []) == LoggedIn(AdminUser)
    ensures ResolveLogin("Admin", AdminPassword(stored), stored, []) == LoggedIn(AdminUser)
    ensures ResolveLogin("AB12", "pw", stored, [Siswa("s1", "ab12", "Budi", "k1", Some("pw"))]).LoginFailed?
    ensures ResolveLogin("ab12", "pw", stored, [Siswa("s1", "ab12", "Budi", "k1", Some("pw"))])
            == LoggedIn(User("s1", "ab12", "Budi", Student))
  {
    assert Lower("ADMIN") == "admin";
    assert Lower("Admin") == "admin";
    assert Lower("AB12") != "admin";
    assert Lower("ab12") != "admin";
  }

  /** A student whose `nis` spells `admin` in some case cannot log in with the
      admin password: the admin account wins. */
  lemma AdminWinsOverStudent(username: string, stored: Option<string>, students: seq<Siswa>)
    requires Lower(username) == "admin"
    ensures ResolveLogin(username, AdminPassword(stored), stored, students) == LoggedIn(AdminUser)
  {
  }

  /** The login form: `error` is cleared at the start of every attempt and set
      only when the attempt fails. */
  class LoginForm {
    var username: string
    var password: string
    var error: string

    constructor ()
      ensures username == "" && password == "" && error == ""
    {
      username, password, error := "", "", "";
    }

    method HandleLogin(stored: Option<string>, students: seq<Siswa>) returns (onLogin: Option<User>)
      modifies this`error
      ensures var r := ResolveLogin(username, password, stored, students);
              (onLogin.Some? <==> r.LoggedIn?) &&
              (r.LoggedIn? ==> onLogin.value == r.user && error == "") &&
              (r.LoginFailed? ==> error == LoginErrorMessage)
    {
      error := "";
      var r := ResolveLogin(username, password, stored, students);
      if r.LoggedIn? {
        onLogin := Some(r.user);
      } else {
        onLogin := None;
        error := r.error;
      }
    }
  }
}
