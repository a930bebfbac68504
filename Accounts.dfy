/** The demo accounts and the login form's validation. */
module Accounts {
  import opened Wrappers
  import opened Text

  datatype User = User(username: string, role: string, name: string)

  /** The built-in demo accounts (there is none for Perawat). */
  const DemoUsers: seq<User> := [
    User("petugas1", "Petugas Administrasi", "Petugas A"),
    User("dokter1", "Dokter", "dr. Andi"),
    User("apoteker1", "Apoteker", "Apoteker A"),
    User("kasir1", "Kasir", "Kasir A"),
    User("manajer1", "Manajer Klinik", "Manajer"),
    User("pasien1", "Pasien", "Budi Santoso")
  ]

  /** Two names are equal once lower-cased. */
  predicate SameIgnoringCase(a: string, b: string) {
    Lower(a) == Lower(b)
  }

  /** `users[i]` is the first user whose username matches `username`. */
  predicate FirstMatchAt(users: seq<User>, username: string, i: int) {
    0 <= i < |users| && SameIgnoringCase(users[i].username, username) &&
    forall j :: 0 <= j < i ==> !SameIgnoringCase(users[j].username, username)
  }

  /** The first user in `users` whose username matches `username` ignoring case. */
  function FindIn(users: seq<User>, username: string): (r: Option<User>)
    ensures r.Some? ==> r.value in users && SameIgnoringCase(r.value.username, username)
    ensures r.Some? ==> exists i :: FirstMatchAt(users, username, i) && users[i] == r.value
    ensures r.None? <==> forall u :: u in users ==> !SameIgnoringCase(u.username, username)
  {
    if users == [] then None
    else if SameIgnoringCase(users[0].username, username) then Some(users[0])
    else
      var r := FindIn(users[1..], username);
      assert forall u :: u in users ==> u == users[0] || u in users[1..];
      if r.Some? then
        var i :| FirstMatchAt(users[1..], username, i) && users[1..][i] == r.value;
        assert FirstMatchAt(users, username, i + 1);
        r
      else r
  }

  /** `findDemoUser`: no user for an empty name, else the first case-insensitive match. */
  function FindDemoUser(username: string): (r: Option<User>)
    ensures username == [] ==> r.None?
    ensures r.Some? ==> r.value in DemoUsers && SameIgnoringCase(r.value.username, username)
    ensures username != [] && r.None? ==> forall u :: u in DemoUsers ==> !SameIgnoringCase(u.username, username)
  {
    if username == [] then None else FindIn(DemoUsers, username)
  }

  datatype LoginError = EmptyCredentials | UnknownUser | RoleMismatch

  /** The login form with every check: trimmed username and password must be
      non-empty, the username must belong to a demo user, and that user's role
      must equal the selected role ignoring case. */
  function Login(username: string, password: string, selectedRole: string): (r: Result<User, LoginError>)
    ensures r == Failure(EmptyCredentials) <==> Trim(username) == [] || Trim(password) == []
    ensures r == Failure(UnknownUser) <==>
      Trim(username) != [] && Trim(password) != [] && FindDemoUser(Trim(username)).None?
    ensures r == Failure(RoleMismatch) <==>
      Trim(username) != [] && Trim(password) != [] && FindDemoUser(Trim(username)).Some?
      && !SameIgnoringCase(FindDemoUser(Trim(username)).value.role, selectedRole)
    ensures r.Success? ==> (r.value in DemoUsers && SameIgnoringCase(r.value.username, Trim(username)) &&
      SameIgnoringCase(r.value.role, selectedRole))
  {
    var u, p := Trim(username), Trim(password);
    if u == [] || p == [] then Failure(EmptyCredentials)
    else match FindDemoUser(u)
      case None => Failure(UnknownUser)
      case Some(user) =>
        if !SameIgnoringCase(user.role, selectedRole) then Failure(RoleMismatch) else Success(user)
  }

  /** The login handler that is actually attached in the patched version: the
      same first two checks, and no role check. */
  function LoginAsBound(username: string, password: string): (r: Result<User, LoginError>)
    ensures r.Failure? ==> r.error != RoleMismatch
    ensures r == Failure(EmptyCredentials) <==> Trim(username) == [] || Trim(password) == []
    ensures r.Success? <==> Trim(username) != [] && Trim(password) != [] && FindDemoUser(Trim(username)).Some?
    ensures r.Success? ==> r.value == FindDemoUser(Trim(username)).value
  {
    var u, p := Trim(username), Trim(password);
    if u == [] || p == [] then Failure(EmptyCredentials)
    else match FindDemoUser(u)
      case None => Failure(UnknownUser)
      case Some(user) => Success(user)
  }

  /** The two agree except that the bound handler admits a user whose role differs from the selected one. */
  lemma {:induction false} LoginAsBoundOnlySkipsRoleCheck(username: string, password: string, selectedRole: string)
    ensures Login(username, password, selectedRole).Success? ==>
      LoginAsBound(username, password) == Login(username, password, selectedRole)
    ensures Login(username, password, selectedRole).Failure? && Login(username, password, selectedRole).error != RoleMismatch ==>
      LoginAsBound(username, password) == Login(username, password, selectedRole)
    ensures Login(username, password, selectedRole) == Failure(RoleMismatch) ==>
      LoginAsBound(username, password).Success?
  {
  }

  lemma TrimmedDoctor(username: string)
    requires username == "dokter1"
    ensures Trim(username) == username
  {
    TrimOfTrimmed(username);
  }

  lemma TrimmedPassword(password: string)
    requires password == "demo"
    ensures Trim(password) == password && password != []
  {
    TrimOfTrimmed(password);
  }

  lemma FindsDoctor(username: string)
    requires username == "dokter1"
    ensures FindDemoUser(username) == Some(DemoUsers[1])
  {
    var users := DemoUsers;
    assert !SameIgnoringCase(users[0].username, username) by {
      assert Lower(users[0].username)[0] == 'p' && Lower(username)[0] == 'd';
    }
    assert SameIgnoringCase(users[1].username, username) by {
      assert Lower(users[1].username) == "dokter1";
      assert Lower(username) == "dokter1";
    }
    assert users[1..][0] == users[1];
  }

  lemma DoctorIsNotCashier(selectedRole: string)
    requires selectedRole == "Kasir"
    ensures !SameIgnoringCase(DemoUsers[1].role, selectedRole)
  {
    assert Lower(DemoUsers[1].role)[0] == 'd' && Lower(selectedRole)[0] == 'k';
  }

  /** The doctor's account signs in with the cashier role selected. */
  lemma DoctorSignsInAsCashier(username: string, password: string, selectedRole: string)
    requires username == "dokter1" && password == "demo" && selectedRole == "Kasir"
    ensures LoginAsBound(username, password) == Success(DemoUsers[1])
    ensures Login(username, password, selectedRole) == Failure(RoleMismatch)
  {
    TrimmedDoctor(username);
    TrimmedPassword(password);
    FindsDoctor(username);
    DoctorIsNotCashier(selectedRole);
    assert FindDemoUser(Trim(username)) == Some(DemoUsers[1]);
  }
}
