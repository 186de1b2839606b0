/**
 * The mock session (src/context/AuthContext.tsx): who is signed in, whether
 * a sign-in is under way, and the copy of the user kept in the browser's
 * storage under the key 'user', which survives a reload.
 */
module Auth {
  import opened Domain
  import Text

  datatype SessionUser = SessionUser(id: string, name: string, email: string)

  const DemoEmail: string := "demo@example.com"
  const DemoPassword: string := "password"
  const DemoUser: SessionUser := SessionUser("1", "Demo User", DemoEmail)

  const InvalidCredentials: string := "Credenciais inválidas"
  const EmailInUse: string := "Este email já está em uso"

  /** Only the demo credentials sign in, and always as the demo user. */
  function LoginOutcome(email: string, password: string): (r: Result<SessionUser, string>)
    ensures r.Ok? <==> email == DemoEmail && password == DemoPassword
    ensures r.Ok? ==> r.value == DemoUser && r.value.email == email
    ensures r.Err? ==> r.error == InvalidCredentials
  {
    if email == DemoEmail && password == DemoPassword then Ok(DemoUser) else Err(InvalidCredentials)
  }

  /** Every address but the demo one registers, with the clock reading as the new id. */
  function RegisterOutcome(name: string, email: string, now: nat): (r: Result<SessionUser, string>)
    ensures r.Ok? <==> email != DemoEmail
    ensures r.Ok? ==> r.value.name == name && r.value.email == email && r.value.id == Text.DecimalString(now)
    ensures r.Err? ==> r.error == EmailInUse
  {
    if email == DemoEmail then Err(EmailInUse) else Ok(SessionUser(Text.DecimalString(now), name, email))
  }

  /** Registrations at different clock readings get different ids. */
  lemma RegisteredIdsDiffer(name1: string, email1: string, now1: nat, name2: string, email2: string, now2: nat)
    requires RegisterOutcome(name1, email1, now1).Ok? && RegisterOutcome(name2, email2, now2).Ok?
    requires now1 != now2
    ensures RegisterOutcome(name1, email1, now1).value.id != RegisterOutcome(name2, email2, now2).value.id
  {
    if Text.DecimalString(now1) == Text.DecimalString(now2) {
      Text.DecimalStringInjective(now1, now2);
    }
  }

  class AuthState {
    var user: Option<SessionUser>
    var isLoading: bool
    /** The value stored under 'user', already parsed. */
    var storedUser: Option<SessionUser>

    /** The signed-in user and the stored copy agree. */
    predicate Mirrored()
      reads this
    {
      user == storedUser
    }

    /** Before the mount effect runs: nobody is signed in and loading is under way. */
    constructor (stored: Option<SessionUser>)
      ensures user == None && isLoading && storedUser == stored
    {
      user := None;
      isLoading := true;
      storedUser := stored;
    }

    /** The mount effect: a stored user becomes the signed-in user; loading ends either way. */
    method RestoreSession()
      modifies this`user, this`isLoading
      ensures storedUser.Some? ==> user == storedUser
      ensures storedUser.None? ==> user == old(user)
      ensures old(user).None? ==> Mirrored()
      ensures !isLoading
    {
      if storedUser.Some? {
        user := storedUser;
      }
      isLoading := false;
    }

    /** A failed sign-in reports the error and changes neither the user nor the stored copy. */
    method Login(email: string, password: string) returns (r: Result<SessionUser, string>)
      modifies this`user, this`isLoading, this`storedUser
      ensures r == LoginOutcome(email, password)
      ensures r.Ok? ==> user == Some(DemoUser) && storedUser == Some(DemoUser)
      ensures r.Err? ==> user == old(user) && storedUser == old(storedUser)
      ensures old(Mirrored()) ==> Mirrored()
      ensures !isLoading
    {
      isLoading := true;
      r := LoginOutcome(email, password);
      if r.Ok? {
        storedUser := Some(r.value);
        user := Some(r.value);
      }
      isLoading := false;
    }

    method Register(name: string, email: string, password: string, now: nat) returns (r: Result<SessionUser, string>)
      modifies this`user, this`isLoading, this`storedUser
      ensures r == RegisterOutcome(name, email, now)
      ensures r.Ok? ==> user == Some(r.value) && storedUser == Some(r.value)
      ensures r.Err? ==> user == old(user) && storedUser == old(storedUser)
      ensures old(Mirrored()) ==> Mirrored()
      ensures !isLoading
    {
      isLoading := true;
      r := RegisterOutcome(name, email, now);
      if r.Ok? {
        storedUser := Some(r.value);
        user := Some(r.value);
      }
      isLoading := false;
    }

    /** Signing out removes the stored copy and the user; doing it again leaves the same state. */
    method Logout()
      modifies this`user, this`storedUser
      ensures user == None && storedUser == None
      ensures Mirrored()
    {
      storedUser := None;
      user := None;
    }
  }
}
