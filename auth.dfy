/** Model of components/Auth.tsx: the sign-in screen with its three modes
    and the account registry kept under the 'glamour_users' storage key.
    The registry is a field of the view here; reading and writing it
    through JSON is not modelled. */
module Auth {
  import opened Collections
  import opened Types

  datatype Mode = Login | Signup | Forgot

  const LoginError := "E-mail ou senha incorretos."
  const TakenError := "Este e-mail já está cadastrado."
  const UnknownEmailError := "E-mail não encontrado em nossa base."
  const SignupSuccess := "Conta criada com sucesso! Faça login para continuar."

  function RecoverySent(email: string): string
  {
    "Um e-mail de recuperação foi enviado para " + email
  }

  // ---------------------------------------------------------------------
  // The registry.

  /** u.email === email && u.password === password: an account without a
      stored password never matches. */
  predicate Accepts(email: string, password: string, u: User)
  {
    u.email == email && u.password == Some(password)
  }

  /** users.find(...) in handleLogin: sign-in succeeds exactly when some
      account has that email and password, and yields the first such
      account. */
  function LoginMatch(users: seq<User>, email: string, password: string): (r: Option<User>)
    ensures r.None? <==> forall i :: 0 <= i < |users| ==> !(users[i].email == email && users[i].password == Some(password))
    ensures r.Some? ==>
            exists i :: 0 <= i < |users| && users[i] == r.value &&
                        users[i].email == email && users[i].password == Some(password) &&
                        forall j :: 0 <= j < i ==> !(users[j].email == email && users[j].password == Some(password))
  {
    Find(users, u => Accepts(email, password, u))
  }

  /** users.some(u => u.email === email). */
  predicate EmailTaken(users: seq<User>, email: string)
  {
    exists i :: 0 <= i < |users| && users[i].email == email
  }

  /** No two accounts share an email. */
  predicate DistinctEmails(users: seq<User>)
  {
    forall i, j :: 0 <= i < j < |users| ==> users[i].email != users[j].email
  }

  /** The account handleSignup builds; it has no address. */
  function NewUser(id: string, name: string, email: string, salonName: string, password: string): User
  {
    User(id, name, email, salonName, Some(password), None)
  }

  /** The registry after a sign-up; id stands for the random id. */
  function SignedUp(users: seq<User>, id: string, name: string, email: string, salonName: string, password: string): seq<User>
  {
    if EmailTaken(users, email) then users else users + [NewUser(id, name, email, salonName, password)]
  }

  /** A taken email leaves the registry alone; otherwise exactly one account
      with the form's fields is appended. */
  lemma SignedUpShape(users: seq<User>, id: string, name: string, email: string, salonName: string, password: string)
    ensures var r := SignedUp(users, id, name, email, salonName, password);
            (EmailTaken(users, email) ==> r == users) &&
            (!EmailTaken(users, email) ==>
               |r| == |users| + 1 && r[..|users|] == users &&
               r[|users|].id == id && r[|users|].name == name && r[|users|].email == email &&
               r[|users|].salonName == salonName && r[|users|].password == Some(password) &&
               r[|users|].address.None?)
  {
    var r := SignedUp(users, id, name, email, salonName, password);
    if !EmailTaken(users, email) {
      assert r[..|users|] == users;
    }
  }

  /** Sign-up keeps emails pairwise distinct, and afterwards the email is
      registered. */
  lemma SignupKeepsEmailsDistinct(users: seq<User>, id: string, name: string, email: string, salonName: string, password: string)
    requires DistinctEmails(users)
    ensures DistinctEmails(SignedUp(users, id, name, email, salonName, password))
    ensures EmailTaken(SignedUp(users, id, name, email, salonName, password), email)
  {
    var r := SignedUp(users, id, name, email, salonName, password);
    if !EmailTaken(users, email) {
      assert r[|users|].email == email;
      forall i, j | 0 <= i < j < |r| ensures r[i].email != r[j].email {
        if j == |users| {
          assert r[i] == users[i];
        } else {
          assert r[i] == users[i] && r[j] == users[j];
        }
      }
    }
  }

  /** After a successful sign-up, signing in with the same email and
      password yields the new account. */
  lemma SignupThenLogin(users: seq<User>, id: string, name: string, email: string, salonName: string, password: string)
    requires !EmailTaken(users, email)
    ensures LoginMatch(SignedUp(users, id, name, email, salonName, password), email, password) ==
            Some(NewUser(id, name, email, salonName, password))
  {
    var u := NewUser(id, name, email, salonName, password);
    FindSnoc(users, u, v => Accepts(email, password, v));
    assert forall i :: 0 <= i < |users| ==> !Accepts(email, password, users[i]);
  }

  /** With distinct emails, sign-in succeeds exactly when the one account
      with that email stores that password. */
  lemma LoginWithDistinctEmails(users: seq<User>, email: string, password: string, k: int)
    requires DistinctEmails(users) && 0 <= k < |users| && users[k].email == email
    ensures LoginMatch(users, email, password) == if users[k].password == Some(password) then Some(users[k]) else None
  {
    assert forall j :: 0 <= j < |users| && j != k ==> users[j].email != email;
    assert forall j :: 0 <= j < |users| && j != k ==> !Accepts(email, password, users[j]);
  }

  class AuthView {
    var mode: Mode
    var email: string
    var password: string
    var name: string
    var salonName: string
    var error: string
    var successMsg: string
    /** The accounts stored under 'glamour_users'. */
    var users: seq<User>

    constructor (stored: seq<User>)
      ensures mode == Login && users == stored
      ensures email == "" && password == "" && name == "" && salonName == ""
      ensures error == "" && successMsg == ""
    {
      mode := Login;
      email, password, name, salonName := "", "", "", "";
      error, successMsg := "", "";
      users := stored;
    }

    /** The email and password inputs. */
    method EditCredentials(email: string, password: string)
      modifies this`email, this`password
      ensures this.email == email && this.password == password
    {
      this.email := email;
      this.password := password;
    }

    /** The name and salon-name inputs of the sign-up form. */
    method EditProfile(name: string, salonName: string)
      modifies this`name, this`salonName
      ensures this.name == name && this.salonName == salonName
    {
      this.name := name;
      this.salonName := salonName;
    }

    /** handleLogin; the account it returns is the one handed to onLogin. */
    method HandleLogin() returns (signedIn: Option<User>)
      modifies this`error
      ensures signedIn == LoginMatch(users, email, password)
      ensures error == if signedIn.None? then LoginError else ""
    {
      error := "";
      signedIn := LoginMatch(users, email, password);
      if signedIn.None? {
        error := LoginError;
      }
    }

    /** handleSignup; freshId stands for the random id. */
    method HandleSignup(freshId: string)
      modifies this`error, this`users, this`successMsg, this`mode
      ensures users == SignedUp(old(users), freshId, name, email, salonName, password)
      ensures EmailTaken(old(users), email) ==>
                error == TakenError && successMsg == old(successMsg) && mode == old(mode)
      ensures !EmailTaken(old(users), email) ==>
                error == "" && successMsg == SignupSuccess && mode == Login
    {
      error := "";
      if EmailTaken(users, email) {
        error := TakenError;
        return;
      }
      users := users + [NewUser(freshId, name, email, salonName, password)];
      successMsg := SignupSuccess;
      mode := Login;
    }

    /** handleForgot. The registry is read, never written; the return to
        the sign-in mode three seconds later is not modelled. */
    method HandleForgot()
      modifies this`error, this`successMsg
      ensures EmailTaken(users, email) ==> error == "" && successMsg == RecoverySent(email)
      ensures !EmailTaken(users, email) ==> error == UnknownEmailError && successMsg == old(successMsg)
    {
      error := "";
      if EmailTaken(users, email) {
        successMsg := RecoverySent(email);
      } else {
        error := UnknownEmailError;
      }
    }

    /** The form's submit, routed by mode. */
    method Submit(freshId: string) returns (signedIn: Option<User>)
      modifies this`error, this`users, this`successMsg, this`mode
      ensures old(mode) == Login ==>
                signedIn == LoginMatch(users, email, password) && users == old(users) &&
                mode == Login && successMsg == old(successMsg) &&
                error == if signedIn.None? then LoginError else ""
      ensures old(mode) == Signup ==>
                signedIn.None? && users == SignedUp(old(users), freshId, name, email, salonName, password)
      ensures old(mode) == Signup && EmailTaken(old(users), email) ==>
                error == TakenError && successMsg == old(successMsg) && mode == Signup
      ensures old(mode) == Signup && !EmailTaken(old(users), email) ==>
                error == "" && successMsg == SignupSuccess && mode == Login
      ensures old(mode) == Forgot ==> signedIn.None? && users == old(users) && mode == Forgot
      ensures old(mode) == Forgot && EmailTaken(users, email) ==>
                error == "" && successMsg == RecoverySent(email)
      ensures old(mode) == Forgot && !EmailTaken(users, email) ==>
                error == UnknownEmailError && successMsg == old(successMsg)
    {
      signedIn := None;
      match mode
      case Login => signedIn := HandleLogin();
      case Signup => HandleSignup(freshId);
      case Forgot => HandleForgot();
    }

    /** "Cadastre seu salão", from the sign-in mode. */
    method GoToSignup()
      modifies this`mode, this`error, this`successMsg
      ensures mode == Signup && error == "" && successMsg == ""
    {
      mode, error, successMsg := Signup, "", "";
    }

    /** "Faça login", from the sign-up mode. */
    method GoToLogin()
      modifies this`mode, this`error, this`successMsg
      ensures mode == Login && error == "" && successMsg == ""
    {
      mode, error, successMsg := Login, "", "";
    }

    /** "Esqueci a senha", from the sign-in mode. */
    method GoToForgot()
      modifies this`mode, this`error, this`successMsg
      ensures mode == Forgot && error == "" && successMsg == ""
    {
      mode, error, successMsg := Forgot, "", "";
    }

    /** The back arrow of the recovery mode: the messages stay. */
    method BackToLogin()
      modifies this`mode
      ensures mode == Login
    {
      mode := Login;
    }
  }
}
