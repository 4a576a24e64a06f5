/**
 * The login page: a login form and a registration form, one shown at a
 * time, each checking its trimmed fields before anything is sent.
 */
module Login {
  import opened Strings

  datatype Role = Shopper | Admin

  const LoginMessage: string := "Please enter username/email, password, and select a role."
  const RegisterMessage: string := "Please fill in all fields."
  const ConfirmMessage: string := "Please enter the confirmation code."

  // ---------------------------------------------------------------------------
  // The checks, as functions of the fields
  // ---------------------------------------------------------------------------

  /** The error `handleLogin` leaves behind: cleared, then set when a trimmed field is empty. */
  function LoginError(username: string, password: string): (e: string)
    ensures e == "" || e == LoginMessage
  {
    if IsBlank(username) || IsBlank(password) then LoginMessage else ""
  }

  /** The error `handleRegister` leaves behind. */
  function RegisterError(username: string, email: string, password: string): (e: string)
    ensures e == "" || e == RegisterMessage
  {
    if IsBlank(username) || IsBlank(email) || IsBlank(password) then RegisterMessage else ""
  }

  /** The error `handleConfirm` leaves behind. */
  function ConfirmError(code: string): (e: string)
    ensures e == "" || e == ConfirmMessage
  {
    if IsBlank(code) then ConfirmMessage else ""
  }

  /**
   * Login is refused exactly when the username or the password holds
   * nothing but white space; the role never causes the error, since one
   * of the two roles is always selected.
   */
  lemma LoginErrorSpec(username: string, password: string)
    ensures LoginError(username, password) != "" <==> AllSpace(username) || AllSpace(password)
  {
    TrimEmptyIff(username);
    TrimEmptyIff(password);
  }

  /** Registration is refused exactly when one of its three fields holds nothing but white space. */
  lemma RegisterErrorSpec(username: string, email: string, password: string)
    ensures RegisterError(username, email, password) != "" <==> AllSpace(username) || AllSpace(email) || AllSpace(password)
  {
    TrimEmptyIff(username);
    TrimEmptyIff(email);
    TrimEmptyIff(password);
  }

  /** A confirmation code is refused exactly when it holds nothing but white space. */
  lemma ConfirmErrorSpec(code: string)
    ensures ConfirmError(code) != "" <==> AllSpace(code)
  {
    TrimEmptyIff(code);
  }

  /**
   * White space typed before or after any field, each with its own
   * padding, does not change any verdict.
   */
  lemma ErrorsIgnorePadding(a: string, b: string, c: string,
                            a0: string, a1: string, b0: string, b1: string, c0: string, c1: string)
    requires AllSpace(a0) && AllSpace(a1) && AllSpace(b0) && AllSpace(b1) && AllSpace(c0) && AllSpace(c1)
    ensures LoginError(a0 + a + a1, b0 + b + b1) == LoginError(a, b)
    ensures RegisterError(a0 + a + a1, b0 + b + b1, c0 + c + c1) == RegisterError(a, b, c)
    ensures ConfirmError(a0 + a + a1) == ConfirmError(a)
  {
    BlankIgnoresPadding(a0, a, a1);
    BlankIgnoresPadding(b0, b, b1);
    BlankIgnoresPadding(c0, c, c1);
  }

  // ---------------------------------------------------------------------------
  // The forms
  // ---------------------------------------------------------------------------

  /** `LoginForm`: its fields, role and error text. */
  class LoginForm {
    var username: string
    var password: string
    var role: Role
    var error: string

    constructor ()
      ensures username == "" && password == "" && role == Shopper && error == ""
    {
      username := "";
      password := "";
      role := Shopper;
      error := "";
    }

    method SetUsername(value: string)
      modifies this`username
      ensures username == value
    {
      username := value;
    }

    method SetPassword(value: string)
      modifies this`password
      ensures password == value
    {
      password := value;
    }

    method SetRole(value: Role)
      modifies this`role
      ensures role == value
    {
      role := value;
    }

    /** The Create Account button is rendered only for the shopper role. */
    predicate CreateAccountShown()
      reads this
    {
      role == Shopper
    }

    /** The Login button: the error shown afterwards is the message exactly when a trimmed field is empty. */
    method HandleLogin()
      modifies this`error
      ensures error == LoginError(username, password)
      ensures error == "" <==> !IsBlank(username) && !IsBlank(password)
    {
      error := "";
      if IsBlank(username) || IsBlank(password) {
        error := LoginMessage;
      }
    }
  }

  /**
   * `RegisterForm`: once the confirmation code has been sent, the three
   * fields are disabled and the Register button is replaced by the code
   * field and the Confirm Code button.
   */
  class RegisterForm {
    var username: string
    var email: string
    var password: string
    var error: string
    var confirmationSent: bool
    var confirmationCode: string

    constructor ()
      ensures username == "" && email == "" && password == "" && error == ""
      ensures !confirmationSent && confirmationCode == ""
    {
      username := "";
      email := "";
      password := "";
      error := "";
      confirmationSent := false;
      confirmationCode := "";
    }

    method SetUsername(value: string)
      modifies this`username
      ensures username == if old(confirmationSent) then old(username) else value
    {
      if !confirmationSent {
        username := value;
      }
    }

    method SetEmail(value: string)
      modifies this`email
      ensures email == if old(confirmationSent) then old(email) else value
    {
      if !confirmationSent {
        email := value;
      }
    }

    method SetPassword(value: string)
      modifies this`password
      ensures password == if old(confirmationSent) then old(password) else value
    {
      if !confirmationSent {
        password := value;
      }
    }

    /** The code field is rendered only after the code was sent. */
    method SetConfirmationCode(value: string)
      modifies this`confirmationCode
      ensures confirmationCode == if old(confirmationSent) then value else old(confirmationCode)
    {
      if confirmationSent {
        confirmationCode := value;
      }
    }

    /**
     * The Register button, rendered until the code was sent: the code is
     * sent exactly when no trimmed field is empty, and the message is shown
     * otherwise.
     */
    method HandleRegister()
      modifies this`error, this`confirmationSent
      ensures old(confirmationSent) ==> confirmationSent && error == old(error)
      ensures !old(confirmationSent) ==>
                error == RegisterError(username, email, password)
                && (confirmationSent <==> error == "")
    {
      if !confirmationSent {
        error := "";
        if IsBlank(username) || IsBlank(email) || IsBlank(password) {
          error := RegisterMessage;
          return;
        }
        confirmationSent := true;
      }
    }

    /** The Confirm Code button, rendered once the code was sent. */
    method HandleConfirm()
      modifies this`error
      ensures old(confirmationSent) ==> error == ConfirmError(confirmationCode)
      ensures !old(confirmationSent) ==> error == old(error)
    {
      if confirmationSent {
        error := "";
        if IsBlank(confirmationCode) {
          error := ConfirmMessage;
        }
      }
    }
  }

  /**
   * `LoginPage`: which form is shown. Switching forms unmounts the other
   * one, so the form switched to starts from its initial state.
   */
  class LoginPage {
    var showRegister: bool
    var login: LoginForm
    var register: RegisterForm

    constructor ()
      ensures !showRegister && fresh(login) && fresh(register)
      ensures login.username == "" && login.password == "" && login.role == Shopper && login.error == ""
    {
      showRegister := false;
      login := new LoginForm();
      register := new RegisterForm();
    }

    /** Create Account: only on the login form, and only where the shopper role shows the button. */
    method PressCreateAccount()
      modifies this
      ensures !old(showRegister) && old(login.role) == Shopper ==>
                showRegister && fresh(register) && !register.confirmationSent && register.username == ""
                && register.email == "" && register.password == "" && register.error == ""
      ensures old(showRegister) || old(login.role) != Shopper ==>
                showRegister == old(showRegister) && register == old(register)
      ensures login == old(login)
    {
      if !showRegister && login.role == Shopper {
        showRegister := true;
        register := new RegisterForm();
      }
    }

    /** Already Have account: only on the registration form, and only before the code was sent. */
    method PressBackToLogin()
      modifies this
      ensures old(showRegister) && !old(register.confirmationSent) ==>
                !showRegister && fresh(login) && login.username == "" && login.password == ""
                && login.role == Shopper && login.error == ""
      ensures !old(showRegister) || old(register.confirmationSent) ==>
                showRegister == old(showRegister) && login == old(login)
      ensures register == old(register)
    {
      if showRegister && !register.confirmationSent {
        showRegister := false;
        login := new LoginForm();
      }
    }
  }
}
