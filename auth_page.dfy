/**
 * The login and registration handlers of the authentication page
 * (src/pages/AuthPage.jsx). The form's state variables are the fields of
 * `AuthForm`; the shared session is an `AuthSession.Session`. The login and
 * registration requests are not made: their outcome is a parameter.
 */
module AuthPage {
  import opened Wrappers
  import opened AuthSession

  const RequiredFieldsMessage: string := "Ім’я, email, пароль та роль є обов’язковими полями"
  const RoleMessage: string := "Роль має бути 'requester' або 'volunteer'"
  const RegisterFailedMessage: string := "Помилка реєстрації"
  const LoginFailedMessage: string := "Невірна електронна пошта або пароль"

  /** The outcome of a login or registration request: a token and a user, or an error with an optional message. */
  datatype AuthResponse = AuthSucceeded(token: string, user: Option<User>) | AuthFailed(message: Option<string>)

  /** The registration fields, as typed. */
  datatype Registration = Registration(name: string, email: string, password: string, role: string)

  predicate HasEmptyField(r: Registration)
  {
    r.name == "" || r.email == "" || r.password == "" || r.role == ""
  }

  /**
   * The checks of `handleRegister`, in source order: every field must be
   * filled in, then the role must be exactly "requester" or "volunteer".
   * The result is the error shown, or None when the request is sent.
   */
  function ValidateRegistration(r: Registration): (err: Option<string>)
    ensures err == Some(RequiredFieldsMessage) <==> HasEmptyField(r)
    ensures err == Some(RoleMessage) <==> !HasEmptyField(r) && r.role != "requester" && r.role != "volunteer"
    ensures err == None <==> !HasEmptyField(r) && (r.role == "requester" || r.role == "volunteer")
  {
    if HasEmptyField(r) then Some(RequiredFieldsMessage)
    else if r.role != "requester" && r.role != "volunteer" then Some(RoleMessage)
    else None
  }

  /** The empty-field check comes first: an empty name with an unknown role reports the missing field. */
  lemma EmptyFieldWinsOverRole(email: string, password: string)
    ensures ValidateRegistration(Registration("", email, password, "admin")) == Some(RequiredFieldsMessage)
  {
  }

  /** The role check is exact: a role differing from a role name in case only is refused. */
  lemma RoleCheckIsCaseSensitive(name: string, email: string, password: string)
    requires name != "" && email != "" && password != ""
    ensures ValidateRegistration(Registration(name, email, password, "Volunteer")) == Some(RoleMessage)
  {
  }

  /**
   * A registration the form accepts carries a role that the session keeps
   * unchanged when it is fetched back.
   */
  lemma AcceptedRoleSurvivesNormalization(r: Registration)
    requires ValidateRegistration(r) == None
    ensures NormalizeRole(Some(r.role)) == r.role
  {
    RoleNamesAreKnown();
  }

  /** The registration error shown for a failed request: the server's message, or a fixed text. */
  function RegisterErrorText(message: Option<string>): (text: string)
    ensures text != ""
    ensures Truthy(message) ==> text == message.value
    ensures !Truthy(message) ==> text == RegisterFailedMessage
  {
    if Truthy(message) then message.value else RegisterFailedMessage
  }

  class AuthForm {
    var email: string
    var password: string
    var loginError: string
    var loginLoading: bool
    var registration: Registration
    var regError: string
    var regLoading: bool

    constructor ()
      ensures email == "" && password == "" && loginError == "" && !loginLoading
      ensures registration == Registration("", "", "", "") && regError == "" && !regLoading
    {
      email, password, loginError, loginLoading := "", "", "", false;
      registration, regError, regLoading := Registration("", "", "", ""), "", false;
    }

    /** The inputs' change handlers of the registration tab. */
    method EditRegistration(r: Registration)
      modifies this`registration
      ensures registration == r
    {
      registration := r;
    }

    /** The inputs' change handlers of the login tab. */
    method EditLogin(newEmail: string, newPassword: string)
      modifies this`email, this`password
      ensures email == newEmail && password == newPassword
    {
      email, password := newEmail, newPassword;
    }

    /**
     * `handleLogin`: clears the previous error; on success stores the token
     * and sets the session's state to the response's token and user, and
     * stays loading while the page navigates away; on failure shows the
     * fixed credentials message and stops loading, leaving the session
     * untouched.
     */
    method Login(session: Session, response: AuthResponse)
      modifies this`loginError, this`loginLoading, session
      ensures response.AuthSucceeded? ==>
        loginError == "" && loginLoading
        && session.token == Some(response.token) && session.user == response.user
        && session.loading == old(session.loading)
        && session.storedToken
           == (if response.token == "" && old(session.token) != Some("") then None else Some(response.token))
      ensures response.AuthFailed? ==>
        loginError == LoginFailedMessage && !loginLoading
        && unchanged(session)
    {
      loginLoading := true;
      loginError := "";
      match response {
        case AuthSucceeded(token, user) =>
          session.StoreToken(token);
          session.SetAuthState(Some(token), user);
        case AuthFailed(_) =>
          loginError := LoginFailedMessage;
          loginLoading := false;
      }
    }

    /**
     * `handleRegister`: a registration with an empty field or an unknown
     * role is refused with its message and no request is sent; otherwise
     * the request is sent, a success logs the user in as `Login` does, and a
     * failure shows the server's message or the fixed one. `regLoading` is
     * false afterwards on every path.
     */
    method Register(session: Session, response: AuthResponse) returns (requestSent: bool)
      modifies this`regError, this`regLoading, session
      ensures !regLoading
      ensures requestSent <==> ValidateRegistration(registration) == None
      ensures !requestSent ==> regError == ValidateRegistration(registration).value && unchanged(session)
      ensures requestSent && response.AuthFailed? ==>
        regError == RegisterErrorText(response.message) && unchanged(session)
      ensures requestSent && response.AuthSucceeded? ==>
        regError == ""
        && session.token == Some(response.token) && session.user == response.user
        && session.loading == old(session.loading)
        && session.storedToken
           == (if response.token == "" && old(session.token) != Some("") then None else Some(response.token))
    {
      regLoading := true;
      regError := "";
      var err := ValidateRegistration(registration);
      if err.Some? {
        regError := err.value;
        regLoading := false;
        return false;
      }
      requestSent := true;
      match response {
        case AuthSucceeded(token, user) =>
          session.StoreToken(token);
          session.SetAuthState(Some(token), user);
        case AuthFailed(message) =>
          regError := RegisterErrorText(message);
      }
      regLoading := false;
    }
  }
}
