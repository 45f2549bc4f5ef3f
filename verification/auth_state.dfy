/** The state the request handlers read and write: the `users` table, the
    per-browser session, the posted form, and what a handler answers with.
    Password hashing is an abstract pair of functions. */
module AuthState {
  import opened Options

  type Email = string

  /** The salt `bcrypt.gensalt()` draws at random; the caller supplies it. */
  type Salt = nat

  /** One row of the `users` table; its key, the email, is the map key. */
  datatype User = User(name: string, hash: string)

  /** The `users` table. The model assumes at most one row per email, which
      sign-up's check before insert maintains when requests do not overlap. */
  type Store = map<Email, User>

  /** The session keys the application uses. `None` is a key that is not in
      the session. */
  datatype Session = Session(user: Option<string>, resetEmail: Option<Email>, otp: Option<string>)

  const EmptySession := Session(None, None, None)

  /** The posted form fields; `None` is a field that was not posted. */
  datatype Form = Form(
    name: Option<string>,
    email: Option<string>,
    password: Option<string>,
    otp: Option<string>,
    newPassword: Option<string>,
    confirmPassword: Option<string>)

  const EmptyForm := Form(None, None, None, None, None, None)

  datatype HttpMethod = Get | Post

  /** Python truthiness of `request.form.get(key)`: the field was posted and
      is not the empty string. */
  predicate Truthy(field: Option<string>) {
    field.Some? && |field.value| > 0
  }

  /** bcrypt's `hashpw` and `checkpw`, left uninterpreted. */
  datatype Hasher = Hasher(hashpw: (string, Salt) -> string, checkpw: (string, string) -> bool)

  /** The one property of bcrypt the application relies on: a hash made from
      a password, with any salt, checks against that password. */
  ghost predicate Sound(h: Hasher) {
    forall p, salt :: h.checkpw(p, h.hashpw(p, salt))
  }

  /** The flash message a handler sets, by meaning rather than by text. */
  datatype Flash =
    | PolicyViolation
    | EmailTaken
    | AccountCreated
    | LoggedIn
    | BadCredentials
    | LoginRequired
    | LoggedOut
    | OtpSent
    | NoAccount
    | WrongOtp
    | PasswordMismatch
    | PasswordUpdated

  /** The templates; the reset page is rendered at step 1, 2 or 3. */
  datatype View = LandingPage | SignupPage | LoginPage | ResetPage(step: int)

  datatype Response =
    | Render(view: View, flash: Option<Flash>)
    | RedirectToLogin(message: Flash)
    | Welcome(user: string)
    /** A required `request.form[key]` was missing (Flask answers 400). */
    | BadRequest
    /** A `session[key]` read found no such key (Flask answers 500). */
    | ServerError

  /** What one request leaves behind: the response and the new state. */
  datatype Outcome = Outcome(response: Response, session: Session, store: Store)

}
