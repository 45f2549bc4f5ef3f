/** The request handlers of the application, each a pure transition from the
    posted form, the session and the `users` table to a response, a new
    session and a new table. Database connections, template rendering and
    the mail transport are not part of the model. */
module Handlers {
  import opened Options
  import opened AuthState
  import opened PasswordPolicy
  import opened DecimalFormat

  /** `index`: renders the landing page. */
  function Index(s: Session, db: Store): (r: Outcome)
    ensures r.response == Render(LandingPage, None)
    ensures r.session == s && r.store == db
  {
    Outcome(Render(LandingPage, None), s, db)
  }

  /** The fields `signup` reads with `request.form[key]`, which fails when
      the key is missing. */
  predicate SignupFieldsPosted(f: Form) {
    f.name.Some? && f.email.Some? && f.password.Some?
  }

  /** `signup`: checks the policy, then that the email is free, then inserts
      a row with the bcrypt hash of the password. */
  function Signup(m: HttpMethod, f: Form, s: Session, db: Store, hasher: Hasher, salt: Salt): (r: Outcome)
    ensures r.session == s
    ensures m.Get? ==> r.response == Render(SignupPage, None) && r.store == db
    ensures m.Post? && !SignupFieldsPosted(f) ==> r.response == BadRequest && r.store == db
    ensures m.Post? && SignupFieldsPosted(f) && !ValidatePassword(f.password.value) ==>
              r.response == Render(SignupPage, Some(PolicyViolation)) && r.store == db
    ensures m.Post? && SignupFieldsPosted(f) && ValidatePassword(f.password.value) && f.email.value in db ==>
              r.response == Render(SignupPage, Some(EmailTaken)) && r.store == db
    ensures m.Post? && SignupFieldsPosted(f) && ValidatePassword(f.password.value) && f.email.value !in db ==>
              r.response == RedirectToLogin(AccountCreated)
    ensures r.store != db ==> r.response == RedirectToLogin(AccountCreated)
    ensures r.response == RedirectToLogin(AccountCreated) ==>
              && m.Post? && SignupFieldsPosted(f)
              && f.email.value !in db
              && r.store.Keys == db.Keys + {f.email.value}
              && r.store[f.email.value].name == f.name.value
              && (Sound(hasher) ==> hasher.checkpw(f.password.value, r.store[f.email.value].hash))
              && (forall e :: e in db ==> r.store[e] == db[e])
  {
    if m.Get? then Outcome(Render(SignupPage, None), s, db)
    else if !SignupFieldsPosted(f) then Outcome(BadRequest, s, db)
    else
      var name, email, password := f.name.value, f.email.value, f.password.value;
      if !ValidatePassword(password) then Outcome(Render(SignupPage, Some(PolicyViolation)), s, db)
      else if email in db then Outcome(Render(SignupPage, Some(EmailTaken)), s, db)
      else
        var row := User(name, hasher.hashpw(password, salt));
        Outcome(RedirectToLogin(AccountCreated), s, db[email := row])
  }

  /** The fields `login` reads with `request.form[key]`. */
  predicate LoginFieldsPosted(f: Form) {
    f.email.Some? && f.password.Some?
  }

  /** A row exists for the email and its hash checks against the password. */
  predicate CredentialsMatch(email: Email, password: string, db: Store, hasher: Hasher) {
    email in db && hasher.checkpw(password, db[email].hash)
  }

  /** `login`: reports whether the credentials match. It does not record the
      user in the session. */
  function Login(m: HttpMethod, f: Form, s: Session, db: Store, hasher: Hasher): (r: Outcome)
    ensures r.session == s && r.store == db
    ensures m.Get? ==> r.response == Render(LoginPage, None)
    ensures m.Post? && !LoginFieldsPosted(f) ==> r.response == BadRequest
    ensures r.response == Render(LoginPage, Some(LoggedIn)) <==>
              m.Post? && LoginFieldsPosted(f) && CredentialsMatch(f.email.value, f.password.value, db, hasher)
    ensures r.response == Render(LoginPage, Some(BadCredentials)) <==>
              m.Post? && LoginFieldsPosted(f) && !CredentialsMatch(f.email.value, f.password.value, db, hasher)
  {
    if m.Get? then Outcome(Render(LoginPage, None), s, db)
    else if !LoginFieldsPosted(f) then Outcome(BadRequest, s, db)
    else if CredentialsMatch(f.email.value, f.password.value, db, hasher) then
      Outcome(Render(LoginPage, Some(LoggedIn)), s, db)
    else
      Outcome(Render(LoginPage, Some(BadCredentials)), s, db)
  }

  /** `dashboard`: greets the session's user, or sends the browser to the
      login page when there is none. */
  function Dashboard(s: Session, db: Store): (r: Outcome)
    ensures r.session == s && r.store == db
    ensures r.response.RedirectToLogin? <==> s.user.None?
    ensures s.user.None? ==> r.response == RedirectToLogin(LoginRequired)
    ensures s.user.Some? ==> r.response == Welcome(s.user.value)
  {
    match s.user
    case None => Outcome(RedirectToLogin(LoginRequired), s, db)
    case Some(u) => Outcome(Welcome(u), s, db)
  }

  /** `logout`: drops the `user` key, whether or not it was there. */
  function Logout(s: Session, db: Store): (r: Outcome)
    ensures r.response == RedirectToLogin(LoggedOut)
    ensures r.store == db
    ensures r.session.user.None?
    ensures r.session.resetEmail == s.resetEmail && r.session.otp == s.otp
  {
    Outcome(RedirectToLogin(LoggedOut), s.(user := None), db)
  }

  /** Which part of `forgot_password` handles a POST. The handler keeps no
      step of its own: it infers the step from which fields are truthy. */
  datatype ResetBranch = RequestOtp | CheckOtp | SetPassword | NoBranch

  /** The tests of `forgot_password`, in the order it makes them. */
  function Dispatch(f: Form): (b: ResetBranch)
    ensures Truthy(f.otp) ==> b == CheckOtp
    ensures b == RequestOtp <==> Truthy(f.email) && !Truthy(f.otp) && !Truthy(f.newPassword)
    ensures b == SetPassword <==> !Truthy(f.otp) && Truthy(f.newPassword) && Truthy(f.confirmPassword)
    ensures b == NoBranch <==>
              || (!Truthy(f.otp) && !Truthy(f.email) && !Truthy(f.newPassword))
              || (!Truthy(f.otp) && Truthy(f.newPassword) && !Truthy(f.confirmPassword))
  {
    if Truthy(f.email) && !Truthy(f.otp) && !Truthy(f.newPassword) then RequestOtp
    else if Truthy(f.otp) then CheckOtp
    else if Truthy(f.newPassword) && Truthy(f.confirmPassword) then SetPassword
    else NoBranch
  }

  /** Reset step 1: a known email gets a fresh passcode, stored in the
      session together with the email (and mailed, which the model leaves
      out); an unknown email changes nothing. */
  function RequestOtpStep(email: Email, s: Session, db: Store, draw: int): (r: Outcome)
    requires OtpLow <= draw <= OtpHigh
    ensures r.store == db
    ensures email !in db ==> r.response == Render(ResetPage(1), Some(NoAccount)) && r.session == s
    ensures email in db ==>
              && r.response == Render(ResetPage(2), Some(OtpSent))
              && r.session.user == s.user
              && r.session.resetEmail == Some(email)
              && r.session.otp.Some?
              && IsOtpString(r.session.otp.value)
              && ParseDecimal(r.session.otp.value) == draw
  {
    if email in db then
      Outcome(Render(ResetPage(2), Some(OtpSent)), s.(resetEmail := Some(email), otp := Some(OtpString(draw))), db)
    else
      Outcome(Render(ResetPage(1), Some(NoAccount)), s, db)
  }

  /** Reset step 2: the submitted passcode is compared, as a string, with the
      one in the session. A wrong one is not replaced by a new one. */
  function CheckOtpStep(otp: string, s: Session, db: Store): (r: Outcome)
    ensures r.session == s && r.store == db
    ensures r.response == Render(ResetPage(3), None) <==> s.otp == Some(otp)
    ensures r.response == Render(ResetPage(2), Some(WrongOtp)) <==> s.otp != Some(otp)
  {
    if Some(otp) == s.otp then Outcome(Render(ResetPage(3), None), s, db)
    else Outcome(Render(ResetPage(2), Some(WrongOtp)), s, db)
  }

  /** Reset step 3: the two new passwords must agree and meet the policy;
      then the row of the session's `reset_email` gets a new hash and the
      reset keys leave the session. Nothing checks that a passcode was ever
      verified. Reading an absent `reset_email` fails the request; an email
      without a row updates nothing. */
  function SetPasswordStep(newPassword: string, confirmPassword: string, s: Session, db: Store,
                           hasher: Hasher, salt: Salt): (r: Outcome)
    ensures r.session.user == s.user
    ensures r.store.Keys == db.Keys
    ensures newPassword != confirmPassword ==>
              r == Outcome(Render(ResetPage(3), Some(PasswordMismatch)), s, db)
    ensures newPassword == confirmPassword && !ValidatePassword(newPassword) ==>
              r == Outcome(Render(ResetPage(3), Some(PolicyViolation)), s, db)
    ensures newPassword == confirmPassword && ValidatePassword(newPassword) && s.resetEmail.None? ==>
              r == Outcome(ServerError, s, db)
    ensures r.response == RedirectToLogin(PasswordUpdated) <==>
              newPassword == confirmPassword && ValidatePassword(newPassword) && s.resetEmail.Some?
    ensures r.store != db ==> r.response == RedirectToLogin(PasswordUpdated)
    ensures r.response == RedirectToLogin(PasswordUpdated) ==>
              && r.session.resetEmail.None?
              && r.session.otp.None?
              && (forall e :: e in db && Some(e) != s.resetEmail ==> r.store[e] == db[e])
              && (s.resetEmail.value in db ==>
                    && r.store[s.resetEmail.value].name == db[s.resetEmail.value].name
                    && (Sound(hasher) ==> hasher.checkpw(newPassword, r.store[s.resetEmail.value].hash)))
  {
    if newPassword != confirmPassword then
      Outcome(Render(ResetPage(3), Some(PasswordMismatch)), s, db)
    else if !ValidatePassword(newPassword) then
      Outcome(Render(ResetPage(3), Some(PolicyViolation)), s, db)
    else if s.resetEmail.None? then
      Outcome(ServerError, s, db)
    else
      var email := s.resetEmail.value;
      var hash := hasher.hashpw(newPassword, salt);
      var db' := if email in db then db[email := db[email].(hash := hash)] else db;
      Outcome(RedirectToLogin(PasswordUpdated), s.(resetEmail := None, otp := None), db')
  }

  /** `forgot_password`: a GET shows step 1; a POST goes to the step the
      truthy fields select, and falls back to showing step 1. */
  function ForgotPassword(m: HttpMethod, f: Form, s: Session, db: Store, hasher: Hasher,
                          salt: Salt, draw: int): (r: Outcome)
    requires OtpLow <= draw <= OtpHigh
    ensures r.session.user == s.user
    ensures r.store.Keys == db.Keys
    ensures r.store != db ==> r.response == RedirectToLogin(PasswordUpdated)
    ensures m.Get? ==> r == Outcome(Render(ResetPage(1), None), s, db)
    ensures m.Post? && Dispatch(f) == RequestOtp ==> r == RequestOtpStep(f.email.value, s, db, draw)
    ensures m.Post? && Dispatch(f) == CheckOtp ==> r == CheckOtpStep(f.otp.value, s, db)
    ensures m.Post? && Dispatch(f) == SetPassword ==>
              r == SetPasswordStep(f.newPassword.value, f.confirmPassword.value, s, db, hasher, salt)
    ensures m.Post? && Dispatch(f) == NoBranch ==> r == Outcome(Render(ResetPage(1), None), s, db)
  {
    if m.Get? then Outcome(Render(ResetPage(1), None), s, db)
    else
      match Dispatch(f)
      case RequestOtp => RequestOtpStep(f.email.value, s, db, draw)
      case CheckOtp => CheckOtpStep(f.otp.value, s, db)
      case SetPassword => SetPasswordStep(f.newPassword.value, f.confirmPassword.value, s, db, hasher, salt)
      case NoBranch => Outcome(Render(ResetPage(1), None), s, db)
  }

}
