/** Properties of the password-reset flow and of sign-up, login and logout
    taken together: what a browser can achieve by posting forms in order. */
module ResetFlow {
  import opened Options
  import opened AuthState
  import opened PasswordPolicy
  import opened DecimalFormat
  import opened Handlers
  import opened Traces

  /** The form of reset step 1: only the email. */
  function EmailForm(email: Email): Form {
    EmptyForm.(email := Some(email))
  }

  /** The form of reset step 2: only the passcode. */
  function OtpForm(otp: string): Form {
    EmptyForm.(otp := Some(otp))
  }

  /** The form of reset step 3: the new password twice. */
  function PasswordForm(newPassword: string, confirmPassword: string): Form {
    EmptyForm.(newPassword := Some(newPassword), confirmPassword := Some(confirmPassword))
  }

  /** Step 1 for an email without a row: step 1 again, no passcode issued,
      session and table unchanged. */
  lemma UnknownEmailIssuesNoOtp(email: Email, s: Session, db: Store, hasher: Hasher, salt: Salt, draw: int)
    requires OtpLow <= draw <= OtpHigh
    requires |email| > 0 && email !in db
    ensures ForgotPassword(Post, EmailForm(email), s, db, hasher, salt, draw)
              == Outcome(Render(ResetPage(1), Some(NoAccount)), s, db)
  {
  }

  /** Step 1 for an email with a row: step 2, and the session now holds the
      email and the six-digit text of the drawn passcode. */
  lemma KnownEmailIssuesOtp(f: Form, s: Session, db: Store, hasher: Hasher, salt: Salt, draw: int)
    requires OtpLow <= draw <= OtpHigh
    requires Dispatch(f) == RequestOtp && f.email.value in db
    ensures var r := ForgotPassword(Post, f, s, db, hasher, salt, draw);
            && r.response == Render(ResetPage(2), Some(OtpSent))
            && r.store == db
            && r.session.resetEmail == f.email
            && r.session.otp == Some(OtpString(draw))
            && |r.session.otp.value| == 6
            && r.session.user == s.user
  {
  }

  /** A truthy `otp` field selects the passcode check whatever else was
      posted: the new passwords in the same form are ignored. */
  lemma OtpFieldWins(f: Form, s: Session, db: Store, hasher: Hasher, salt: Salt, draw: int)
    requires OtpLow <= draw <= OtpHigh
    requires Truthy(f.otp)
    ensures var r := ForgotPassword(Post, f, s, db, hasher, salt, draw);
            && r.session == s && r.store == db
            && (r.response == Render(ResetPage(3), None) <==> s.otp == f.otp)
            && (r.response == Render(ResetPage(2), Some(WrongOtp)) <==> s.otp != f.otp)
  {
  }

  /** A new password without a confirmation (and no passcode) falls through
      to step 1 with nothing changed, even when an email is posted too. */
  lemma MissingConfirmationFallsThrough(f: Form, s: Session, db: Store, hasher: Hasher, salt: Salt, draw: int)
    requires OtpLow <= draw <= OtpHigh
    requires !Truthy(f.otp) && Truthy(f.newPassword) && !Truthy(f.confirmPassword)
    ensures ForgotPassword(Post, f, s, db, hasher, salt, draw) == Outcome(Render(ResetPage(1), None), s, db)
  {
  }

  /** Wrong passcodes can be submitted any number of times: each answer is
      step 2, and neither the stored passcode nor anything else changes. */
  lemma {:induction false} WrongOtpsChangeNothing(qs: seq<Request>, s: Session, db: Store, hasher: Hasher)
    requires forall i :: 0 <= i < |qs| ==> qs[i].ForgotPasswordRequest? && qs[i].verb.Post?
    requires forall i :: 0 <= i < |qs| ==> OtpLow <= qs[i].draw <= OtpHigh
    requires forall i :: 0 <= i < |qs| ==> Truthy(qs[i].form.otp) && qs[i].form.otp != s.otp
    ensures var t := Run(qs, s, db, hasher);
            && t.session == s && t.store == db
            && forall i :: 0 <= i < |qs| ==> t.responses[i] == Render(ResetPage(2), Some(WrongOtp))
    decreases |qs|
  {
    if |qs| > 0 {
      var q := qs[0];
      assert Handle(q, s, db, hasher) == Outcome(Render(ResetPage(2), Some(WrongOtp)), s, db);
      WrongOtpsChangeNothing(qs[1..], s, db, hasher);
      var t := Run(qs, s, db, hasher);
      forall i | 0 <= i < |qs|
        ensures t.responses[i] == Render(ResetPage(2), Some(WrongOtp))
      {
        if i > 0 {
          assert qs[1..][i - 1] == qs[i];
        }
      }
    }
  }

  /** The whole reset as the pages lead a user through it: email, the mailed
      passcode, the new password twice. Afterwards the new password logs in,
      the reset keys are gone, and no other row changed. */
  lemma FullResetThenLogin(email: Email, newPassword: string, s: Session, db: Store,
                           hasher: Hasher, salt1: Salt, salt2: Salt, draw: int)
    requires Sound(hasher)
    requires OtpLow <= draw <= OtpHigh
    requires |email| > 0 && email in db
    requires ValidatePassword(newPassword)
    ensures var r1 := ForgotPassword(Post, EmailForm(email), s, db, hasher, salt1, draw);
            var r2 := ForgotPassword(Post, OtpForm(r1.session.otp.value), r1.session, r1.store, hasher, salt1, draw);
            var r3 := ForgotPassword(Post, PasswordForm(newPassword, newPassword), r2.session, r2.store, hasher, salt2, draw);
            var login := Login(Post, EmptyForm.(email := Some(email), password := Some(newPassword)), r3.session, r3.store, hasher);
            && r1.response == Render(ResetPage(2), Some(OtpSent))
            && r2.response == Render(ResetPage(3), None)
            && r3.response == RedirectToLogin(PasswordUpdated)
            && r3.session == s.(resetEmail := None, otp := None)
            && r3.store.Keys == db.Keys
            && (forall e :: e in db && e != email ==> r3.store[e] == db[e])
            && login.response == Render(LoginPage, Some(LoggedIn))
  {
  }

  /** The final step checks no passcode: a browser that names an email with
      a row in step 1 can set that account's password straight away, without
      ever posting the passcode that was mailed to the account's owner. */
  lemma ResetWithoutOtp(email: Email, newPassword: string, s: Session, db: Store,
                        hasher: Hasher, salt1: Salt, salt2: Salt, draw: int)
    requires Sound(hasher)
    requires OtpLow <= draw <= OtpHigh
    requires |email| > 0 && email in db
    requires ValidatePassword(newPassword)
    ensures var r1 := ForgotPassword(Post, EmailForm(email), s, db, hasher, salt1, draw);
            var r2 := ForgotPassword(Post, PasswordForm(newPassword, newPassword), r1.session, r1.store, hasher, salt2, draw);
            && r2.response == RedirectToLogin(PasswordUpdated)
            && hasher.checkpw(newPassword, r2.store[email].hash)
  {
  }

  /** An account created by sign-up logs in with the password it was created
      with. */
  lemma SignupThenLogin(f: Form, s: Session, db: Store, hasher: Hasher, salt: Salt)
    requires Sound(hasher)
    requires SignupFieldsPosted(f) && ValidatePassword(f.password.value) && f.email.value !in db
    ensures var r := Signup(Post, f, s, db, hasher, salt);
            Login(Post, f, r.session, r.store, hasher).response == Render(LoginPage, Some(LoggedIn))
  {
  }

  /** Sign-up with an email that already has a row always fails and leaves
      every row, and so every password hash, as it was. */
  lemma SignupExistingEmailFails(m: HttpMethod, f: Form, s: Session, db: Store, hasher: Hasher, salt: Salt)
    requires f.email.Some? && f.email.value in db
    ensures var r := Signup(m, f, s, db, hasher, salt);
            r.response != RedirectToLogin(AccountCreated) && r.store == db
  {
  }

  /** Logging out twice is the same as logging out once, and succeeds when
      nobody was logged in. */
  lemma LogoutIdempotent(s: Session, db: Store)
    ensures var r := Logout(s, db);
            Logout(r.session, r.store) == r
  {
  }

}
