# Sign-up, login and password reset of the welcome-page web application

This project models the logic of the application's single module, `app.py`,
in Dafny: the password policy `validate_password`, and the request handlers
`signup`, `login`, `dashboard`, `logout` and `forgot_password`. Each handler
is a pure transition. It takes the posted form, the browser's session and the
`users` table, and returns a response, a new session and a new table.

- The `users` table is a map from email to a row holding name and hash
  (`AuthState.Store`).
- The session holds the three keys the application uses: `user`,
  `reset_email` and `otp`.
- Each form field is optional. `forgot_password` tests fields by Python
  truthiness: a field counts only when it was posted and is not empty.
  `signup` and `login` read their fields with `request.form[key]`, so a
  missing field fails the request (`BadRequest`).
- bcrypt is an uninterpreted pair `hashpw`/`checkpw` (`AuthState.Hasher`).
  The one property the application relies on is a hypothesis,
  `AuthState.Sound`: a hash made from a password checks against it.
- The random values become parameters: the bcrypt salt, and the integer
  `random.randint(100000, 999999)` draws. The drawn integer is bounded by a
  `requires`.
- Flash messages are modelled by meaning (`AuthState.Flash`), not by text.
  For `login` they are the only thing that tells success from failure.

The reset handler keeps no explicit step. It works out the step from which
fields are truthy, in this order:

1. email alone, meaning no passcode and no new password (line 135);
2. a passcode (line 146);
3. both new-password fields (line 153);
4. otherwise it shows step 1 again (line 175).

`Handlers.Dispatch` models this order exactly. The final step does not check
that a passcode was ever verified. It reads `session['reset_email']`; when
that key is absent the request fails (`ServerError`). When the email has no
row, the `UPDATE` changes nothing.

`Traces.Run` chains handlers over a sequence of requests. It is used to
state what no sequence of requests can do.

Behaviour of `app.py` that the model keeps as written:

- `login` (app.py:96-99) never writes `session['user']`, so a successful
  login does not authenticate the browser. `Traces.DashboardAlwaysRedirects`
  shows that, starting from a session without a user, the dashboard
  redirects to login after any sequence of requests.
- The passcode is `str(random.randint(100000, 999999))` (app.py:138). It
  always has six digits, never starts with a zero and is never zero-padded.
- `logout` (app.py:117) removes only the `user` key. Any reset in progress
  stays in the session.
- The final reset step (app.py:153-170) checks no passcode.
  `ResetFlow.ResetWithoutOtp` shows that a browser can name any email that
  has a row in step 1 and then set that account's password.

## Model

| member | source | states |
|---|---|---|
| PasswordPolicy.Any | app.py:179 | `any(pred(c) for c in s)` is true exactly when some position of the string satisfies the predicate |
| PasswordPolicy.ValidatePassword | app.py:178-179 | a password is accepted exactly when it has at least 8 characters, some lower-case letter and some upper-case letter |
| PasswordPolicy.OnlyLetterClassesMatter | app.py:179 | digits and symbols are irrelevant: passwords of equal length whose characters agree on lower/upper case are accepted or rejected together |
| PasswordPolicy.ExtensionStaysValid | app.py:179 | appending characters of any kind keeps an accepted password accepted |
| PasswordPolicy.PolicyExamples | app.py:178-179 | "Abcdefg1" is accepted; "abcdefgh", "ABCDEFGH" and "Ab1" are rejected |
| DecimalFormat.ToDecimal | app.py:138 | `str(n)` yields non-empty digit text with no leading zero, except for "0" itself |
| DecimalFormat.ParseToDecimal | app.py:138 | reading back the decimal text of n gives n |
| DecimalFormat.ToDecimalOfParse | app.py:138 | writing out the value of canonical digit text gives the same text back |
| DecimalFormat.ToDecimalLength | app.py:138 | a number between 10^k and 10^(k+1)-1 is written with exactly k+1 characters |
| DecimalFormat.ParseBounds | app.py:138 | the value of digit text of length k is below 10^k, and at least 10^(k-1) when it has no leading zero |
| DecimalFormat.OtpString | app.py:138 | the passcode text of a draw in [100000, 999999] has six digits, no leading zero, and its value is the draw |
| DecimalFormat.OtpStringsAreDraws | app.py:138 | every six-digit text without a leading zero is the passcode text of exactly one draw in [100000, 999999] |
| Handlers.Index | app.py:46-48 | the landing page changes neither session nor table |
| Handlers.Signup | app.py:50-82 | missing fields give 400. The policy is checked first, then email uniqueness; each failure leaves the table as it was. Success adds exactly one row, keyed by the new email, with the posted name and a hash that checks against the password. Every other row is unchanged and the session is untouched |
| Handlers.Login | app.py:84-104 | reports success exactly when a row for the email exists and its hash checks against the password, and failure otherwise. Missing fields give 400. Session and table never change |
| Handlers.Dashboard | app.py:107-113 | redirects to login exactly when the session has no user, and otherwise greets that user. No state changes |
| Handlers.Logout | app.py:115-119 | always redirects to login and leaves no user in the session. The reset keys and the table are unchanged |
| Handlers.Dispatch | app.py:135-175 | the reset branch chosen from the truthy fields. A truthy passcode always selects the passcode check. Email alone selects step 1. Both new passwords without a passcode select step 3 whatever the email. The remaining combinations fall through |
| Handlers.RequestOtpStep | app.py:135-144 | an unknown email gives step 1 with session and table unchanged. A known email gives step 2 and stores that email and a six-digit passcode whose value is the draw. The user key and the table are unchanged |
| Handlers.CheckOtpStep | app.py:146-151 | gives step 3 exactly when the session holds that passcode, and step 2 otherwise. Session and table never change, so a wrong try keeps the stored passcode, and an absent one never matches |
| Handlers.SetPasswordStep | app.py:153-170 | differing passwords, then a policy failure, give step 3 with nothing changed. With no `reset_email` in the session the request fails with nothing changed. Otherwise only the row of `reset_email` gets a hash that checks against the new password, and both reset keys leave the session |
| Handlers.ForgotPassword | app.py:121-175 | a GET shows step 1. A POST runs the branch `Dispatch` selects, and falls through to step 1 with nothing changed. The user key and the set of emails are kept. The table changes only on a successful password update |
| Traces.Handle | app.py:46-175 | no route sets a user in the session, and no route removes a row |
| Traces.Run | app.py:46-175 | over any sequence of requests: one response per request, rows only added, and a session that starts without a user keeps none |
| Traces.DashboardAlwaysRedirects | app.py:96-113 | after any sequence of requests from a fresh session, the dashboard redirects to login, because login never records the user |
| Traces.HandlePreservesResetConsistent | app.py:135-170 | each request keeps `reset_email` and `otp` present together, keeps the passcode six digits, and points `reset_email` at an existing row |
| Traces.RunPreservesResetConsistent | app.py:121-175 | the same invariant holds after any sequence of requests |
| Traces.NamesAreStable | app.py:71-74 | once a row exists, it stays and its name never changes |
| ResetFlow.UnknownEmailIssuesNoOtp | app.py:135-144 | email-only submission for an unknown email gives step 1 and changes neither session nor table |
| ResetFlow.KnownEmailIssuesOtp | app.py:135-144 | email-only submission for a known email gives step 2, storing the email and the six-digit decimal text of the draw |
| ResetFlow.OtpFieldWins | app.py:146-151 | with a truthy passcode field, the new-password fields are ignored. The result is step 3 exactly when the passcode matches the session's, and step 2 otherwise, with nothing changed |
| ResetFlow.MissingConfirmationFallsThrough | app.py:153-175 | a new password without a confirmation, and without a passcode, renders step 1 with nothing changed, even when an email is posted |
| ResetFlow.WrongOtpsChangeNothing | app.py:146-151 | any number of wrong passcodes each give step 2 and leave session and table unchanged, so there is no regeneration and no attempt limit |
| ResetFlow.FullResetThenLogin | app.py:84-175 | email, then the issued passcode, then a valid new password twice: the password is updated and the reset keys are cleared. No other row changes, and the new password then logs in |
| ResetFlow.ResetWithoutOtp | app.py:135-170 | email, then a valid new password twice, with no passcode ever posted: the account's password is set |
| ResetFlow.SignupThenLogin | app.py:57-99 | an account created by sign-up logs in with the password it was created with |
| ResetFlow.SignupExistingEmailFails | app.py:61-69 | sign-up with an email that already has a row never succeeds and changes no row |
| ResetFlow.LogoutIdempotent | app.py:115-119 | logging out twice ends in the same state as logging out once |

## Left out

- Sending the passcode (`send_otp`, app.py:26-44): its return value is ignored at line 139, so mail delivery has no effect on state.
- The MySQL connection and cursor lifecycle, including the paths that return without closing the connection. The table is an in-memory map, and database errors are not modelled.
- MySQL's comparison of `email` under the column's collation, which may ignore case and trailing spaces. The model compares emails as exact strings.
- Templates and the text of flash messages. Responses are a small datatype, and flash messages are an enumeration.
- Flask's session mechanics: the signed cookie, the secret key, and the `_flashes` key. Environment and dotenv configuration are also left out.
- bcrypt's internals: the 72-byte input limit, the encoding of the hash, and one-wayness. Hashing is an uninterpreted function pair, and the claim that a stored hash checks against its password holds under `AuthState.Sound`.
- Non-ASCII letters. `str.islower` and `str.isupper` are modelled for ASCII letters only, so a password whose only lower- or upper-case letters are non-ASCII is rejected by the model but accepted by Python.
- `random.randint` and `bcrypt.gensalt`: they are parameters, so the model says nothing about their distribution.
- Concurrent requests. Each request is one atomic step over a table that no other request touches. Sign-up's `SELECT` (app.py:64) and `INSERT` (app.py:73) are separate statements without a lock, so two concurrent sign-ups for the same free email can both pass the check; the second `INSERT` then fails on a unique index (a 500) or adds a duplicate row. The map-based table cannot hold a duplicate row. Overlapping requests from two tabs sharing one session cookie, where the last cookie written wins, are not modelled either.
- Handlers.Signup: promises `AccountCreated` whenever the email has no row when the request runs; it does not model the concurrent sign-up whose `INSERT` fails or duplicates a row, because requests are atomic in the model.
- The routes' GET forms render templates only. `index` is modelled as a no-op on state.
