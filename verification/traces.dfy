/** Sequences of requests from one browser: what a run of handlers does to
    the session and the `users` table, and what it never does. */
module Traces {
  import opened AuthState
  import opened DecimalFormat
  import opened Handlers

  /** One request to one of the routes, with the random values its handler
      would draw (the bcrypt salt, the passcode). */
  datatype Request =
    | IndexRequest
    | SignupRequest(verb: HttpMethod, form: Form, salt: Salt)
    | LoginRequest(verb: HttpMethod, form: Form)
    | DashboardRequest
    | LogoutRequest
    | ForgotPasswordRequest(verb: HttpMethod, form: Form, salt: Salt, draw: int)

  /** A passcode draw lies in the range `random.randint(100000, 999999)`
      returns. */
  predicate ValidRequest(q: Request) {
    q.ForgotPasswordRequest? ==> OtpLow <= q.draw <= OtpHigh
  }

  /** The route table: hands the request to its handler. */
  function Handle(q: Request, s: Session, db: Store, hasher: Hasher): (r: Outcome)
    requires ValidRequest(q)
    ensures r.session.user.Some? ==> r.session.user == s.user
    ensures db.Keys <= r.store.Keys
  {
    match q
    case IndexRequest => Index(s, db)
    case SignupRequest(m, f, salt) => Signup(m, f, s, db, hasher, salt)
    case LoginRequest(m, f) => Login(m, f, s, db, hasher)
    case DashboardRequest => Dashboard(s, db)
    case LogoutRequest => Logout(s, db)
    case ForgotPasswordRequest(m, f, salt, draw) => ForgotPassword(m, f, s, db, hasher, salt, draw)
  }

  /** The responses of a run of requests and the state it ends in. */
  datatype Trace = Trace(responses: seq<Response>, session: Session, store: Store)

  /** Handles the requests one after another, threading session and table. */
  function Run(qs: seq<Request>, s: Session, db: Store, hasher: Hasher): (t: Trace)
    requires forall i :: 0 <= i < |qs| ==> ValidRequest(qs[i])
    ensures |t.responses| == |qs|
    ensures db.Keys <= t.store.Keys
    ensures s.user.None? ==> t.session.user.None?
    decreases |qs|
  {
    if |qs| == 0 then Trace([], s, db)
    else
      var o := Handle(qs[0], s, db, hasher);
      var rest := Run(qs[1..], o.session, o.store, hasher);
      Trace([o.response] + rest.responses, rest.session, rest.store)
  }

  /** No handler ever puts a user in the session: login does not, so a
      browser that starts without one is sent to the login page by the
      dashboard whatever it did before. */
  lemma {:induction false} DashboardAlwaysRedirects(qs: seq<Request>, db: Store, hasher: Hasher)
    requires forall i :: 0 <= i < |qs| ==> ValidRequest(qs[i])
    ensures var t := Run(qs, EmptySession, db, hasher);
            Dashboard(t.session, t.store).response == RedirectToLogin(LoginRequired)
  {
  }

  /** The reset keys travel together, the passcode has the shape the flow
      issues, and a reset is only ever started for an email with a row. */
  ghost predicate ResetConsistent(s: Session, db: Store) {
    && (s.resetEmail.Some? <==> s.otp.Some?)
    && (s.otp.Some? ==> IsOtpString(s.otp.value))
    && (s.resetEmail.Some? ==> s.resetEmail.value in db)
  }

  lemma HandlePreservesResetConsistent(q: Request, s: Session, db: Store, hasher: Hasher)
    requires ValidRequest(q)
    requires ResetConsistent(s, db)
    ensures var o := Handle(q, s, db, hasher); ResetConsistent(o.session, o.store)
  {
  }

  lemma {:induction false} RunPreservesResetConsistent(qs: seq<Request>, s: Session, db: Store, hasher: Hasher)
    requires forall i :: 0 <= i < |qs| ==> ValidRequest(qs[i])
    requires ResetConsistent(s, db)
    ensures var t := Run(qs, s, db, hasher); ResetConsistent(t.session, t.store)
    decreases |qs|
  {
    if |qs| > 0 {
      HandlePreservesResetConsistent(qs[0], s, db, hasher);
      var o := Handle(qs[0], s, db, hasher);
      RunPreservesResetConsistent(qs[1..], o.session, o.store, hasher);
    }
  }

  /** Once a row exists its name never changes: sign-up only adds rows for
      new emails and a reset only replaces a hash. */
  lemma {:induction false} NamesAreStable(qs: seq<Request>, s: Session, db: Store, hasher: Hasher, e: Email)
    requires forall i :: 0 <= i < |qs| ==> ValidRequest(qs[i])
    requires e in db
    ensures var t := Run(qs, s, db, hasher); e in t.store && t.store[e].name == db[e].name
    decreases |qs|
  {
    if |qs| > 0 {
      var o := Handle(qs[0], s, db, hasher);
      assert e in o.store && o.store[e].name == db[e].name;
      NamesAreStable(qs[1..], o.session, o.store, hasher, e);
    }
  }

}
