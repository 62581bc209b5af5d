/** `POST /api/auth/login`: look the user up by lowercased email, check the password, touch
    `updated_at`, and answer with a token. Both failures give the same 401. */
module Login {
  import opened Wrappers
  import opened Text
  import opened Schema
  import opened Store
  import opened Auth

  datatype LoginBody = LoginBody(email: Option<string>, password: Option<string>)

  const CredentialsRequired := "Email and password required"
  const InvalidCredentials := "Invalid email or password"

  /** The whole handler on a snapshot of the store. The answer is built from the row as it
      was selected, before `updated_at` is touched. */
  function LoginStep(t: Tables, req: Request<LoginBody>, c: Crypto, now: int): (out: Outcome)
    ensures out.response.status in {200, 400, 401, 405}
  {
    match Preflight(req.verb, "POST")
    case Some(r) => Outcome(t, r)
    case None =>
      var b := req.body;
      if !Truthy(b.email) || !Truthy(b.password) then
        Outcome(t, Response(400, Error(CredentialsRequired)))
      else
        match UserByEmail(t.users, ToLower(b.email.value))
        case None => Outcome(t, Response(401, Error(InvalidCredentials)))
        case Some(u) =>
          if !c.compare(b.password.value, u.passwordHash) then
            Outcome(t, Response(401, Error(InvalidCredentials)))
          else
            Outcome(t.(users := TouchUser(t.users, u.id, now)),
                    Response(200, Authenticated(Project(u), CreateToken(c, Claims(u), now))))
  }

  /** `OPTIONS` is answered 200 and any verb other than POST 405. A missing email or
      password is answered 400; once both are present, the answer is 401
      exactly when no user has that email or the password does not match its hash, and every
      401 is the same response. Only a 200 changes the store. */
  lemma LoginFailures(t: Tables, req: Request<LoginBody>, c: Crypto, now: int)
    ensures req.verb == "OPTIONS" ==> LoginStep(t, req, c, now) == Outcome(t, Response(200, Empty))
    ensures req.verb != "OPTIONS" && req.verb != "POST" ==>
      LoginStep(t, req, c, now) == Outcome(t, Response(405, Error(MethodNotAllowed)))
    ensures LoginStep(t, req, c, now).response.status != 200 ==> LoginStep(t, req, c, now).tables == t
    ensures req.verb == "POST" ==>
      ((LoginStep(t, req, c, now).response == Response(400, Error(CredentialsRequired))) <==>
       (!Truthy(req.body.email) || !Truthy(req.body.password)))
    ensures req.verb == "POST" && Truthy(req.body.email) && Truthy(req.body.password) ==>
      var key := ToLower(req.body.email.value);
      (LoginStep(t, req, c, now).response.status == 401) <==>
        (key !in t.users || !c.compare(req.body.password.value, t.users[key].passwordHash))
    ensures LoginStep(t, req, c, now).response.status == 401 ==>
      LoginStep(t, req, c, now).response == Response(401, Error(InvalidCredentials))
  {
  }

  /** No user-existence leak: an unknown email and a known email with a wrong password get
      identical answers. */
  lemma UnknownEmailLooksLikeWrongPassword(t: Tables, c: Crypto, now: int,
                                           unknown: Request<LoginBody>, wrong: Request<LoginBody>)
    requires unknown.verb == "POST" && wrong.verb == "POST"
    requires Truthy(unknown.body.email) && Truthy(unknown.body.password)
    requires Truthy(wrong.body.email) && Truthy(wrong.body.password)
    requires ToLower(unknown.body.email.value) !in t.users
    requires ToLower(wrong.body.email.value) in t.users
    requires !c.compare(wrong.body.password.value, t.users[ToLower(wrong.body.email.value)].passwordHash)
    ensures LoginStep(t, unknown, c, now) == LoginStep(t, wrong, c, now)
  {
  }

  /** Login is insensitive to the letter case of the email. */
  lemma LoginCaseInsensitive(t: Tables, req: Request<LoginBody>, c: Crypto, now: int, email: string)
    requires req.body.email.Some? && ToLower(email) == ToLower(req.body.email.value)
    ensures LoginStep(t, req.(body := req.body.(email := Some(email))), c, now) == LoginStep(t, req, c, now)
  {
    assert |email| == |req.body.email.value|;
  }

  /** A successful login answers 200 with the matched user's projection and a token over
      exactly `{userId, email, name}` issued at the request's time, and changes nothing but that user's `updated_at`. */
  lemma LoginSuccess(t: Tables, req: Request<LoginBody>, c: Crypto, now: int)
    requires Valid(t)
    requires req.verb == "POST" && LoginStep(t, req, c, now).response.status == 200
    ensures Truthy(req.body.email) && Truthy(req.body.password)
    ensures var out, key := LoginStep(t, req, c, now), ToLower(req.body.email.value);
      && key in t.users
      && c.compare(req.body.password.value, t.users[key].passwordHash)
      && out.response == Response(200, Authenticated(Project(t.users[key]), c.sign(Claims(t.users[key]), now)))
      && out.tables.results == t.results && out.tables.leads == t.leads
      && out.tables.nextUserId == t.nextUserId
      && out.tables.users.Keys == t.users.Keys
      && (forall k :: k in t.users ==>
            out.tables.users[k] == if k == key then t.users[k].(updatedAt := now) else t.users[k])
      && Valid(out.tables)
  {
    TouchUserExact(t, ToLower(req.body.email.value), now);
  }

  /** The handler, run against the store in place. */
  method Handle(db: Database, req: Request<LoginBody>, res: Res, c: Crypto, now: int)
    requires db.Valid()
    modifies db, res
    ensures db.Valid()
    ensures res.sent == Some(LoginStep(old(db.Snapshot()), req, c, now).response)
    ensures db.Snapshot() == LoginStep(old(db.Snapshot()), req, c, now).tables
  {
    if req.verb == "OPTIONS" {
      res.Send(200, Empty);
      return;
    }
    if req.verb != "POST" {
      res.Send(405, Error(MethodNotAllowed));
      return;
    }
    var b := req.body;
    if !Truthy(b.email) || !Truthy(b.password) {
      res.Send(400, Error(CredentialsRequired));
      return;
    }
    var found := UserByEmail(db.users, ToLower(b.email.value));
    if found.None? {
      res.Send(401, Error(InvalidCredentials));
      return;
    }
    var user := found.value;
    var valid := c.compare(b.password.value, user.passwordHash);
    if !valid {
      res.Send(401, Error(InvalidCredentials));
      return;
    }
    TouchUserExact(db.Snapshot(), ToLower(b.email.value), now);
    db.TouchUpdatedAt(user.id, now);
    var token := CreateToken(c, Claims(user), now);
    res.Send(200, Authenticated(Project(user), token));
  }
}
