/** `POST /api/auth/register`: an ordered validation chain, a duplicate check on the
    lowercased email, then one new user row and a token. */
module Register {
  import opened Wrappers
  import opened Text
  import opened Schema
  import opened Store
  import opened Auth

  /** The request body `{ email, password, name, organization, jobTitle }`. */
  datatype RegisterBody = RegisterBody(
    email: Option<string>, password: Option<string>, name: Option<string>,
    organization: Option<string>, jobTitle: Option<string>)

  const CredentialsRequired := "Email and password required"
  const PasswordTooShort := "Password must be at least 8 characters"
  const InvalidEmailFormat := "Invalid email format"
  const AlreadyRegistered := "Email already registered"

  const MinPasswordLength := 8

  // ---------------------------------------------------------------------------------------
  // The email pattern /^[^\s@]+@[^\s@]+\.[^\s@]+$/

  /** A member of the class `[^\s@]`. */
  predicate Plain(c: char)
  {
    !IsSpace(c) && c != '@'
  }

  /** A match of `[^\s@]+`. */
  predicate PlainRun(s: string)
  {
    |s| > 0 && forall i :: 0 <= i < |s| ==> Plain(s[i])
  }

  /** What the regular expression accepts, read off its structure: a run, `@`, a run, `.`,
      a run, and nothing else. */
  ghost predicate MatchesEmailPattern(e: string)
  {
    exists local, host, tld :: e == local + "@" + host + "." + tld &&
      PlainRun(local) && PlainRun(host) && PlainRun(tld)
  }

  predicate NoSpace(s: string)
  {
    forall i :: 0 <= i < |s| ==> !IsSpace(s[i])
  }

  function CountChar(s: string, c: char): nat
  {
    if s == [] then 0 else (if s[0] == c then 1 else 0) + CountChar(s[1..], c)
  }

  /** The format rule the handler applies: no whitespace, exactly one `@`, something before it, and
      after it a `.` that is neither the first nor the last character. */
  predicate EmailFormatOk(e: string)
  {
    && NoSpace(e)
    && CountChar(e, '@') == 1
    && var local := BeforeAt(e);
       && 0 < |local| < |e|
       && var domain := e[|local| + 1..];
          exists i :: 0 < i < |domain| - 1 && domain[i] == '.'
  }

  lemma {:induction false} CountCharConcat(a: string, b: string, c: char)
    ensures CountChar(a + b, c) == CountChar(a, c) + CountChar(b, c)
  {
    if a == [] {
      assert a + b == b;
    } else {
      assert (a + b)[1..] == a[1..] + b;
      CountCharConcat(a[1..], b, c);
    }
  }

  lemma {:induction false} CountCharZero(s: string, c: char)
    ensures CountChar(s, c) == 0 <==> c !in s
  {
    if s != [] {
      CountCharZero(s[1..], c);
      assert s == [s[0]] + s[1..];
    }
  }

  lemma {:induction false} BeforeAtOf(local: string, rest: string)
    requires '@' !in local
    ensures BeforeAt(local + "@" + rest) == local
  {
    if local != [] {
      assert (local + "@" + rest)[1..] == local[1..] + "@" + rest;
      BeforeAtOf(local[1..], rest);
    } else {
      assert (local + "@" + rest)[0] == '@';
    }
  }

  lemma NoAtInRun(s: string)
    requires PlainRun(s)
    ensures '@' !in s
  {
  }

  lemma NoSpaceJoin(a: string, b: string)
    requires NoSpace(a) && NoSpace(b)
    ensures NoSpace(a + b)
  {
    forall i | 0 <= i < |a + b| ensures !IsSpace((a + b)[i]) {
      if i < |a| { assert (a + b)[i] == a[i]; } else { assert (a + b)[i] == b[i - |a|]; }
    }
  }

  lemma OneAt(local: string, domain: string)
    requires '@' !in local && '@' !in domain
    ensures CountChar(local + "@" + domain, '@') == 1
  {
    CountCharZero(local, '@');
    CountCharZero(domain, '@');
    CountCharConcat(local, "@", '@');
    CountCharConcat(local + "@", domain, '@');
    assert CountChar("@", '@') == 1;
  }

  /** The handler's format rule, for a string already split at its one `@`. */
  lemma FormatOfParts(local: string, domain: string, dot: nat)
    requires |local| > 0 && '@' !in local && '@' !in domain
    requires NoSpace(local + "@" + domain)
    requires 0 < dot < |domain| - 1 && domain[dot] == '.'
    ensures EmailFormatOk(local + "@" + domain)
  {
    var e := local + "@" + domain;
    OneAt(local, domain);
    BeforeAtOf(local, domain);
    assert e[|local| + 1..] == domain;
  }

  lemma PartsFormat(local: string, host: string, tld: string)
    requires PlainRun(local) && PlainRun(host) && PlainRun(tld)
    ensures EmailFormatOk(local + "@" + host + "." + tld)
  {
    NoSpaceJoin(local, "@");
    NoSpaceJoin(local + "@", host);
    NoSpaceJoin(local + "@" + host, ".");
    NoSpaceJoin(local + "@" + host + ".", tld);
    var domain := host + "." + tld;
    assert local + "@" + host + "." + tld == local + "@" + domain;
    NoAtInRun(local);
    NoAtInRun(host);
    NoAtInRun(tld);
    assert domain[|host|] == '.';
    FormatOfParts(local, domain, |host|);
  }

  /** Every string the regular expression matches satisfies the handler's format rule. */
  lemma PatternImpliesFormat(e: string)
    requires MatchesEmailPattern(e)
    ensures EmailFormatOk(e)
  {
    var local, host, tld :| e == local + "@" + host + "." + tld &&
      PlainRun(local) && PlainRun(host) && PlainRun(tld);
    PartsFormat(local, host, tld);
  }

  lemma NoSpaceSlice(s: string, lo: nat, hi: nat)
    requires NoSpace(s) && lo <= hi <= |s|
    ensures NoSpace(s[lo..hi])
  {
    forall k | 0 <= k < hi - lo ensures !IsSpace(s[lo..hi][k]) {
      assert s[lo..hi][k] == s[lo + k];
    }
  }

  lemma RunOf(s: string)
    requires |s| > 0 && NoSpace(s) && '@' !in s
    ensures PlainRun(s)
  {
    forall k | 0 <= k < |s| ensures Plain(s[k]) {
      assert s[k] in s;
    }
  }

  /** A string with exactly one `@`, not at either end, is what precedes it, `@`, and a rest
      without `@`. */
  lemma AtSplit(e: string)
    requires CountChar(e, '@') == 1 && 0 < |BeforeAt(e)| < |e|
    ensures e == BeforeAt(e) + "@" + e[|BeforeAt(e)| + 1..]
    ensures '@' !in e[|BeforeAt(e)| + 1..]
  {
    var local := BeforeAt(e);
    var domain := e[|local| + 1..];
    assert e == local + ("@" + domain);
    CountCharConcat(local, "@" + domain, '@');
    CountCharConcat("@", domain, '@');
    assert CountChar("@", '@') == 1;
    CountCharZero(local, '@');
    CountCharZero(domain, '@');
  }

  /** The pattern, for a string already split at its one `@`. */
  lemma PatternOfParts(local: string, domain: string, dot: nat)
    requires PlainRun(local) && NoSpace(domain) && '@' !in domain
    requires 0 < dot < |domain| - 1 && domain[dot] == '.'
    ensures MatchesEmailPattern(local + "@" + domain)
  {
    var host, tld := domain[..dot], domain[dot + 1..];
    assert domain == host + "." + tld;
    NoSpaceSlice(domain, 0, dot);
    NoSpaceSlice(domain, dot + 1, |domain|);
    assert '@' !in host && '@' !in tld by {
      assert forall x :: x in host ==> x in domain;
      assert forall x :: x in tld ==> x in domain;
    }
    RunOf(host);
    RunOf(tld);
    assert local + "@" + domain == local + "@" + host + "." + tld;
  }

  /** Every string that satisfies the handler's format rule is matched by the regular expression. */
  lemma FormatImpliesPattern(e: string)
    requires EmailFormatOk(e)
    ensures MatchesEmailPattern(e)
  {
    var local := BeforeAt(e);
    var domain := e[|local| + 1..];
    AtSplit(e);
    var dot :| 0 < dot < |domain| - 1 && domain[dot] == '.';
    assert local == e[..|local|];
    NoSpaceSlice(e, 0, |local|);
    NoSpaceSlice(e, |local| + 1, |e|);
    RunOf(local);
    PatternOfParts(local, domain, dot);
  }

  /** The handler's format rule accepts exactly the strings the regular expression matches. */
  lemma EmailFormatMatchesPattern(e: string)
    ensures EmailFormatOk(e) <==> MatchesEmailPattern(e)
  {
    if MatchesEmailPattern(e) { PatternImpliesFormat(e); }
    if EmailFormatOk(e) { FormatImpliesPattern(e); }
  }

  // ---------------------------------------------------------------------------------------
  // The handler

  /** The validation chain, first failing check first. */
  function Validate(b: RegisterBody): (r: Option<Response>)
  {
    if !Truthy(b.email) || !Truthy(b.password) then Some(Response(400, Error(CredentialsRequired)))
    else if |b.password.value| < MinPasswordLength then Some(Response(400, Error(PasswordTooShort)))
    else if !EmailFormatOk(b.email.value) then Some(Response(400, Error(InvalidEmailFormat)))
    else None
  }

  /** The chain lets a body through exactly when the email and password are present, the
      password has at least 8 characters and the email matches the pattern; every rejection
      is a 400 naming the first check that failed. */
  lemma ValidateSpec(b: RegisterBody)
    ensures Validate(b).None? <==>
      Truthy(b.email) && Truthy(b.password) && |b.password.value| >= 8 && MatchesEmailPattern(b.email.value)
    ensures Validate(b).Some? ==> Validate(b).value.status == 400
    ensures !Truthy(b.email) || !Truthy(b.password) ==>
      Validate(b) == Some(Response(400, Error(CredentialsRequired)))
    ensures Truthy(b.email) && Truthy(b.password) && |b.password.value| < 8 ==>
      Validate(b) == Some(Response(400, Error(PasswordTooShort)))
    ensures Truthy(b.email) && Truthy(b.password) && |b.password.value| >= 8 &&
            !MatchesEmailPattern(b.email.value) ==>
      Validate(b) == Some(Response(400, Error(InvalidEmailFormat)))
  {
    if Truthy(b.email) {
      EmailFormatMatchesPattern(b.email.value);
    }
  }

  /** The length boundary: seven characters are too few, eight pass the length check. */
  lemma PasswordBoundary(email: string, p7: string, p8: string)
    requires |p7| == 7 && |p8| == 8 && email != ""
    ensures Validate(RegisterBody(Some(email), Some(p7), None, None, None)) ==
      Some(Response(400, Error(PasswordTooShort)))
    ensures Validate(RegisterBody(Some(email), Some(p8), None, None, None)) !=
      Some(Response(400, Error(PasswordTooShort)))
  {
  }

  /** The row the INSERT adds: lowercased email, the name or else the part of the submitted
      email before `@`, the password's hash, blank organization and job title as null, and
      `email_verified` true. */
  function NewUser(t: Tables, b: RegisterBody, c: Crypto, now: int): User
    requires b.email.Some? && b.password.Some?
  {
    var email := b.email.value;
    NewUserRow(t, ToLower(email),
               if Truthy(b.name) then b.name.value else BeforeAt(email),
               c.hash(b.password.value), OrNull(b.organization), OrNull(b.jobTitle), true, now)
  }

  /** The whole handler on a snapshot of the store. */
  function RegisterStep(t: Tables, req: Request<RegisterBody>, c: Crypto, now: int): (out: Outcome)
    ensures out.response.status in {200, 201, 400, 405, 409}
  {
    match Preflight(req.verb, "POST")
    case Some(r) => Outcome(t, r)
    case None =>
      match Validate(req.body)
      case Some(r) => Outcome(t, r)
      case None =>
        if ToLower(req.body.email.value) in t.users then
          Outcome(t, Response(409, Error(AlreadyRegistered)))
        else
          var u := NewUser(t, req.body, c, now);
          Outcome(WithUser(t, u), Response(201, Authenticated(Project(u), CreateToken(c, Claims(u), now))))
  }

  /** `OPTIONS` is answered 200 and any verb other than POST 405. A validated request for an
      email already present (in any letter case) is answered 409 and leaves the store
      unchanged; so does every answer other than 201. */
  lemma RegisterConflict(t: Tables, req: Request<RegisterBody>, c: Crypto, now: int)
    ensures req.verb == "OPTIONS" ==> RegisterStep(t, req, c, now) == Outcome(t, Response(200, Empty))
    ensures req.verb != "OPTIONS" && req.verb != "POST" ==>
      RegisterStep(t, req, c, now) == Outcome(t, Response(405, Error(MethodNotAllowed)))
    ensures RegisterStep(t, req, c, now).response.status != 201 ==> RegisterStep(t, req, c, now).tables == t
    ensures req.verb == "POST" && Validate(req.body).None? ==>
      ((RegisterStep(t, req, c, now).response == Response(409, Error(AlreadyRegistered))) <==>
       ToLower(req.body.email.value) in t.users)
  {
  }

  /** A successful registration adds exactly one user, filed under the lowercased email,
      with a fresh id, the hash of the password, `email_verified` true, the default name, a
      blank organization or job title as null and no experience level;
      it answers 201 with the projection of that row and a token over exactly
      `{userId, email, name}` issued at the request's time; the store stays valid. */
  lemma RegisterSuccess(t: Tables, req: Request<RegisterBody>, c: Crypto, now: int)
    requires Valid(t)
    requires RegisterStep(t, req, c, now).response.status == 201
    ensures req.verb == "POST" && Validate(req.body).None?
    ensures var out, key := RegisterStep(t, req, c, now), ToLower(req.body.email.value);
      && key !in t.users
      && out.tables.users.Keys == t.users.Keys + {key}
      && |out.tables.users| == |t.users| + 1
      && (forall k :: k in t.users ==> out.tables.users[k] == t.users[k])
      && out.tables.results == t.results && out.tables.leads == t.leads
      && (var u := out.tables.users[key];
         && u.email == key
         && (forall k :: k in t.users ==> t.users[k].id != u.id)
         && u.emailVerified && !u.isAdmin
         && u.organization == OrNull(req.body.organization) && u.jobTitle == OrNull(req.body.jobTitle)
         && u.experienceLevel.None?
         && u.passwordHash == c.hash(req.body.password.value)
         && u.name == (if Truthy(req.body.name) then req.body.name.value else BeforeAt(req.body.email.value))
         && out.response == Response(201, Authenticated(
              PublicUser(u.id, u.email, u.name, u.organization, u.jobTitle, u.isAdmin),
              c.sign(Payload(u.id, u.email, u.name), now))))
      && Valid(out.tables)
  {
    var u := NewUser(t, req.body, c, now);
    ToLowerIdempotent(req.body.email.value);
    InsertUserValid(t, u);
  }

  /** The default name is the local part of the submitted email (before lowercasing). */
  lemma DefaultName(t: Tables, req: Request<RegisterBody>, c: Crypto, now: int)
    requires Valid(t)
    requires RegisterStep(t, req, c, now).response.status == 201 && !Truthy(req.body.name)
    ensures exists host :: req.body.email.value == RegisterStep(t, req, c, now).response.body.user.name + "@" + host
  {
    var e := req.body.email.value;
    var local := BeforeAt(e);
    assert RegisterStep(t, req, c, now).response.body.user.name == local;
    assert EmailFormatOk(e);
    assert e == local + "@" + e[|local| + 1..];
  }

  /** The handler, run against the store in place. */
  method Handle(db: Database, req: Request<RegisterBody>, res: Res, c: Crypto, now: int)
    requires db.Valid()
    modifies db, res
    ensures db.Valid()
    ensures res.sent == Some(RegisterStep(old(db.Snapshot()), req, c, now).response)
    ensures db.Snapshot() == RegisterStep(old(db.Snapshot()), req, c, now).tables
  {
    if req.verb == "OPTIONS" {
      res.Send(200, Empty);
      return;
    }
    if req.verb != "POST" {
      res.Send(405, Error(MethodNotAllowed));
      return;
    }
    var b := req.body;
    if !Truthy(b.email) || !Truthy(b.password) {
      res.Send(400, Error(CredentialsRequired));
      return;
    }
    if |b.password.value| < MinPasswordLength {
      res.Send(400, Error(PasswordTooShort));
      return;
    }
    if !EmailFormatOk(b.email.value) {
      res.Send(400, Error(InvalidEmailFormat));
      return;
    }
    var key := ToLower(b.email.value);
    if UserByEmail(db.users, key).Some? {
      res.Send(409, Error(AlreadyRegistered));
      return;
    }
    var passwordHash := c.hash(b.password.value);
    ghost var t0 := db.Snapshot();
    var user := db.InsertUser(key, if Truthy(b.name) then b.name.value else BeforeAt(b.email.value),
                              passwordHash, OrNull(b.organization), OrNull(b.jobTitle), true, now);
    ToLowerIdempotent(b.email.value);
    InsertUserValid(t0, user);
    var token := CreateToken(c, Claims(user), now);
    res.Send(201, Authenticated(Project(user), token));
  }
}
