/** The bearer-token guard: reading the `Authorization` header, verifying the token, and the
    two guards that either hand back the token's claims or answer 401/403 themselves. */
module Auth {
  import opened Wrappers
  import opened Schema
  import opened Store

  const BearerPrefix := "Bearer "

  const AuthRequired := "Authentication required"
  const InvalidToken := "Invalid or expired token"
  const AdminRequired := "Admin access required"

  /** Why `jwt.verify` throws. */
  datatype VerifyFailure = TokenExpired | TokenMalformed | BadSignature

  /** What `jwt.verify` does with a token: return its claims or throw. */
  datatype Verification = Decoded(payload: Payload) | Threw(failure: VerifyFailure)

  /** The signing and hashing libraries, as oracles: `sign` is `jwt.sign` with the secret and
      the 7-day expiry, given the claims and the issue time it stamps as `iat` (from which
      `exp` follows); `verify` is `jwt.verify` with the secret, `hash` is `bcrypt.hash` at
      cost 12 and `compare` is `bcrypt.compare`. */
  datatype Crypto = Crypto(
    sign: (Payload, int) -> string,
    verify: string -> Verification,
    hash: string -> string,
    compare: (string, string) -> bool)

  /** The one property of the password hash the handlers rely on: a password matches its
      own hash. */
  ghost predicate HashSound(c: Crypto)
  {
    forall p :: c.compare(p, c.hash(p))
  }

  /** `createToken(payload)`, called at time `now`. */
  function CreateToken(c: Crypto, p: Payload, now: int): string
  {
    c.sign(p, now)
  }

  /** `verifyToken(token)`: the claims, or null whenever `jwt.verify` throws. */
  function VerifyToken(c: Crypto, token: string): (r: Option<Payload>)
    ensures r.None? <==> c.verify(token).Threw?
    ensures r.Some? ==> c.verify(token) == Decoded(r.value)
  {
    match c.verify(token)
    case Decoded(p) => Some(p)
    case Threw(_) => None
  }

  /** `extractToken(req)`: the rest of the header after an exact, case-sensitive `"Bearer "`,
      or null when the header is missing or does not start that way. */
  function ExtractToken(header: Option<string>): (r: Option<string>)
    ensures r.Some? <==> header.Some? && BearerPrefix <= header.value
    ensures r.Some? ==> header.value == BearerPrefix + r.value
  {
    if header.Some? && BearerPrefix <= header.value then Some(header.value[|BearerPrefix|..])
    else None
  }

  /** Round trip: whatever follows `"Bearer "` is the token. */
  lemma ExtractTokenRoundTrip(t: string)
    ensures ExtractToken(Some(BearerPrefix + t)) == Some(t)
  {
    assert BearerPrefix <= BearerPrefix + t;
    assert (BearerPrefix + t)[|BearerPrefix|..] == t;
  }

  /** The prefix is case-sensitive and exactly one space long: a lowercase scheme gives no
      token, and a second space becomes part of the token. */
  lemma ExtractTokenExactPrefix(t: string)
    ensures ExtractToken(Some("bearer " + t)) == None
    ensures ExtractToken(Some("Bearer")) == None
    ensures ExtractToken(Some("Bearer  " + t)) == Some(" " + t)
  {
    assert ("bearer " + t)[0] == 'b';
    assert "Bearer  " + t == BearerPrefix + (" " + t);
    ExtractTokenRoundTrip(" " + t);
  }

  /** The outcome of a guard: the token's claims, or the response the guard has written. */
  datatype AuthResult = Authorized(payload: Payload) | Rejected(response: Response)

  /** `requireAuth`: 401 "Authentication required" when there is no non-empty bearer token,
      401 "Invalid or expired token" when the token does not verify, and the claims
      otherwise. */
  function Authenticate(c: Crypto, header: Option<string>): (r: AuthResult)
    ensures r.Rejected? ==>
      r.response == Response(401, Error(AuthRequired)) || r.response == Response(401, Error(InvalidToken))
    ensures (r == Rejected(Response(401, Error(AuthRequired)))) <==>
      (header.None? || !(BearerPrefix <= header.value) || header.value == BearerPrefix)
    ensures (r == Rejected(Response(401, Error(InvalidToken)))) <==>
      (header.Some? && BearerPrefix < header.value && c.verify(header.value[|BearerPrefix|..]).Threw?)
    ensures r.Authorized? <==>
      (header.Some? && BearerPrefix < header.value && c.verify(header.value[|BearerPrefix|..]).Decoded?)
    ensures r.Authorized? ==> Decoded(r.payload) == c.verify(header.value[|BearerPrefix|..])
  {
    var token := ExtractToken(header);
    if token.None? || token.value == "" then Rejected(Response(401, Error(AuthRequired)))
    else
      match VerifyToken(c, token.value)
      case None => Rejected(Response(401, Error(InvalidToken)))
      case Some(p) => Authorized(p)
  }

  /** What the handlers rely on from `jwt`: a token it signs is not empty and verifies to the
      claims it was signed over. The model has no expiry, so an issued token verifies at
      any later time. */
  ghost predicate TokensRoundTrip(c: Crypto)
  {
    forall p, iat :: c.sign(p, iat) != "" && c.verify(c.sign(p, iat)) == Decoded(p)
  }

  /** A token issued by `createToken` and sent back as `Bearer <token>` authenticates as
      exactly the claims it was issued for. */
  lemma AuthenticateIssued(c: Crypto, p: Payload, issued: int)
    requires TokensRoundTrip(c)
    ensures Authenticate(c, Some(BearerPrefix + CreateToken(c, p, issued))) == Authorized(p)
  {
    ExtractTokenRoundTrip(CreateToken(c, p, issued));
  }

  /** `requireAdmin`: the authentication outcome when that is a rejection; otherwise the
      claims when a user row with that id has `is_admin` set, and 403 when none does. */
  function AdminCheck(c: Crypto, header: Option<string>, users: map<string, User>): (r: AuthResult)
    ensures Authenticate(c, header).Rejected? ==> r == Authenticate(c, header)
    ensures r.Authorized? <==>
      Authenticate(c, header).Authorized? && IsAdmin(users, Authenticate(c, header).payload.userId)
    ensures r.Authorized? ==> r == Authenticate(c, header)
    ensures r.Rejected? ==> r.response.status == 401 || r.response.status == 403
    ensures (r == Rejected(Response(403, Error(AdminRequired)))) <==>
      Authenticate(c, header).Authorized? && !IsAdmin(users, Authenticate(c, header).payload.userId)
  {
    match Authenticate(c, header)
    case Rejected(resp) => Rejected(resp)
    case Authorized(p) =>
      if IsAdmin(users, p.userId) then Authorized(p)
      else Rejected(Response(403, Error(AdminRequired)))
  }

  /** `requireAuth(req, res)`: returns the claims and writes nothing, or writes the rejection
      and returns null. */
  method RequireAuth<B>(c: Crypto, req: Request<B>, res: Res) returns (decoded: Option<Payload>)
    modifies res
    ensures match Authenticate(c, req.authorization)
            case Authorized(p) => decoded == Some(p) && res.sent == old(res.sent)
            case Rejected(resp) => decoded == None && res.sent == Some(resp)
  {
    var token := ExtractToken(req.authorization);
    if token.None? || token.value == "" {
      res.Send(401, Error(AuthRequired));
      return None;
    }
    decoded := VerifyToken(c, token.value);
    if decoded.None? {
      res.Send(401, Error(InvalidToken));
    }
  }

  /** `requireAdmin(req, res, sql)`: like `RequireAuth`, then one lookup of the user's
      `is_admin` flag; the store is only read. */
  method RequireAdmin<B>(c: Crypto, req: Request<B>, res: Res, db: Database)
    returns (decoded: Option<Payload>)
    requires db.Valid()
    modifies res
    ensures match AdminCheck(c, req.authorization, db.users)
            case Authorized(p) => decoded == Some(p) && res.sent == old(res.sent)
            case Rejected(resp) => decoded == None && res.sent == Some(resp)
  {
    decoded := RequireAuth(c, req, res);
    if decoded.None? {
      return;
    }
    if !IsAdmin(db.users, decoded.value.userId) {
      res.Send(403, Error(AdminRequired));
      decoded := None;
    }
  }
}
