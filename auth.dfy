/** The admin gate of `auth.js`: the password login and the bearer-token
    middleware. Both are decisions on their inputs; the server-held password is
    configuration, token signing is represented by the claims it signs, and
    token verification (`jwt.verify` with the server secret at the current
    time) is the parameter `verify`. */
module Auth {
  import opened Js
  import opened Strings

  /** The payload `login` signs and the lifetime it asks for. */
  datatype Claims = Claims(role: string, expiresIn: string)

  const AdminClaims := Claims("admin", "2h")

  /** The single outcome of a request through the gate: one error response,
      a token, or handing the request on (`next()`). */
  datatype AuthOutcome =
    | BadRequest(error: string)
    | Unauthorized(error: string)
    | TokenIssued(claims: Claims)
    | CallNext

  const PasswordRequired := "Password required"
  const InvalidPassword := "Invalid password"
  const MissingHeader := "Missing Authorization header"
  const InvalidFormat := "Invalid authorization format"
  const TokenRejected := "Token expired or invalid"

  /** POST /api/auth/login. `adminPassword` is never empty: the module refuses
      to load without one. */
  function Login(body: Json, adminPassword: string): (r: AuthOutcome)
    requires adminPassword != ""
    ensures r.BadRequest? || r.Unauthorized? || r.TokenIssued?
    ensures r.BadRequest? <==> !Truthy(Prop(body, "password"))
    ensures r.TokenIssued? <==> Prop(body, "password") == Some(Str(adminPassword))
    ensures r.TokenIssued? ==> r.claims == AdminClaims
    ensures r.BadRequest? ==> r.error == PasswordRequired
    ensures r.Unauthorized? ==> r.error == InvalidPassword
  {
    var password := Prop(body, "password");
    if !Truthy(password) then BadRequest(PasswordRequired)
    else if password != Some(Str(adminPassword)) then Unauthorized(InvalidPassword)
    else TokenIssued(AdminClaims)
  }

  /** The token of an `Authorization` header of the form `Bearer <token>`:
      split on single spaces, exactly two pieces, the first literally `Bearer`. */
  function ParseBearer(header: string): (r: Option<string>)
    ensures r.Some? ==> header == "Bearer " + r.value && ' ' !in r.value
  {
    var parts := Split(header, ' ');
    if |parts| != 2 || parts[0] != "Bearer" then None
    else
      JoinSplit(header, ' ');
      assert Join(parts, ' ') == "Bearer" + [' '] + Join(parts[1..], ' ');
      assert parts[1..] == [parts[1]];
      Some(parts[1])
  }

  /** The header is accepted with token `t` exactly when it is `"Bearer " + t`
      and `t` holds no space. */
  lemma {:induction false} BearerShape(header: string, t: string)
    ensures ParseBearer(header) == Some(t) <==> header == "Bearer " + t && ' ' !in t
  {
    if header == "Bearer " + t && ' ' !in t {
      assert header == "Bearer" + [' '] + t;
      SplitAround("Bearer", t, ' ');
      SplitNoSep(t, ' ');
    }
  }

  /** A header that does not start with `Bearer ` followed by a space-free
      rest is refused by the parser. */
  lemma NotBearer(header: string)
    requires |header| < 7 || header[..7] != "Bearer " || ' ' in header[7..]
    ensures ParseBearer(header) == None
  {
    if ParseBearer(header).Some? {
      var t := ParseBearer(header).value;
      BearerShape(header, t);
    }
  }

  /** Express middleware guarding admin routes. */
  function AuthMiddleware(header: Option<string>, verify: string -> bool): (r: AuthOutcome)
    ensures r.CallNext? || r.Unauthorized?
    ensures (header == None || header == Some("")) ==> r == Unauthorized(MissingHeader)
    ensures r.CallNext? <==>
      header.Some? && ParseBearer(header.value).Some? && verify(ParseBearer(header.value).value)
  {
    match header
    case None => Unauthorized(MissingHeader)
    case Some(h) =>
      if h == "" then Unauthorized(MissingHeader)
      else match ParseBearer(h)
        case None => Unauthorized(InvalidFormat)
        case Some(token) => if verify(token) then CallNext else Unauthorized(TokenRejected)
  }

  /** A well-formed header passes exactly when its token verifies, and that
      token is the only one verification is asked about. */
  lemma WellFormedHeader(t: string, verify: string -> bool)
    requires ' ' !in t
    ensures AuthMiddleware(Some("Bearer " + t), verify)
      == if verify(t) then CallNext else Unauthorized(TokenRejected)
  {
    BearerShape("Bearer " + t, t);
  }

  /** A present header that is not of the form `Bearer <token>` is refused
      before any verification, whatever the verifier would say. */
  lemma MalformedHeader(h: string, verify: string -> bool)
    requires h != ""
    requires forall t :: h == "Bearer " + t ==> ' ' in t
    ensures AuthMiddleware(Some(h), verify) == Unauthorized(InvalidFormat)
  {
  }

  /** `Basic abc` and `Bearertoken` lack the `Bearer ` scheme and are refused
      unverified. */
  lemma RejectedScheme(verify: string -> bool)
    ensures AuthMiddleware(Some("Basic abc"), verify) == Unauthorized(InvalidFormat)
    ensures AuthMiddleware(Some("Bearertoken"), verify) == Unauthorized(InvalidFormat)
  {
    var basic, glued := "Basic abc", "Bearertoken";
    assert ParseBearer(basic) == None by {
      assert basic[..7][1] == 'a';
      NotBearer(basic);
    }
    assert ParseBearer(glued) == None by {
      assert glued[..7][6] == 't';
      NotBearer(glued);
    }
  }

  /** `Bearer  t` and `Bearer a b` split into three pieces and are refused
      unverified. */
  lemma RejectedSpacing(verify: string -> bool)
    ensures AuthMiddleware(Some("Bearer  t"), verify) == Unauthorized(InvalidFormat)
    ensures AuthMiddleware(Some("Bearer a b"), verify) == Unauthorized(InvalidFormat)
  {
    var doubled, three := "Bearer  t", "Bearer a b";
    assert doubled[7..][0] == ' ';
    NotBearer(doubled);
    assert three[7..][1] == ' ';
    NotBearer(three);
  }
}
