/**
 * The Auth middleware of internal/middleware/auth.go: the Authorization header
 * must read "Bearer <token>" with exactly one space, the token must pass JWT
 * validation, and its user_id claim must be an ObjectID in hex. Every refusal
 * is a 401 and one more authentication error on the metrics.
 *
 * JWT signature checking is foreign code: it is the parameter parse, which
 * yields the user_id claim of a token that validates and None otherwise.
 */
module AuthMiddleware {
  import opened Wrappers
  import opened Text
  import opened ObjectIds
  import opened RequestContext
  import opened RequestMetrics

  /** jwt.ParseWithClaims with the configured secret, reduced to the user_id claim of a valid token. */
  type TokenParser = string -> Option<string>

  /** The token of a header that splits on " " into exactly "Bearer" and one more part. */
  function BearerToken(header: string): Option<string> {
    var parts := SplitOn(header, ' ');
    if |parts| != 2 || parts[0] != "Bearer" then None else Some(parts[1])
  }

  /**
   * The header shape Auth accepts, stated without splitting: "Bearer ", then
   * a token that holds no space. The token is everything after the prefix.
   */
  lemma BearerShape(header: string)
    ensures BearerToken(header).Some? <==>
      |header| >= 7 && header[..7] == "Bearer " && ' ' !in header[7..]
    ensures BearerToken(header).Some? ==> BearerToken(header).value == header[7..]
  {
    SplitOnTwo(header, ' ');
    var i := IndexOf(header, ' ');
    if |header| >= 7 && header[..7] == "Bearer " {
      assert header[6] == ' ';
      assert forall k | 0 <= k < 6 :: header[k] != ' ';
      assert i == 6;
      assert header[..6] == "Bearer";
    }
    if BearerToken(header).Some? {
      assert header[..i] == "Bearer";
      assert |header[..i]| == 6;
      assert header[..7] == header[..i] + [' '];
    }
  }

  /** "Bearer " followed by a token without spaces yields that token. */
  lemma BearerRoundTrip(token: string)
    requires ' ' !in token
    ensures BearerToken("Bearer " + token) == Some(token)
  {
    var h := "Bearer " + token;
    BearerShape(h);
    assert h[..7] == "Bearer ";
    assert h[7..] == token;
  }

  /** A doubled space after the scheme is refused. */
  lemma DoubleSpaceRefused()
    ensures BearerToken("Bearer  abc") == None
  {
    BearerShape("Bearer  abc");
    assert "Bearer  abc"[7..][0] == ' ';
  }

  /** The scheme is case-sensitive. */
  lemma LowerCaseSchemeRefused()
    ensures BearerToken("bearer abc") == None
  {
    BearerShape("bearer abc");
    assert "bearer abc"[0] != "Bearer "[0];
  }

  /** A token holding a space is refused. */
  lemma SpacedTokenRefused()
    ensures BearerToken("Bearer a b") == None
  {
    BearerShape("Bearer a b");
    assert "Bearer a b"[7..][1] == ' ';
  }

  /** What Auth decides for a header: the authenticated user, or the 401 message. */
  datatype AuthOutcome = Authenticated(userId: ObjectId) | Rejected(message: string)

  function Authenticate(header: string, parse: TokenParser): (r: AuthOutcome)
    ensures header == "" ==> r == Rejected("Authorization header required")
    ensures header != "" && BearerToken(header).None? ==>
      r == Rejected("Invalid authorization format. Use: Bearer <token>")
    ensures BearerToken(header).Some? && parse(BearerToken(header).value).None? ==>
      r == Rejected("Invalid or expired token")
    ensures (&& BearerToken(header).Some?
             && parse(BearerToken(header).value).Some?
             && FromHex(parse(BearerToken(header).value).value).None?) ==>
      r == Rejected("Invalid user ID in token")
    ensures r.Authenticated? <==>
      && BearerToken(header).Some?
      && parse(BearerToken(header).value).Some?
      && FromHex(parse(BearerToken(header).value).value).Some?
    ensures r.Authenticated? ==>
      FromHex(parse(BearerToken(header).value).value) == Some(r.userId) && IsObjectId(r.userId)
  {
    if header == "" then Rejected("Authorization header required")
    else
      var token := BearerToken(header);
      if token.None? then Rejected("Invalid authorization format. Use: Bearer <token>")
      else
        var claim := parse(token.value);
        if claim.None? then Rejected("Invalid or expired token")
        else
          var id := FromHex(claim.value);
          if id.None? then Rejected("Invalid user ID in token")
          else Authenticated(id.value)
  }

  /** A refused header shape never reaches token validation, whatever the validator says. */
  lemma ShapeCheckedFirst(header: string, parse: TokenParser, parse': TokenParser)
    requires BearerToken(header).None?
    ensures Authenticate(header, parse) == Authenticate(header, parse')
  {
  }

  /**
   * Auth: a refusal answers 401 and raises authErrors by exactly one; an
   * accepted request goes on with the user id in its context and no counter
   * changes.
   */
  method Auth(metrics: Metrics, ctx: Context, header: string, parse: TokenParser) returns (g: Gate)
    modifies metrics
    ensures var r := Authenticate(header, parse);
      && (r.Rejected? ==> g == Respond(401, r.message, map[]))
      && (r.Authenticated? ==> g == Next(ctx.(userId := Some(r.userId))))
    ensures metrics.Counts() == if g.Respond? then Bump(old(metrics.Counts()), AuthErrors) else old(metrics.Counts())
    ensures metrics.RequestData() == old(metrics.RequestData())
  {
    var r := Authenticate(header, parse);
    if r.Rejected? {
      metrics.IncAuthError();
      return Respond(401, r.message, map[]);
    }
    return Next(ctx.(userId := Some(r.userId)));
  }
}
