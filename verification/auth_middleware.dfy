/** The `auth` middleware (backend/middleware/auth.js): reads a bearer token from
    the Authorization header, verifies it, and loads the user it names. Token
    verification is a parameter: it maps a token to the user id it was signed
    for, or to nothing when the token is malformed, forged or expired. */
module AuthMiddleware {
  import opened Wrappers
  import opened Records
  import opened Text

  const Prefix: string := "Bearer "

  /** `header.split(' ')[1]` for a header that starts with "Bearer ": the run of
      non-space characters right after the prefix, ending at the next space or at
      the end of the header. */
  function BearerToken(header: string): (token: string)
    requires StartsWith(header, Prefix)
    ensures |Prefix| + |token| <= |header|
    ensures header[..|Prefix| + |token|] == Prefix + token
    ensures ' ' !in token
    ensures |Prefix| + |token| == |header| || header[|Prefix| + |token|] == ' '
  {
    var t := header[|Prefix|..];
    assert header == "Bearer" + [' '] + t by {
      assert header[..|Prefix|] == Prefix;
    }
    SplitAfterPiece("Bearer", ' ', t);
    SplitFirst(t, ' ');
    Split(t, ' ')[0]
  }

  /** The token sent in "Bearer " + token is read back unchanged. */
  lemma BearerTokenRoundTrip(token: string, rest: string)
    requires ' ' !in token
    requires rest == "" || rest[0] == ' '
    ensures StartsWith(Prefix + token + rest, Prefix)
    ensures BearerToken(Prefix + token + rest) == token
  {
    var h := Prefix + token + rest;
    assert h[..|Prefix|] == Prefix;
    var r := BearerToken(h);
    assert r == h[|Prefix|..|Prefix| + |r|];
    assert token == h[|Prefix|..|Prefix| + |token|];
  }

  /** What the middleware does with a request. */
  datatype Outcome =
    | Accept(user: User)   // `req.user` is set and `next()` runs
    | Reject(error: string) // 401 with this message

  /** The decision of `auth`. A missing or empty header, or one without the
      "Bearer " prefix, is rejected before any token work; a token that does not
      verify is rejected as invalid; a verified id with no user is rejected as
      unknown. The accepted user is loaded without its password hash. */
  function Authenticate(db: Db, header: Option<string>, verify: string -> Option<Id>): (r: Outcome)
    ensures !Truthy(header) ==> r == Reject("Missing Authorization header")
    ensures Truthy(header) && !StartsWith(header.value, Prefix) ==> r == Reject("Missing Authorization header")
    ensures r.Accept? <==>
              && header.Some? && StartsWith(header.value, Prefix)
              && verify(BearerToken(header.value)).Some?
              && FindUser(db.users, verify(BearerToken(header.value)).value).Some?
    ensures r.Accept? ==>
              exists k :: 0 <= k < |db.users| && db.users[k].id == verify(BearerToken(header.value)).value
                && r.user == db.users[k].(passwordHash := "")
    ensures r.Reject? ==> r.error in {"Missing Authorization header", "Invalid token", "User not found"}
  {
    if !Truthy(header) || !StartsWith(header.value, Prefix) then Reject("Missing Authorization header")
    else
      match verify(BearerToken(header.value))
      case None => Reject("Invalid token")
      case Some(id) =>
        match FindUser(db.users, id)
        case None => Reject("User not found")
        case Some(u) => Accept(u.(passwordHash := ""))
  }

  /** A request carrying the bearer token of an existing user gets through as that user. */
  lemma SignedTokenAccepted(db: Db, token: string, verify: string -> Option<Id>, k: nat)
    requires ' ' !in token
    requires k < |db.users|
    requires verify(token) == Some(db.users[k].id)
    requires forall i :: 0 <= i < |db.users| && db.users[i].id == db.users[k].id ==> i == k
    ensures Authenticate(db, Some(Prefix + token), verify) == Accept(db.users[k].(passwordHash := ""))
  {
    BearerTokenRoundTrip(token, "");
    assert Prefix + token + "" == Prefix + token;
  }
}
