// Bearer-token handling of lib/auth.ts. The Authorization header is an
// optional string (absent when the request has none).

module Auth {
  import opened Opt
  import opened Strings

  const BearerPrefix: string := "Bearer "

  /** The token after the 'Bearer ' prefix (the request-header form of
      section 2.1 of RFC 6750), when the header has that prefix. */
  function Token(header: Option<string>): (r: Option<string>)
    ensures r.Some? <==> header.Some? && StartsWith(header.value, BearerPrefix)
    ensures r.Some? ==> header.value == BearerPrefix + r.value
  {
    if header.Some? && StartsWith(header.value, BearerPrefix) then
      Some(header.value[|BearerPrefix|..])
    else None
  }

  /** `isAuthenticated`: any non-empty bearer token is accepted. */
  predicate IsAuthenticated(header: Option<string>)
  {
    var t := Token(header);
    t.Some? && |t.value| > 0
  }

  /** `getUserId`: `None` when there is no bearer header, otherwise the first
      eight characters of the token (the whole token when shorter). */
  function UserId(header: Option<string>): (r: Option<string>)
    ensures r.None? <==> header.None? || !StartsWith(header.value, BearerPrefix)
    ensures r.Some? ==> StartsWith(Token(header).value, r.value)
    ensures r.Some? ==> |r.value| == if |Token(header).value| < 8 then |Token(header).value| else 8
  {
    match Token(header)
    case None => None
    case Some(t) => Some(if |t| < 8 then t else t[..8])
  }

  /** The header is accepted exactly when it is 'Bearer ' followed by some
      token, and then the user id is a non-empty prefix of that token. */
  lemma AuthenticatedIff(header: Option<string>)
    ensures IsAuthenticated(header) <==> exists t :: |t| > 0 && header == Some(BearerPrefix + t)
    ensures IsAuthenticated(header) <==> UserId(header).Some? && UserId(header).value != ""
  {
    if IsAuthenticated(header) {
      var t := Token(header).value;
      assert header == Some(BearerPrefix + t);
    }
    if exists t :: |t| > 0 && header == Some(BearerPrefix + t) {
      var t :| |t| > 0 && header == Some(BearerPrefix + t);
      assert StartsWith(header.value, BearerPrefix);
      assert header.value[|BearerPrefix|..] == t;
    }
  }

  /** The token content is never inspected: every non-empty token is
      accepted. */
  lemma TokenAccepted(t: string)
    requires |t| > 0
    ensures IsAuthenticated(Some(BearerPrefix + t))
  {
    BearerSplit(t);
  }

  /** Two tokens that agree on their first eight characters give the same
      user id, namely those eight characters. */
  lemma SameUserIdFromPrefix(t: string, u: string)
    requires |t| >= 8 && |u| >= 8 && t[..8] == u[..8]
    ensures UserId(Some(BearerPrefix + t)) == UserId(Some(BearerPrefix + u)) == Some(t[..8])
  {
    BearerSplit(t);
    BearerSplit(u);
  }

  lemma BearerSplit(t: string)
    ensures Token(Some(BearerPrefix + t)) == Some(t)
  {
    assert (BearerPrefix + t)[..|BearerPrefix|] == BearerPrefix;
    assert (BearerPrefix + t)[|BearerPrefix|..] == t;
  }
}
