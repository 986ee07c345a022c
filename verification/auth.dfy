/** Request gating for the API routes (shared/utils/auth.ts): the `Authorization`
    header must be `Bearer <token>` and the token must verify; `requireAdmin` also
    demands the administrator role. Signature and expiry checking is the `verify`
    parameter, a function of the token only. */
module Auth {
  import opened Wrappers
  import opened Strings
  import opened Schema

  datatype Attrs = Attrs(role: string)

  /** The claims of a verified token. */
  datatype AuthPayload = AuthPayload(
    sub: UserId, name: string, username: string, email: string,
    attrs: Option<Attrs>, perms: Option<seq<string>>)

  /** `jwt.verify(token, secret)`: the payload, or `None` where it throws. */
  type Verifier = string -> Option<AuthPayload>

  /** Role.ADMINISTRATOR. */
  const AdministratorRole := "administrator"

  /** What requireAuth / requireAdmin return: the payload, or the reply to send back. */
  datatype AuthResult = Authorized(payload: AuthPayload) | Rejected(reply: Reply)

  /** The token of an `Authorization` header: `header.split(' ')` must give `Bearer`
      as its first field and a non-empty second field. */
  function BearerToken(header: string): (r: Option<string>)
    ensures r.Some? ==> BearerForm(header, r.value)
  {
    var fields := SplitOn(header, " ");
    if fields[0] != "Bearer" || |fields| < 2 || fields[1] == "" then None
    else
      SchemeField(header);
      TokenField(header[7..]);
      Some(fields[1])
  }

  /** The bearer form a header must have for `t` to be its token. */
  predicate BearerForm(header: string, t: string) {
    t != "" && ' ' !in t && ("Bearer " + t == header || "Bearer " + t + " " <= header)
  }

  /** A header whose first field is `Bearer` is `Bearer `, then the text the other
      fields come from. */
  lemma SchemeField(header: string)
    requires |SplitOn(header, " ")| >= 2 && SplitOn(header, " ")[0] == "Bearer"
    ensures |header| >= 7 && header == "Bearer " + header[7..]
    ensures SplitOn(header, " ")[1..] == SplitOn(header[7..], " ")
  {
    SplitHeadChar(header, ' ');
  }

  /** The first field of the text after the scheme, if not empty, is a token of the bearer form. */
  lemma TokenField(rest: string)
    requires SplitOn(rest, " ")[0] != ""
    ensures BearerForm("Bearer " + rest, SplitOn(rest, " ")[0])
  {
    var t := SplitOn(rest, " ")[0];
    SplitHeadChar(rest, ' ');
    if t != rest {
      assert rest[..|t| + 1] == t + " ";
      assert ("Bearer " + rest)[..|t| + 8] == "Bearer " + t + " ";
    }
  }

  lemma BearerTokenSound(header: string)
    requires BearerToken(header).Some?
    ensures BearerForm(header, BearerToken(header).value)
  {
    var fields := SplitOn(header, " ");
    SchemeField(header);
    var rest := header[7..];
    assert fields[1] == SplitOn(rest, " ")[0];
    TokenField(rest);
  }

  lemma BearerExact(t: string)
    requires t != "" && ' ' !in t
    ensures BearerToken("Bearer " + t) == Some(t)
  {
    assert ' ' !in "Bearer";
    assert "Bearer " + t == "Bearer" + [' '] + t;
    SplitFirstChar("Bearer", t, ' ');
    SplitNoChar(t, ' ');
    assert SplitOn("Bearer " + t, " ") == ["Bearer", t];
  }

  lemma BearerFollowed(t: string, more: string)
    requires t != "" && ' ' !in t
    ensures BearerToken("Bearer " + t + " " + more) == Some(t)
  {
    assert ' ' !in "Bearer";
    var rest := t + [' '] + more;
    assert "Bearer " + t + " " + more == "Bearer" + [' '] + rest;
    SplitFirstChar("Bearer", rest, ' ');
    SplitFirstChar(t, more, ' ');
    var fields := SplitOn("Bearer " + t + " " + more, " ");
    assert fields == ["Bearer"] + ([t] + SplitOn(more, " "));
    assert fields[0] == "Bearer" && fields[1] == t && |fields| >= 2;
  }

  lemma BearerTokenComplete(header: string, t: string)
    requires BearerForm(header, t)
    ensures BearerToken(header) == Some(t)
  {
    if "Bearer " + t == header {
      BearerExact(t);
    } else {
      var more := header[|t| + 8..];
      assert header == "Bearer " + t + " " + more;
      BearerFollowed(t, more);
    }
  }

  /** The header is accepted exactly when it is `Bearer`, one space, a token without
      spaces, and then nothing or a space; the scheme is case-sensitive. */
  lemma BearerTokenAccepts(header: string, t: string)
    ensures BearerToken(header) == Some(t) <==> BearerForm(header, t)
  {
    if BearerToken(header) == Some(t) {
      BearerTokenSound(header);
    }
    if BearerForm(header, t) {
      BearerTokenComplete(header, t);
    }
  }

  /** Neither a lower-case scheme nor two spaces before the token is accepted. */
  lemma BearerSchemeIsStrict(t: string)
    ensures BearerToken("bearer " + t) == None
    ensures BearerToken("Bearer  " + t) == None
  {
    var lower := "bearer " + t;
    assert lower[0] == 'b';
    assert forall u: string :: ("Bearer " + u)[0] == 'B';
    if BearerToken(lower).Some? {
      BearerTokenSound(lower);
    }
    var doubled := "Bearer  " + t;
    assert doubled[7] == ' ';
    assert forall u: string :: |u| > 0 ==> ("Bearer " + u)[7] == u[0];
    if BearerToken(doubled).Some? {
      BearerTokenSound(doubled);
    }
  }

  /** requireAuth. */
  function RequireAuth(header: Option<string>, verify: Verifier): (r: AuthResult)
    ensures (header == None || header == Some("")) ==> r == Rejected(Failure(401, "Unauthorized"))
    ensures header.Some? && BearerToken(header.value).None? ==> r == Rejected(Failure(401, "Unauthorized"))
    ensures header.Some? && BearerToken(header.value).Some? ==>
      r == match verify(BearerToken(header.value).value)
           case None => Rejected(Failure(401, "Invalid or expired token"))
           case Some(p) => Authorized(p)
    ensures r.Rejected? ==> r.reply.status == 401 && !r.reply.body.response.success
  {
    if header == None || header == Some("") then Rejected(Failure(401, "Unauthorized"))
    else match BearerToken(header.value)
      case None => Rejected(Failure(401, "Unauthorized"))
      case Some(token) =>
        match verify(token)
        case None => Rejected(Failure(401, "Invalid or expired token"))
        case Some(p) => Authorized(p)
  }

  /** isAuthFailed: the result is a reply rather than a payload. */
  predicate IsAuthFailed(r: AuthResult) {
    r.Rejected?
  }

  /** `auth.attrs?.role.toLowerCase() === Role.ADMINISTRATOR`. */
  predicate IsAdministrator(p: AuthPayload) {
    p.attrs.Some? && ToLower(p.attrs.value.role) == AdministratorRole
  }

  /** requireAdmin. */
  function RequireAdmin(header: Option<string>, verify: Verifier): (r: AuthResult)
    ensures IsAuthFailed(RequireAuth(header, verify)) ==> r == RequireAuth(header, verify)
    ensures !IsAuthFailed(r) <==>
      RequireAuth(header, verify).Authorized? && IsAdministrator(RequireAuth(header, verify).payload)
    ensures !IsAuthFailed(r) ==> r == RequireAuth(header, verify)
    ensures RequireAuth(header, verify).Authorized? && !IsAdministrator(RequireAuth(header, verify).payload) ==>
      r == Rejected(Failure(403, "Forbidden: administrator only"))
  {
    var auth := RequireAuth(header, verify);
    if IsAuthFailed(auth) then auth
    else if !IsAdministrator(auth.payload) then Rejected(Failure(403, "Forbidden: administrator only"))
    else auth
  }
}
