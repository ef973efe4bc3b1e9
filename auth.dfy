/**
 * The authentication and authorization middleware. `authenticateToken`
 * takes the second space-separated field of the `Authorization` header as
 * an access token, verifies it and loads the user it names; the role
 * checks then compare that stored user's role with a fixed list.
 */
module Auth {
  import opened Common
  import opened Users
  import opened Tokens
  import opened Http

  const TokenRequired: string := "Token d'accès requis"
  const UserNotFound: string := "Utilisateur non trouvé"
  const TokenRejected: string := "Token invalide ou expiré"
  const AuthenticationRequired: string := "Authentification requise"
  const AccessDenied: string := "Accès refusé. Permissions insuffisantes."

  /* ---------- The Authorization header ---------- */

  /** JavaScript's `s.split(' ')`: every single space separates two fields, so fields may be empty. */
  function Fields(s: string): (r: seq<string>)
    ensures |r| >= 1
    decreases |s|
  {
    if s == [] then [""]
    else if s[0] == ' ' then [""] + Fields(s[1..])
    else
      var rest := Fields(s[1..]);
      [[s[0]] + rest[0]] + rest[1..]
  }

  /** `fields.join(' ')`. */
  function JoinSpaces(fields: seq<string>): string
    requires |fields| >= 1
    decreases |fields|
  {
    if |fields| == 1 then fields[0] else fields[0] + " " + JoinSpaces(fields[1..])
  }

  /** Joining the fields back with single spaces gives the header again. */
  lemma {:induction false} JoinFields(s: string)
    ensures JoinSpaces(Fields(s)) == s
    decreases |s|
  {
    if s == [] {
    } else if s[0] == ' ' {
      JoinFields(s[1..]);
      assert s == " " + s[1..];
    } else {
      JoinFields(s[1..]);
      var rest := Fields(s[1..]);
      if |rest| > 1 {
        assert JoinSpaces(rest) == rest[0] + " " + JoinSpaces(rest[1..]);
        assert [[s[0]] + rest[0]] + rest[1..] == Fields(s);
        assert JoinSpaces(Fields(s)) == [s[0]] + rest[0] + " " + JoinSpaces(rest[1..]);
      }
      assert s == [s[0]] + s[1..];
    }
  }

  /** No field contains a space. */
  lemma {:induction false} FieldsSpaceFree(s: string)
    ensures forall i :: 0 <= i < |Fields(s)| ==> ' ' !in Fields(s)[i]
    decreases |s|
  {
    if s != [] {
      FieldsSpaceFree(s[1..]);
    }
  }

  /** A word without spaces is a single field. */
  lemma {:induction false} FieldsOfWord(w: string)
    requires ' ' !in w
    ensures Fields(w) == [w]
    decreases |w|
  {
    if w != [] {
      FieldsOfWord(w[1..]);
      assert w == [w[0]] + w[1..];
    }
  }

  /** A word followed by a space is the first field, and the rest splits on its own. */
  lemma {:induction false} FieldsOfWordThen(w: string, rest: string)
    requires ' ' !in w
    ensures Fields(w + " " + rest) == [w] + Fields(rest)
    decreases |w|
  {
    var s := w + " " + rest;
    if w == [] {
      assert s[1..] == rest;
    } else {
      assert s[1..] == w[1..] + " " + rest;
      FieldsOfWordThen(w[1..], rest);
      assert w == [w[0]] + w[1..];
    }
  }

  /** Splitting words joined with single spaces gives the words back. */
  lemma {:induction false} FieldsOfJoin(words: seq<string>)
    requires |words| >= 1
    requires forall i :: 0 <= i < |words| ==> ' ' !in words[i]
    ensures Fields(JoinSpaces(words)) == words
    decreases |words|
  {
    if |words| == 1 {
      FieldsOfWord(words[0]);
    } else {
      FieldsOfJoin(words[1..]);
      FieldsOfWordThen(words[0], JoinSpaces(words[1..]));
    }
  }

  /**
   * `authHeader && authHeader.split(' ')[1]`, kept only when truthy: the
   * second field whatever the first one says, and nothing for an absent or
   * empty header, a header without a space, or an empty second field.
   */
  function BearerToken(header: Option<string>): (t: Option<string>)
    ensures t.Some? ==> header.Some? && t.value != "" && ' ' !in t.value
    ensures t.Some? <==> header.Some? && |Fields(header.value)| >= 2 && Fields(header.value)[1] != ""
  {
    if header.None? then None
    else
      var fields := Fields(header.value);
      FieldsSpaceFree(header.value);
      if |fields| >= 2 && fields[1] != "" then Some(fields[1]) else None
  }

  /** Any scheme word is accepted in front of the token, and anything after the token is ignored. */
  lemma SchemeIgnored(scheme: string, token: string, trailer: Option<string>)
    requires ' ' !in scheme && ' ' !in token && token != ""
    ensures trailer.None? ==> BearerToken(Some(scheme + " " + token)) == Some(token)
    ensures trailer.Some? ==> BearerToken(Some(scheme + " " + token + " " + trailer.value)) == Some(token)
  {
    if trailer.None? {
      FieldsOfWordThen(scheme, token);
      FieldsOfWord(token);
    } else {
      assert scheme + " " + token + " " + trailer.value == scheme + " " + (token + " " + trailer.value);
      FieldsOfWordThen(scheme, token + " " + trailer.value);
      FieldsOfWordThen(token, trailer.value);
    }
  }

  /** A header with no space in it carries no token, `Bearer` alone included. */
  lemma NoSpaceNoToken(header: string)
    requires ' ' !in header
    ensures BearerToken(Some(header)) == None
  {
    FieldsOfWord(header);
  }

  /** Two spaces after the scheme make the second field empty: no token. */
  lemma DoubleSpaceNoToken(scheme: string, rest: string)
    requires ' ' !in scheme
    ensures BearerToken(Some(scheme + "  " + rest)) == None
  {
    assert scheme + "  " + rest == scheme + " " + (" " + rest);
    FieldsOfWordThen(scheme, " " + rest);
    FieldsOfWordThen("", rest);
  }

  /* ---------- authenticateToken ---------- */

  /** How `authenticateToken` ends: `next()` with `req.user` set, or a response. */
  datatype Authentication = Authenticated(user: Profile) | Rejected(response: Response)

  /**
   * What `authenticateToken` decides for a header, given the store's rows
   * and whether the store is reachable. A failed lookup is caught by the
   * same handler as a bad token.
   */
  function Authenticate(header: Option<string>, env: Env, rows: map<int, Row>, outage: Option<Fault>): (a: Authentication)
    ensures a.Rejected? ==>
      a.response in {Response(401, Message(TokenRequired)), Response(401, Message(UserNotFound)),
                     Response(403, Message(TokenRejected))}
    ensures a.Authenticated? ==>
      && outage.None? && a.user.id in rows && a.user == ProfileOf(a.user.id, rows[a.user.id])
      && BearerToken(header).Some?
      && var claims := VerifyAccessToken(env.secrets, env.decode(BearerToken(header).value), env.now);
         claims.Ok? && claims.value.id == a.user.id
    ensures a == Rejected(Response(401, Message(TokenRequired))) <==> BearerToken(header).None?
    ensures a == Rejected(Response(401, Message(UserNotFound))) <==>
      && BearerToken(header).Some?
      && var claims := VerifyAccessToken(env.secrets, env.decode(BearerToken(header).value), env.now);
         claims.Ok? && outage.None? && claims.value.id !in rows
    ensures a.Authenticated? <==>
      && BearerToken(header).Some?
      && var claims := VerifyAccessToken(env.secrets, env.decode(BearerToken(header).value), env.now);
         claims.Ok? && outage.None? && claims.value.id in rows
  {
    match BearerToken(header)
    case None => Rejected(Response(401, Message(TokenRequired)))
    case Some(token) =>
      match VerifyAccessToken(env.secrets, env.decode(token), env.now)
      case Err(_) => Rejected(Response(403, Message(TokenRejected)))
      case Ok(claims) =>
        if outage.Some? then Rejected(Response(403, Message(TokenRejected)))
        else if claims.id in rows then Authenticated(ProfileOf(claims.id, rows[claims.id]))
        else Rejected(Response(401, Message(UserNotFound)))
  }

  /**
   * The 403 answer means exactly: a token was sent, and it did not verify
   * or the user could not be looked up.
   */
  lemma ForbiddenMeansBadToken(header: Option<string>, env: Env, rows: map<int, Row>, outage: Option<Fault>)
    ensures Authenticate(header, env, rows, outage) == Rejected(Response(403, Message(TokenRejected))) <==>
      BearerToken(header).Some? &&
      (VerifyAccessToken(env.secrets, env.decode(BearerToken(header).value), env.now).Err? || outage.Some?)
  {
  }

  /**
   * Which claims the token carries besides `id` does not matter: two tokens
   * naming the same id authenticate the same stored user, so `req.user.role`
   * is the stored role and never the role claimed in the token.
   */
  lemma ClaimsBesideIdIgnored(h1: Option<string>, h2: Option<string>, env: Env, rows: map<int, Row>, outage: Option<Fault>)
    requires BearerToken(h1).Some? && BearerToken(h2).Some?
    requires VerifyAccessToken(env.secrets, env.decode(BearerToken(h1).value), env.now).Ok?
    requires VerifyAccessToken(env.secrets, env.decode(BearerToken(h2).value), env.now).Ok?
    requires VerifyAccessToken(env.secrets, env.decode(BearerToken(h1).value), env.now).value.id ==
             VerifyAccessToken(env.secrets, env.decode(BearerToken(h2).value), env.now).value.id
    ensures Authenticate(h1, env, rows, outage) == Authenticate(h2, env, rows, outage)
  {
  }

  /**
   * A token issued by the service less than 15 minutes ago, sent as
   * `<scheme> <token>`, authenticates the user with that id as the store
   * holds it now; the role claimed when it was issued plays no part.
   */
  lemma IssuedTokenAuthenticates(scheme: string, word: string, id: int, email: string, claimed: Role,
                                 issued: int, env: Env, rows: map<int, Row>)
    requires ' ' !in scheme && ' ' !in word && word != ""
    requires env.decode(word) == Some(GenerateAccessToken(id, email, claimed, env.secrets, issued))
    requires env.now < issued + AccessLifetime
    requires id in rows
    ensures Authenticate(Some(scheme + " " + word), env, rows, None) == Authenticated(ProfileOf(id, rows[id]))
  {
    SchemeIgnored(scheme, word, None);
  }

  /** Once 15 minutes have passed, the same token gets 403. */
  lemma ExpiredTokenForbidden(scheme: string, word: string, id: int, email: string, claimed: Role,
                              issued: int, env: Env, rows: map<int, Row>, outage: Option<Fault>)
    requires ' ' !in scheme && ' ' !in word && word != ""
    requires env.decode(word) == Some(GenerateAccessToken(id, email, claimed, env.secrets, issued))
    requires env.now >= issued + AccessLifetime
    ensures Authenticate(Some(scheme + " " + word), env, rows, outage) == Rejected(Response(403, Message(TokenRejected)))
  {
    SchemeIgnored(scheme, word, None);
  }

  /** A valid token for a user deleted since gets 401. */
  lemma DeletedUserUnauthorized(scheme: string, word: string, id: int, email: string, claimed: Role,
                                issued: int, env: Env, rows: map<int, Row>)
    requires ' ' !in scheme && ' ' !in word && word != ""
    requires env.decode(word) == Some(GenerateAccessToken(id, email, claimed, env.secrets, issued))
    requires env.now < issued + AccessLifetime
    requires id !in rows
    ensures Authenticate(Some(scheme + " " + word), env, rows, None) == Rejected(Response(401, Message(UserNotFound)))
  {
    SchemeIgnored(scheme, word, None);
  }

  /** `authenticateToken`: answers as `Authenticate` decides, or sets `req.user` and calls `next()`. */
  method AuthenticateToken(req: Request, table: UserTable, env: Env) returns (step: Step)
    modifies req
    ensures match Authenticate(req.authorization, env, table.rows, table.outage)
      case Authenticated(user) => step == Continue && req.user == Some(user)
      case Rejected(response) => step == Respond(response) && req.user == old(req.user)
  {
    var token := BearerToken(req.authorization);
    if token.None? {
      return Respond(Response(401, Message(TokenRequired)));
    }
    var decoded := VerifyAccessToken(env.secrets, env.decode(token.value), env.now);
    if decoded.Err? {
      return Respond(Response(403, Message(TokenRejected)));
    }
    var found := table.FindById(decoded.value.id);
    match found {
      case Err(_) =>
        step := Respond(Response(403, Message(TokenRejected)));
      case Ok(None) =>
        step := Respond(Response(401, Message(UserNotFound)));
      case Ok(Some(user)) =>
        req.user := Some(user);
        step := Continue;
    }
  }

  /* ---------- authorizeRole ---------- */

  /**
   * `authorizeRole(roles)` applied to `req.user`: 401 without a user, 403
   * when the user's role is not listed, `next()` otherwise.
   */
  function AuthorizeRole(roles: seq<Role>, user: Option<Profile>): (s: Step)
    ensures s.Continue? <==> user.Some? && user.value.role in roles
    ensures !s.Raise?
    ensures s.Respond? ==> s.response.status == (if user.None? then 401 else 403)
    ensures s.Respond? ==> s.response.payload == Message(if user.None? then AuthenticationRequired else AccessDenied)
  {
    if user.None? then Respond(Response(401, Message(AuthenticationRequired)))
    else if user.value.role !in roles then Respond(Response(403, Message(AccessDenied)))
    else Continue
  }

  const AdminOnly: seq<Role> := [Admin]
  const AnyRole: seq<Role> := [Admin, User]

  /** `requireAdmin`. */
  function RequireAdmin(user: Option<Profile>): (s: Step)
    ensures s.Continue? <==> user.Some? && user.value.role == Admin
  {
    AuthorizeRole(AdminOnly, user)
  }

  /** `requireAuth`: lists every role, so it only asks that a user be present. */
  function RequireAuth(user: Option<Profile>): (s: Step)
    ensures s.Continue? <==> user.Some?
  {
    assert user.Some? ==> user.value.role == AnyRole[0] || user.value.role == AnyRole[1];
    AuthorizeRole(AnyRole, user)
  }

  /** The refusal does not name the roles required: every role list refuses with the same response. */
  lemma DenialHidesRoles(roles1: seq<Role>, roles2: seq<Role>, user: Profile)
    requires user.role !in roles1 && user.role !in roles2
    ensures AuthorizeRole(roles1, Some(user)) == AuthorizeRole(roles2, Some(user))
  {
  }
}
