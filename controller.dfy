/**
 * The user controller: registration, update, login, token refresh,
 * listing, lookup and deletion. Each handler either answers or passes the
 * error its store call rejected with to `next(error)` (a `Raise` step).
 * Handlers are reached only through the validation middleware of their
 * route, so they take the request body already read into typed fields;
 * the readers below say how, and that they succeed on every validated body.
 */
module UserController {
  import opened Common
  import opened Users
  import opened Tokens
  import opened Http
  import opened Validation
  import Auth
  import ErrorHandling

  const EmailExists: string := "Un utilisateur avec cet email existe déjà"
  const UserCreated: string := "Utilisateur créé avec succès"
  const EmailInUse: string := "Cet email est déjà utilisé par un autre utilisateur"
  const UserUpdated: string := "Utilisateur mis à jour avec succès"
  const BadCredentials: string := "Email ou mot de passe incorrect"
  const LoginSucceeded: string := "Connexion réussie"
  const RefreshTokenRequired: string := "Token de rafraîchissement requis"
  const TokensRefreshed: string := "Tokens rafraîchis avec succès"

  /** What `verifyRefreshToken` throws: a plain `Error`, so it has no `code`. */
  const RefreshFailure: Fault := Fault(None, InvalidRefreshToken.Message())

  /* ---------- Reading the body ---------- */

  datatype NewUser = NewUser(name: string, email: string, password: string, role: Option<Role>)
  datatype Changes = Changes(name: Option<string>, email: Option<string>, password: Option<string>, role: Option<Role>)
  datatype Credentials = Credentials(email: string, password: string)

  /** The string under `key`, if there is one. */
  function TextOf(body: Body, key: string): (t: Option<string>)
    ensures t.Some? ==> Lookup(body, key) == Some(JString(t.value))
    ensures t.None? ==> Lookup(body, key).None? || !Lookup(body, key).value.JString?
  {
    match Lookup(body, key)
    case Some(JString(text)) => Some(text)
    case _ => None
  }

  /** The role named under `role`, if it names one. */
  function RoleOf(body: Body): (r: Option<Role>)
    ensures r.Some? ==> TextOf(body, "role") == Some(r.value.Name())
  {
    match TextOf(body, "role")
    case Some(text) => RoleNamed(text)
    case None => None
  }

  /** `const { name, email, password, role } = req.body` in `createUser`. */
  function NewUserOf(body: Body): Option<NewUser> {
    match (TextOf(body, "name"), TextOf(body, "email"), TextOf(body, "password"))
    case (Some(name), Some(email), Some(password)) => Some(NewUser(name, email, password, RoleOf(body)))
    case _ => None
  }

  /** The same destructuring in `updateUser`, where every field may be missing. */
  function ChangesOf(body: Body): Changes {
    Changes(TextOf(body, "name"), TextOf(body, "email"), TextOf(body, "password"), RoleOf(body))
  }

  function CredentialsOf(body: Body): Option<Credentials> {
    match (TextOf(body, "email"), TextOf(body, "password"))
    case (Some(email), Some(password)) => Some(Credentials(email, password))
    case _ => None
  }

  function RefreshTokenOf(body: Body): Option<string> {
    TextOf(body, "refreshToken")
  }

  /** A value that passed a text rule or a role rule is a string, and a role rule's string names a role. */
  lemma TextFieldRead(schema: Schema, body: Body, isEmail: string -> bool, f: Field)
    requires Check(schema, body, isEmail).None? && f in schema
    requires f.kind.Text? || f.kind.OneOf?
    ensures Lookup(body, f.key).Some? ==> TextOf(body, f.key).Some?
    ensures Lookup(body, f.key).Some? && f.kind.Text? ==> TextOf(body, f.key).value != ""
    ensures f.required ==> Lookup(body, f.key).Some?
  {
    PassedFieldConforms(schema, body, isEmail, f);
  }

  lemma RoleRead(schema: Schema, body: Body, isEmail: string -> bool)
    requires Check(schema, body, isEmail).None?
    requires Field("role", OneOf(RoleChoices), false) in schema
    ensures Lookup(body, "role").Some? <==> RoleOf(body).Some?
  {
    var f := Field("role", OneOf(RoleChoices), false);
    PassedFieldConforms(schema, body, isEmail, f);
    if Lookup(body, "role").Some? {
      assert TextOf(body, "role") == Some(Lookup(body, "role").value.text);
      assert RoleNamed("admin") == Some(Admin) && RoleNamed("user") == Some(User);
    }
  }

  /** A body that passed the registration schema has all three fields, and a role exactly when it sent one. */
  lemma NewUserRead(body: Body, isEmail: string -> bool)
    requires Check(CreateUserSchema, body, isEmail).None?
    ensures NewUserOf(body).Some?
    ensures NewUserOf(body).value.role.Some? <==> Lookup(body, "role").Some?
  {
    TextFieldRead(CreateUserSchema, body, isEmail, CreateUserSchema[0]);
    TextFieldRead(CreateUserSchema, body, isEmail, CreateUserSchema[1]);
    TextFieldRead(CreateUserSchema, body, isEmail, CreateUserSchema[2]);
    RoleRead(CreateUserSchema, body, isEmail);
  }

  /** A body that passed the update schema reads each field it sent, and never an empty email. */
  lemma ChangesRead(body: Body, isEmail: string -> bool)
    requires Check(UpdateUserSchema, body, isEmail).None?
    ensures ChangesOf(body).name.Some? <==> Lookup(body, "name").Some?
    ensures ChangesOf(body).email.Some? <==> Lookup(body, "email").Some?
    ensures ChangesOf(body).password.Some? <==> Lookup(body, "password").Some?
    ensures ChangesOf(body).role.Some? <==> Lookup(body, "role").Some?
    ensures ChangesOf(body).email != Some("")
  {
    TextFieldRead(UpdateUserSchema, body, isEmail, UpdateUserSchema[0]);
    TextFieldRead(UpdateUserSchema, body, isEmail, UpdateUserSchema[1]);
    TextFieldRead(UpdateUserSchema, body, isEmail, UpdateUserSchema[2]);
    RoleRead(UpdateUserSchema, body, isEmail);
  }

  lemma CredentialsRead(body: Body, isEmail: string -> bool)
    requires Check(LoginSchema, body, isEmail).None?
    ensures CredentialsOf(body).Some?
  {
    TextFieldRead(LoginSchema, body, isEmail, LoginSchema[0]);
    TextFieldRead(LoginSchema, body, isEmail, LoginSchema[1]);
  }

  /** After validation the refresh token is a non-empty string, so the handler's own 400 answer is never reached. */
  lemma RefreshTokenRead(body: Body, isEmail: string -> bool)
    requires Check(RefreshTokenSchema, body, isEmail).None?
    ensures Truthy(RefreshTokenOf(body))
  {
    TextFieldRead(RefreshTokenSchema, body, isEmail, RefreshTokenSchema[0]);
  }

  /* ---------- Handlers ---------- */

  /**
   * `createUser`: 409 when the email is taken, otherwise a new row with the
   * next id, the hashed password and the role defaulting to `user`, and 201.
   */
  method CreateUser(table: UserTable, user: NewUser, env: Env) returns (s: Step)
    requires table.Valid()
    modifies table
    ensures table.Valid() && table.outage == old(table.outage)
    ensures table.nextId == old(table.nextId) +
      (if old(table.outage).None? && !EmailTaken(old(table.rows), user.email) then 1 else 0)
    ensures EmailsUnique(old(table.rows)) ==> EmailsUnique(table.rows)
    ensures old(table.outage).Some? ==> s == Raise(old(table.outage).value) && table.rows == old(table.rows)
    ensures old(table.outage).None? && EmailTaken(old(table.rows), user.email) ==>
      s == Respond(Response(409, Message(EmailExists))) && table.rows == old(table.rows)
    ensures old(table.outage).None? && !EmailTaken(old(table.rows), user.email) ==>
      var id := old(table.nextId);
      var role := user.role.GetOr(User);
      && id !in old(table.rows)
      && table.rows == old(table.rows)[id := Row(user.name, user.email, Hash(user.password, env.salt), role)]
      && s == Respond(Response(201, WithUser(UserCreated, Profile(id, user.name, user.email, role))))
  {
    var existing := table.FindByEmail(user.email);
    match existing {
      case Err(fault) =>
        return Raise(fault);
      case Ok(Some(_)) =>
        return Respond(Response(409, Message(EmailExists)));
      case Ok(None) =>
    }
    var created := table.Create(user.name, user.email, user.password, user.role, env.salt);
    match created {
      case Err(fault) =>
        s := Raise(fault);
      case Ok(profile) =>
        s := Respond(Response(201, WithUser(UserCreated, profile)));
    }
  }

  /** The email check of `updateUser`: a new, truthy email that another row already holds. */
  predicate EmailConflict(rows: map<int, Row>, id: int, email: Option<string>)
    requires id in rows
  {
    Truthy(email) && email.value != rows[id].email && EmailTaken(rows, email.value)
  }

  /**
   * `updateUser`: 404 for an unknown id, 409 when the new email belongs to
   * another user, otherwise the model's update. Whoever is authenticated may
   * update any id. A body missing `name`, `email` or `role` reaches the
   * store with an `undefined` value and fails there.
   */
  method UpdateUser(table: UserTable, id: int, changes: Changes, env: Env) returns (s: Step)
    requires table.Valid()
    modifies table
    ensures table.Valid() && table.outage == old(table.outage) && table.nextId == old(table.nextId)
    ensures EmailsUnique(old(table.rows)) && changes.email != Some("") ==> EmailsUnique(table.rows)
    ensures !s.Continue?
    ensures s.Raise? || (s.Respond? && s.response.status != 200) ==> table.rows == old(table.rows)
    ensures old(table.outage).Some? ==> s == Raise(old(table.outage).value)
    ensures old(table.outage).None? && id !in old(table.rows) ==> s == Respond(Response(404, Message(Auth.UserNotFound)))
    ensures old(table.outage).None? && id in old(table.rows) && EmailConflict(old(table.rows), id, changes.email) ==>
      s == Respond(Response(409, Message(EmailInUse)))
    ensures old(table.outage).None? && id in old(table.rows) && !EmailConflict(old(table.rows), id, changes.email) ==>
      if changes.name.None? || changes.email.None? || changes.role.None? then s == Raise(UndefinedBind)
      else
        var digest := if Truthy(changes.password) then Hash(changes.password.value, env.salt) else old(table.rows)[id].digest;
        && table.rows == old(table.rows)[id := Row(changes.name.value, changes.email.value, digest, changes.role.value)]
        && s == Respond(Response(200, WithUser(UserUpdated, Profile(id, changes.name.value, changes.email.value, changes.role.value))))
  {
    var existing := table.FindById(id);
    match existing {
      case Err(fault) =>
        return Raise(fault);
      case Ok(None) =>
        return Respond(Response(404, Message(Auth.UserNotFound)));
      case Ok(Some(current)) =>
        if Truthy(changes.email) && changes.email.value != current.email {
          var holder := table.FindByEmail(changes.email.value);
          match holder {
            case Err(fault) =>
              return Raise(fault);
            case Ok(Some(account)) =>
              if account.id != id {
                return Respond(Response(409, Message(EmailInUse)));
              }
            case Ok(None) =>
          }
        }
    }
    ghost var before := table.rows;
    var updated := table.Update(id, changes.name, changes.email, changes.password, changes.role, env.salt);
    match updated {
      case Err(fault) =>
        s := Raise(fault);
      case Ok(None) =>
        assert false;
      case Ok(Some(profile)) =>
        s := Respond(Response(200, WithUser(UserUpdated, profile)));
    }
    if EmailsUnique(before) && changes.email != Some("") && s.Respond? {
      forall i, j | i in table.rows && j in table.rows && table.rows[i].email == table.rows[j].email
        ensures i == j
      {
        if i != id && j != id {
          assert before[i].email == before[j].email;
        }
      }
    }
  }

  /**
   * `updateUser` as evidently intended: the same checks, but a field the
   * body leaves out keeps its stored value instead of reaching the store as
   * `undefined`. The edit route runs this handler.
   */
  method UpdateUserKeepingAbsent(table: UserTable, id: int, changes: Changes, env: Env) returns (s: Step)
    requires table.Valid()
    modifies table
    ensures table.Valid() && table.outage == old(table.outage) && table.nextId == old(table.nextId)
    ensures EmailsUnique(old(table.rows)) && changes.email != Some("") ==> EmailsUnique(table.rows)
    ensures !s.Continue?
    ensures s.Raise? || (s.Respond? && s.response.status != 200) ==> table.rows == old(table.rows)
    ensures old(table.outage).Some? ==> s == Raise(old(table.outage).value)
    ensures old(table.outage).None? && id !in old(table.rows) ==> s == Respond(Response(404, Message(Auth.UserNotFound)))
    ensures old(table.outage).None? && id in old(table.rows) && EmailConflict(old(table.rows), id, changes.email) ==>
      s == Respond(Response(409, Message(EmailInUse)))
    ensures old(table.outage).None? && id in old(table.rows) && !EmailConflict(old(table.rows), id, changes.email) ==>
      var row := old(table.rows)[id];
      var name := changes.name.GetOr(row.name);
      var email := changes.email.GetOr(row.email);
      var role := changes.role.GetOr(row.role);
      var digest := if Truthy(changes.password) then Hash(changes.password.value, env.salt) else row.digest;
      && table.rows == old(table.rows)[id := Row(name, email, digest, role)]
      && s == Respond(Response(200, WithUser(UserUpdated, Profile(id, name, email, role))))
  {
    var existing := table.FindById(id);
    if existing.Err? {
      return Raise(existing.error);
    }
    if existing.value.None? {
      return Respond(Response(404, Message(Auth.UserNotFound)));
    }
    var current := existing.value.value;
    if Truthy(changes.email) && changes.email.value != current.email {
      var holder := table.FindByEmail(changes.email.value);
      match holder {
        case Err(fault) =>
          return Raise(fault);
        case Ok(Some(account)) =>
          if account.id != id {
            return Respond(Response(409, Message(EmailInUse)));
          }
        case Ok(None) =>
      }
    }
    ghost var before := table.rows;
    var updated := table.Update(id, Some(changes.name.GetOr(current.name)), Some(changes.email.GetOr(current.email)),
                                changes.password, Some(changes.role.GetOr(current.role)), env.salt);
    match updated {
      case Err(_) =>
        assert false;
      case Ok(None) =>
        assert false;
      case Ok(Some(profile)) =>
        s := Respond(Response(200, WithUser(UserUpdated, profile)));
    }
    if EmailsUnique(before) && changes.email != Some("") {
      forall i, j | i in table.rows && j in table.rows && table.rows[i].email == table.rows[j].email
        ensures i == j
      {
        if i != id && j != id {
          assert before[i].email == before[j].email;
        }
      }
    }
  }

  /**
   * The update request of the repository's own test (a new name and email,
   * no role, no password) against the handler as written: the role binds
   * `undefined`, the store refuses, and the error handler answers 500.
   */
  method PartialEditAsWritten(table: UserTable, id: int, name: string, email: string, env: Env) returns (s: Step)
    requires table.Valid() && table.outage.None? && id in table.rows
    requires name != "" && email != "" && !EmailTaken(table.rows, email)
    modifies table
    ensures s == Raise(UndefinedBind) && ErrorHandling.ErrorHandler(s.fault).status == 500
    ensures table.rows == old(table.rows)
  {
    s := UpdateUser(table, id, Changes(Some(name), Some(email), None, None), env);
  }

  /** The same request against the intended handler: 200, with the stored role and password kept. */
  method PartialEditIntended(table: UserTable, id: int, name: string, email: string, env: Env) returns (s: Step)
    requires table.Valid() && table.outage.None? && id in table.rows
    requires name != "" && email != "" && !EmailTaken(table.rows, email)
    modifies table
    ensures s == Respond(Response(200, WithUser(UserUpdated, Profile(id, name, email, old(table.rows)[id].role))))
    ensures table.rows == old(table.rows)[id := Row(name, email, old(table.rows)[id].digest, old(table.rows)[id].role)]
  {
    s := UpdateUserKeepingAbsent(table, id, Changes(Some(name), Some(email), None, None), env);
  }

  /**
   * `login`: the same 401 for an unknown email and for a wrong password;
   * otherwise the user and a fresh token pair issued from the stored row.
   */
  method Login(table: UserTable, creds: Credentials, env: Env) returns (s: Step)
    ensures table.outage.Some? ==> s == Raise(table.outage.value)
    ensures table.outage.None? ==> s.Respond?
    ensures s.Respond? ==> s.response.status == 200 || s.response == Response(401, Message(BadCredentials))
    ensures s.Respond? && s.response.status == 200 ==>
      exists id :: id in table.rows && table.rows[id].email == creds.email
        && VerifyPassword(creds.password, table.rows[id].digest)
        && s.response.payload == LoggedIn(LoginSucceeded, ProfileOf(id, table.rows[id]),
             GenerateTokenPair(id, table.rows[id].email, table.rows[id].role, env.secrets, env.now))
    ensures table.outage.None? && EmailsUnique(table.rows) ==>
      (s.response.status == 200 <==>
         exists id :: id in table.rows && table.rows[id].email == creds.email
           && VerifyPassword(creds.password, table.rows[id].digest))
  {
    var found := table.FindByEmail(creds.email);
    match found {
      case Err(fault) =>
        s := Raise(fault);
      case Ok(None) =>
        s := Respond(Response(401, Message(BadCredentials)));
      case Ok(Some(account)) =>
        if VerifyPassword(creds.password, account.digest) {
          var tokens := GenerateTokenPair(account.id, account.email, account.role, env.secrets, env.now);
          s := Respond(Response(200, LoggedIn(LoginSucceeded, AccountProfile(account), tokens)));
        } else {
          s := Respond(Response(401, Message(BadCredentials)));
        }
    }
  }

  /**
   * `refreshToken`: 400 without a token; a token that does not verify with
   * the refresh secret goes to `next(error)`; 401 when its user is gone;
   * otherwise a new pair issued from the user as stored now.
   */
  method RefreshToken(table: UserTable, token: Option<string>, env: Env) returns (s: Step)
    ensures !Truthy(token) ==> s == Respond(Response(400, Message(RefreshTokenRequired)))
    ensures Truthy(token) ==>
      match VerifyRefreshToken(env.secrets, env.decode(token.value), env.now)
      case Err(_) => s == Raise(RefreshFailure)
      case Ok(claims) =>
        if table.outage.Some? then s == Raise(table.outage.value)
        else if claims.id !in table.rows then s == Respond(Response(401, Message(Auth.UserNotFound)))
        else
          var row := table.rows[claims.id];
          s == Respond(Response(200, Refreshed(TokensRefreshed,
                 GenerateTokenPair(claims.id, row.email, row.role, env.secrets, env.now))))
  {
    if !Truthy(token) {
      return Respond(Response(400, Message(RefreshTokenRequired)));
    }
    var decoded := VerifyRefreshToken(env.secrets, env.decode(token.value), env.now);
    if decoded.Err? {
      return Raise(RefreshFailure);
    }
    var found := table.FindById(decoded.value.id);
    match found {
      case Err(fault) =>
        s := Raise(fault);
      case Ok(None) =>
        s := Respond(Response(401, Message(Auth.UserNotFound)));
      case Ok(Some(user)) =>
        s := Respond(Response(200, Refreshed(TokensRefreshed,
               GenerateTokenPair(user.id, user.email, user.role, env.secrets, env.now))));
    }
  }

  /** `getAllUsers`: every user without password, by ascending id. */
  method GetAllUsers(table: UserTable) returns (s: Step)
    requires table.Valid()
    ensures table.outage.Some? ==> s == Raise(table.outage.value)
    ensures table.outage.None? ==> s.Respond? && s.response.status == 200 && s.response.payload.UserList?
    ensures s.Respond? ==>
      var users := s.response.payload.users;
      && (forall p :: p in users <==> p.id in table.rows && p == ProfileOf(p.id, table.rows[p.id]))
      && (forall i, j :: 0 <= i < j < |users| ==> users[i].id < users[j].id)
  {
    var all := table.FindAll();
    match all {
      case Err(fault) =>
        s := Raise(fault);
      case Ok(users) =>
        s := Respond(Response(200, UserList(users)));
    }
  }

  /** `getUserById`: the user without password, or 404. */
  method GetUserById(table: UserTable, id: int) returns (s: Step)
    ensures table.outage.Some? ==> s == Raise(table.outage.value)
    ensures table.outage.None? && id in table.rows ==> s == Respond(Response(200, Record(ProfileOf(id, table.rows[id]))))
    ensures table.outage.None? && id !in table.rows ==> s == Respond(Response(404, Message(Auth.UserNotFound)))
  {
    var found := table.FindById(id);
    match found {
      case Err(fault) =>
        s := Raise(fault);
      case Ok(None) =>
        s := Respond(Response(404, Message(Auth.UserNotFound)));
      case Ok(Some(user)) =>
        s := Respond(Response(200, Record(user)));
    }
  }

  /** `deleteUser`: 204 with no body when a row was removed, 404 otherwise. */
  method DeleteUser(table: UserTable, id: int) returns (s: Step)
    requires table.Valid()
    modifies table
    ensures table.Valid() && table.outage == old(table.outage) && table.nextId == old(table.nextId)
    ensures EmailsUnique(old(table.rows)) ==> EmailsUnique(table.rows)
    ensures old(table.outage).Some? ==> s == Raise(old(table.outage).value) && table.rows == old(table.rows)
    ensures old(table.outage).None? ==> table.rows == old(table.rows) - {id}
    ensures old(table.outage).None? ==>
      s == Respond(if id in old(table.rows) then Response(204, NoContent) else Response(404, Message(Auth.UserNotFound)))
  {
    var removed := table.Delete(id);
    match removed {
      case Err(fault) =>
        s := Raise(fault);
      case Ok(false) =>
        s := Respond(Response(404, Message(Auth.UserNotFound)));
      case Ok(true) =>
        s := Respond(Response(204, NoContent));
    }
  }

  /* ---------- Scenarios ---------- */

  /**
   * Registering a new email and then logging in with the same password
   * succeeds, and the session is for the new id.
   */
  method RegisterThenLogin(table: UserTable, user: NewUser, env: Env) returns (created: Step, session: Step)
    requires table.Valid() && table.outage.None? && EmailsUnique(table.rows)
    requires !EmailTaken(table.rows, user.email)
    modifies table
    ensures created.Respond? && created.response.status == 201
    ensures session.Respond? && session.response.status == 200
    ensures session.response.payload.LoggedIn? && session.response.payload.user.id == old(table.nextId)
  {
    ghost var id := table.nextId;
    created := CreateUser(table, user, env);
    assert table.rows[id].email == user.email && VerifyPassword(user.password, table.rows[id].digest);
    session := Login(table, Credentials(user.email, user.password), env);
    assert forall k :: k in table.rows && table.rows[k].email == user.email ==> k == id;
  }

  /** A second registration with the same email is refused and changes nothing. */
  method RegisterTwice(table: UserTable, first: NewUser, second: NewUser, env: Env) returns (a: Step, b: Step)
    requires table.Valid() && table.outage.None? && !EmailTaken(table.rows, first.email)
    requires second.email == first.email
    modifies table
    ensures a.Respond? && a.response.status == 201
    ensures b == Respond(Response(409, Message(EmailExists)))
    ensures table.rows == old(table.rows)[old(table.nextId) := Row(first.name, first.email,
              Hash(first.password, env.salt), first.role.GetOr(User))]
  {
    a := CreateUser(table, first, env);
    assert table.rows[old(table.nextId)].email == second.email;
    b := CreateUser(table, second, env);
  }
}
