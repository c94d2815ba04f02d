/**
 * The authentication handlers (internal/handlers/auth.go): registration with
 * role resolution, login and the profile lookup, over an in-memory users
 * collection. Password hashing, the password check and token issuance are
 * parameters: their implementations are not part of this model.
 */
module AuthHandlers {
  import opened Wrappers
  import opened Times
  import opened ObjectIds
  import opened Collections
  import opened Http
  import opened UserModel

  /**
   * The role a registration gets: the requested one when it names a valid
   * role, "user" when none is requested or the request names anything else.
   */
  function ResolveRole(requested: string): (r: Role)
    ensures r.IsValid()
    ensures Role(requested).IsValid() ==> r == Role(requested)
    ensures !Role(requested).IsValid() ==> r == RoleUser
  {
    if requested != "" then
      var requestedRole := Role(requested);
      if requestedRole.IsValid() then requestedRole else RoleUser
    else
      RoleUser
  }

  /** No requested role and any requested role other than "user" and "admin" give "user". */
  lemma ResolveRoleDefaults(requested: string)
    ensures requested == "" ==> ResolveRole(requested) == RoleUser
    ensures requested != "user" && requested != "admin" ==> ResolveRole(requested) == RoleUser
    ensures requested == "admin" ==> ResolveRole(requested) == RoleAdmin
  {
    RoleValidExactly(Role(requested));
  }

  /** The body of a successful authentication reply. */
  datatype AuthBody =
    | Registered(auth: AuthResponse)
    | LoggedIn(login: LoginResponse)
    | Profile(user: UserResponse)

  /** `FindOne({"email": email})`: the first stored user with that email. */
  function IndexOfEmail(users: seq<User>, email: string): Option<nat> {
    FirstIndex(users, (u: User) => u.email == email)
  }

  /** `FindOne({"_id": id})`. */
  function IndexOfUserId(users: seq<User>, id: ObjectId): Option<nat> {
    FirstIndex(users, (u: User) => u.id == id)
  }

  /** The user registration creates: active, holding the hash, with the resolved role. */
  function NewUser(req: RegisterRequest, id: ObjectId, hashed: string, now: Instant): (u: User)
    ensures u.isActive && u.role.IsValid()
    ensures u.password == hashed && u.email == req.email && u.id == id
    ensures u.firstName == req.firstName && u.lastName == req.lastName
    ensures u.createdAt == now && u.updatedAt == now
  {
    User(id, req.email, hashed, req.firstName, req.lastName, ResolveRole(req.role), true, now, now)
  }

  /**
   * What registration keeps true of the users collection: no two users
   * share an ID (the `_id` index) or an email (the existence check before
   * every insert), and every stored role is valid.
   */
  ghost predicate ValidUsers(users: seq<User>) {
    (forall i, j :: 0 <= i < j < |users| ==> users[i].id != users[j].id && users[i].email != users[j].email)
    && (forall i :: 0 <= i < |users| ==> users[i].role.IsValid())
  }

  /** Appending a user with a new ID, a new email and a valid role keeps the collection valid. */
  lemma AppendKeepsValidUsers(users: seq<User>, u: User)
    requires ValidUsers(users)
    requires IndexOfUserId(users, u.id).None? && IndexOfEmail(users, u.email).None?
    requires u.role.IsValid()
    ensures ValidUsers(users + [u])
  {
    var s := users + [u];
    forall i, j | 0 <= i < j < |s|
      ensures s[i].id != s[j].id && s[i].email != s[j].email
    {
      if j == |users| {
        assert !(users[i].id == u.id);
        assert !(users[i].email == u.email);
      }
    }
  }

  /** In a valid collection, the lookup by email finds the only user with that email. */
  lemma EmailLookupUnique(users: seq<User>, i: nat)
    requires ValidUsers(users) && i < |users|
    ensures IndexOfEmail(users, users[i].email) == Some(i)
  {
  }

  /** The users collection, in insertion order. */
  class UserStore {
    var users: seq<User>

    /** The collection invariant, on the current contents. */
    ghost predicate Valid()
      reads this
    {
      ValidUsers(users)
    }

    constructor()
      ensures users == [] && Valid()
    {
      users := [];
    }

    /**
     * `Register`: a payload that does not decode is answered 400 with the
     * decoder's text; an email already stored 409; a hashing failure 500.
     * Otherwise the new user is inserted (500 if the ID is taken; its times
     * are stored to the millisecond), and a token for its hex ID, email and
     * role is issued: 500 if that fails, the user staying stored, else 201
     * with the token and the user as built. Nothing else writes.
     */
    method Register(body: Result<RegisterRequest, string>, hash: string -> Option<string>,
                    issue: (string, string, string) -> Option<string>, newId: ObjectId, now: Instant)
      returns (reply: Reply<AuthBody>)
      modifies this
      ensures old(Valid()) ==> Valid()
      ensures
        if body.Failure? then reply == Fail(StatusBadRequest, body.error)
        else if IndexOfEmail(old(users), body.value.email).Some? then
          reply == Fail(StatusConflict, "User already exists")
        else if hash(body.value.password).None? then
          reply == Fail(StatusInternalServerError, "Failed to hash password")
        else if IndexOfUserId(old(users), newId).Some? then
          reply == Fail(StatusInternalServerError, "Failed to create user")
        else
          var u := NewUser(body.value, newId, hash(body.value.password).value, now);
          users == old(users) + [StoredUser(u)] &&
          match issue(Hex(u.id), u.email, u.role.String())
          case None => reply == Fail(StatusInternalServerError, "Failed to generate token")
          case Some(token) => reply == Ok(StatusCreated, Registered(AuthResponse(token, ToResponse(u))))
      ensures reply.Fail? && reply.error != "Failed to generate token" ==> users == old(users)
      ensures users != old(users) ==> |users| == |old(users)| + 1 && users[..|old(users)|] == old(users)
      ensures users != old(users) ==>
        var u := users[|old(users)|];
        u.isActive && u.role.IsValid() && body.Success? && u.email == body.value.email &&
        Some(u.password) == hash(body.value.password) &&
        IndexOfEmail(users, u.email) == Some(|old(users)|)
    {
      if body.Failure? {
        return Fail(StatusBadRequest, body.error);
      }
      var req := body.value;
      if IndexOfEmail(users, req.email).Some? {
        return Fail(StatusConflict, "User already exists");
      }
      var hashed := hash(req.password);
      if hashed.None? {
        return Fail(StatusInternalServerError, "Failed to hash password");
      }
      var user := NewUser(req, newId, hashed.value, now);
      if IndexOfUserId(users, newId).Some? {
        return Fail(StatusInternalServerError, "Failed to create user");
      }
      if old(Valid()) {
        AppendKeepsValidUsers(users, StoredUser(user));
      }
      users := users + [StoredUser(user)];
      assert users[|old(users)|] == StoredUser(user);
      var token := issue(Hex(user.id), user.email, user.role.String());
      if token.None? {
        return Fail(StatusInternalServerError, "Failed to generate token");
      }
      reply := Ok(StatusCreated, Registered(AuthResponse(token.value, ToResponse(user))));
    }

    /**
     * `Login`: 400 for a payload that does not decode; then, in this order,
     * 401 "Invalid credentials" for an unknown email, 401 "Account is
     * deactivated" for an inactive account, 401 "Invalid credentials" for a
     * wrong password, 500 when no token can be issued, else 200 with the
     * token and the role. Nothing is written.
     */
    method Login(body: Result<LoginRequest, string>, passwordMatches: (string, string) -> bool,
                 issue: (string, string, string) -> Option<string>) returns (reply: Reply<AuthBody>)
      ensures body.Failure? ==> reply == Fail(StatusBadRequest, body.error)
      ensures body.Success? ==>
        match IndexOfEmail(users, body.value.email)
        case None => reply == Fail(StatusUnauthorized, "Invalid credentials")
        case Some(i) =>
          if !users[i].isActive then reply == Fail(StatusUnauthorized, "Account is deactivated")
          else if !passwordMatches(body.value.password, users[i].password) then
            reply == Fail(StatusUnauthorized, "Invalid credentials")
          else
            match issue(Hex(users[i].id), users[i].email, users[i].role.String())
            case None => reply == Fail(StatusInternalServerError, "Failed to generate token")
            case Some(token) => reply == Ok(StatusOK, LoggedIn(LoginResponse(token, users[i].role)))
      ensures reply.Ok? ==>
        body.Success? &&
        exists i :: 0 <= i < |users| && users[i].email == body.value.email && users[i].isActive &&
          passwordMatches(body.value.password, users[i].password)
    {
      if body.Failure? {
        return Fail(StatusBadRequest, body.error);
      }
      var req := body.value;
      var found := IndexOfEmail(users, req.email);
      if found.None? {
        return Fail(StatusUnauthorized, "Invalid credentials");
      }
      var user := users[found.value];
      if !user.isActive {
        return Fail(StatusUnauthorized, "Account is deactivated");
      }
      if !passwordMatches(req.password, user.password) {
        return Fail(StatusUnauthorized, "Invalid credentials");
      }
      var token := issue(Hex(user.id), user.email, user.role.String());
      if token.None? {
        return Fail(StatusInternalServerError, "Failed to generate token");
      }
      reply := Ok(StatusOK, LoggedIn(LoginResponse(token.value, user.role)));
    }

    /**
     * `GetProfile`: 401 without a `user_id` in the context, 400 when it is
     * not hexadecimal, 404 for an unknown user, else 200 with the user
     * without its password.
     */
    method GetProfile(ctx: Context) returns (reply: Reply<AuthBody>)
      ensures ctx.userId.None? ==> reply == Fail(StatusUnauthorized, "User ID not found")
      ensures ctx.userId.Some? ==>
        if FromHex(ctx.userId.value).None? then reply == Fail(StatusBadRequest, "Invalid user ID")
        else
          match IndexOfUserId(users, FromHex(ctx.userId.value).value)
          case None => reply == Fail(StatusNotFound, "User not found")
          case Some(i) => reply == Ok(StatusOK, Profile(ToResponse(users[i])))
      ensures reply.Ok? ==>
        ctx.userId.Some? && FromHex(ctx.userId.value).Some? &&
        exists i :: 0 <= i < |users| && users[i].id == FromHex(ctx.userId.value).value
    {
      if ctx.userId.None? {
        return Fail(StatusUnauthorized, "User ID not found");
      }
      var id := FromHex(ctx.userId.value);
      if id.None? {
        return Fail(StatusBadRequest, "Invalid user ID");
      }
      var found := IndexOfUserId(users, id.value);
      if found.None? {
        return Fail(StatusNotFound, "User not found");
      }
      reply := Ok(StatusOK, Profile(ToResponse(users[found.value])));
    }
  }
}
