/**
 * Users, their roles and the authentication payloads (internal/models/user.go).
 */
module UserModel {
  import opened Times
  import opened ObjectIds

  /** `Role`: a named string type. */
  datatype Role = Role(name: string) {
    /** `Role.String()`: the underlying string, from which the role is recovered. */
    function String(): (s: string)
      ensures Role(s) == this
    {
      name
    }

    /** `Role.IsValid()`: one of the two defined roles. */
    predicate IsValid() {
      this == RoleUser || this == RoleAdmin
    }
  }

  const RoleUser: Role := Role("user")
  const RoleAdmin: Role := Role("admin")

  /** Exactly the strings "user" and "admin" name valid roles. */
  lemma RoleValidExactly(r: Role)
    ensures r.IsValid() <==> r.String() == "user" || r.String() == "admin"
  {
  }

  /** A stored user. `password` holds the hash and is never part of a response. */
  datatype User = User(
    id: ObjectId,
    email: string,
    password: string,
    firstName: string,
    lastName: string,
    role: Role,
    isActive: bool,
    createdAt: Instant,
    updatedAt: Instant)

  /** What the database keeps of a user written from memory: its times to the millisecond. */
  function StoredUser(u: User): User {
    u.(createdAt := BsonTime(u.createdAt), updatedAt := BsonTime(u.updatedAt))
  }

  /**
   * The registration payload. The Go struct declares no role, yet the
   * registration handler reads `req.Role`; the requested role is carried
   * here, "" meaning none was asked for.
   */
  datatype RegisterRequest = RegisterRequest(
    email: string,
    password: string,
    firstName: string,
    lastName: string,
    role: string)

  /** `LoginRequest`. */
  datatype LoginRequest = LoginRequest(email: string, password: string)

  /** `UserResponse`: a user without the password. */
  datatype UserResponse = UserResponse(
    id: ObjectId,
    email: string,
    firstName: string,
    lastName: string,
    role: Role,
    isActive: bool,
    createdAt: Instant,
    updatedAt: Instant)

  /** `AuthResponse`, the registration answer. */
  datatype AuthResponse = AuthResponse(token: string, user: UserResponse)

  /**
   * The login answer. The handler builds a `models.LoginResponse` from the
   * token and the role, but the Go models declare no such type; its two
   * fields are those of that composite literal.
   */
  datatype LoginResponse = LoginResponse(token: string, role: Role)

  /** `User.ToResponse`. */
  function ToResponse(u: User): UserResponse {
    UserResponse(u.id, u.email, u.firstName, u.lastName, u.role, u.isActive, u.createdAt, u.updatedAt)
  }

  /**
   * The response copies every field but the password, and is the same
   * whatever the stored password is.
   */
  lemma ToResponseOmitsPassword(u: User, otherPassword: string)
    ensures ToResponse(u.(password := otherPassword)) == ToResponse(u)
    ensures var r := ToResponse(u);
      r.id == u.id && r.email == u.email && r.firstName == u.firstName &&
      r.lastName == u.lastName && r.role == u.role && r.isActive == u.isActive &&
      r.createdAt == u.createdAt && r.updatedAt == u.updatedAt
  {
  }
}
