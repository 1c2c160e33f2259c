/**
 * The middleware chains of the group routes
 * (backend/src/routes/group.routes.js): every route authenticates first;
 * creating a group and adding a member also require the ADMIN role, checked
 * before the body is validated. Each route is given `auth`, what
 * `authenticate` decided for the request (`AuthMiddleware.Decide` on its
 * `Authorization` header).
 */
module GroupRoutes {
  import opened Wrappers
  import opened Types
  import opened Text
  import opened Identity
  import opened Http
  import opened Validation
  import opened AuthMiddleware

  const NameRequired := FieldError("name", "Group name is required")
  const UserIdRequired := FieldError("userId", "userId is required")

  /** `body('name').trim().notEmpty()` */
  function CheckName(body: RequestBody): (r: Checked<string>)
    ensures r.value == Trim(Field(body, "name"))
    ensures r.errors == [] <==> !AllWhitespace(Field(body, "name"))
    ensures r.errors != [] ==> r.errors == [NameRequired]
  {
    var name := Trim(Field(body, "name"));
    TrimEmptyIff(Field(body, "name"));
    Checked(name, Require(name != "", "name", "Group name is required"))
  }

  /** `body('userId').notEmpty()`: not trimmed, so a blank id passes this check. */
  function CheckUserId(body: RequestBody): (r: Checked<string>)
    ensures r.value == Field(body, "userId")
    ensures r.errors == [] <==> Field(body, "userId") != ""
    ensures r.errors != [] ==> r.errors == [UserIdRequired]
  {
    var userId := Field(body, "userId");
    Checked(userId, Require(userId != "", "userId", "userId is required"))
  }

  /** `POST /`: authenticate, then ADMIN, then the name check. */
  function CreateRoute(auth: AuthOutcome, body: RequestBody): (r: Gate<Checked<string>>)
    ensures auth.Rejected? ==> r == Halt(auth.response)
    ensures auth.Authenticated? && auth.claims.role != ADMIN ==> r == RoleDenied(ADMIN)
    ensures r.Proceed? <==> auth.Authenticated? && auth.claims.role == ADMIN
    ensures r.Proceed? ==> r.claims == Some(auth.claims) && r.input == CheckName(body)
  {
    RequireRole(AuthenticateThen(auth, CheckName(body)), ADMIN)
  }

  /** `POST /:groupId/members`: authenticate, then ADMIN, then the user id check. */
  function AddMemberRoute(auth: AuthOutcome, body: RequestBody): (r: Gate<Checked<string>>)
    ensures auth.Rejected? ==> r == Halt(auth.response)
    ensures auth.Authenticated? && auth.claims.role != ADMIN ==> r == RoleDenied(ADMIN)
    ensures r.Proceed? <==> auth.Authenticated? && auth.claims.role == ADMIN
    ensures r.Proceed? ==> r.claims == Some(auth.claims) && r.input == CheckUserId(body)
  {
    RequireRole(AuthenticateThen(auth, CheckUserId(body)), ADMIN)
  }

  /**
   * A MEMBER never reaches the group-creation validators: whatever the body,
   * its request stops at the role check.
   */
  lemma MemberCannotCreate(auth: AuthOutcome, body: RequestBody, other: RequestBody)
    requires auth.Authenticated? && auth.claims.role == MEMBER
    ensures CreateRoute(auth, body) == CreateRoute(auth, other) == RoleDenied(ADMIN)
  {
  }
}
