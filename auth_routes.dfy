/**
 * The middleware chains of the account routes
 * (backend/src/routes/auth.routes.js): registration and login take no token
 * and only validate the body; inviting a member authenticates, then requires
 * ADMIN, then validates. `isEmail` is validator.js's address check, taken as
 * a parameter; `auth` is what `authenticate` decided for the request
 * (`AuthMiddleware.Decide` on its `Authorization` header).
 */
module AuthRoutes {
  import opened Wrappers
  import opened Types
  import opened Text
  import opened Identity
  import opened Http
  import opened Validation
  import opened AuthMiddleware

  const OrgNameRequired := FieldError("orgName", "orgName is required")
  const EmailInvalid := FieldError("email", "Valid email is required")
  const PasswordTooShort := FieldError("password", "Password must be at least 6 characters")
  const PasswordRequired := FieldError("password", "Password is required")

  /** The fields the account controllers read. */
  datatype Credentials = Credentials(orgName: string, email: string, password: string)

  /** `body('email').isEmail()` */
  function CheckEmail(body: RequestBody, isEmail: string -> bool): (r: seq<FieldError>)
    ensures r == [] <==> isEmail(Field(body, "email"))
  {
    Require(isEmail(Field(body, "email")), "email", "Valid email is required")
  }

  /** `body('password').isLength({ min: 6 })` */
  function CheckPasswordLength(body: RequestBody): (r: seq<FieldError>)
    ensures r == [] <==> CharLength(Field(body, "password")) >= 6
  {
    Require(CharLength(Field(body, "password")) >= 6, "password", "Password must be at least 6 characters")
  }

  /** `POST /register-org-admin`: orgName (trimmed, non-empty), email, password of six or more. */
  function RegisterRoute(body: RequestBody, isEmail: string -> bool): (r: Gate<Checked<Credentials>>)
    ensures r.Proceed? && r.claims.None?
    ensures r.input.value == Credentials(Trim(Field(body, "orgName")), Field(body, "email"), Field(body, "password"))
    ensures r.input.errors == [] <==>
      !AllWhitespace(Field(body, "orgName")) && isEmail(Field(body, "email")) && CharLength(Field(body, "password")) >= 6
    ensures AllWhitespace(Field(body, "orgName")) ==> r.input.errors[0] == OrgNameRequired
  {
    var orgName := Trim(Field(body, "orgName"));
    TrimEmptyIff(Field(body, "orgName"));
    var errors := Require(orgName != "", "orgName", "orgName is required")
                  + CheckEmail(body, isEmail) + CheckPasswordLength(body);
    Proceed(None, Checked(Credentials(orgName, Field(body, "email"), Field(body, "password")), errors))
  }

  /** `POST /login`: email, and a password that is merely non-empty. */
  function LoginRoute(body: RequestBody, isEmail: string -> bool): (r: Gate<Checked<Credentials>>)
    ensures r.Proceed? && r.claims.None?
    ensures r.input.value == Credentials("", Field(body, "email"), Field(body, "password"))
    ensures r.input.errors == [] <==> isEmail(Field(body, "email")) && Field(body, "password") != ""
    ensures isEmail(Field(body, "email")) && Field(body, "password") == "" ==> r.input.errors == [PasswordRequired]
  {
    var errors := CheckEmail(body, isEmail) + Require(Field(body, "password") != "", "password", "Password is required");
    Proceed(None, Checked(Credentials("", Field(body, "email"), Field(body, "password")), errors))
  }

  /** `POST /invite-member`: authenticate, then ADMIN, then email and a password of six or more. */
  function InviteRoute(auth: AuthOutcome, body: RequestBody, isEmail: string -> bool)
    : (r: Gate<Checked<Credentials>>)
    ensures auth.Rejected? ==> r == Halt(auth.response)
    ensures auth.Authenticated? && auth.claims.role != ADMIN ==> r == RoleDenied(ADMIN)
    ensures r.Proceed? <==> auth.Authenticated? && auth.claims.role == ADMIN
    ensures r.Proceed? ==>
      && r.claims == Some(auth.claims)
      && r.input.value == Credentials("", Field(body, "email"), Field(body, "password"))
      && (r.input.errors == [] <==> isEmail(Field(body, "email")) && CharLength(Field(body, "password")) >= 6)
  {
    var errors := CheckEmail(body, isEmail) + CheckPasswordLength(body);
    RequireRole(AuthenticateThen(auth, Checked(Credentials("", Field(body, "email"), Field(body, "password")), errors)), ADMIN)
  }

  /**
   * Login has no minimum length: a password of one to five characters
   * passes the login checks, while registration reports exactly that it is
   * too short.
   */
  lemma ShortPasswordOnlyAtLogin(body: RequestBody, isEmail: string -> bool)
    requires 1 <= CharLength(Field(body, "password")) < 6
    requires isEmail(Field(body, "email")) && !AllWhitespace(Field(body, "orgName"))
    ensures LoginRoute(body, isEmail).input.errors == []
    ensures RegisterRoute(body, isEmail).input.errors == [PasswordTooShort]
  {
    TrimEmptyIff(Field(body, "orgName"));
  }
}
