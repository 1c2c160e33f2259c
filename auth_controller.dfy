/**
 * The account endpoints (backend/src/controllers/auth.controller.js):
 * registering a new organization with its first administrator, logging in,
 * and an administrator inviting a member into its own organization. Every
 * successful call that identifies a user answers with a token whose claims
 * are that user's id, organization and role.
 */
module AuthController {
  import opened Wrappers
  import opened Types
  import opened Identity
  import opened Store
  import opened Http
  import AuthMiddleware

  /** The lifetime every session token is signed with. */
  const TokenLifetime := "7d"

  const OrgTaken := Response(409, ErrorBody("Organization name already taken"))
  const EmailTaken := Response(409, ErrorBody("Email already registered"))
  const InvalidCredentials := Response(401, ErrorBody("Invalid credentials"))

  /** `signToken`: the claims are exactly the user id, organization id and role. */
  function SignToken(jwt: Jwt, userId: Id, orgId: Id, role: Role): string {
    jwt.sign(JwtPayload(userId, orgId, role), TokenLifetime)
  }

  /**
   * A token the server issued passes `authenticate` with exactly the claims
   * it was issued for.
   */
  lemma IssuedTokenAuthenticates(jwt: Jwt, userId: Id, orgId: Id, role: Role)
    requires SoundJwt(jwt)
    ensures jwt.verify(SignToken(jwt, userId, orgId, role)) == Some(JwtPayload(userId, orgId, role))
    ensures AuthMiddleware.Decide(Some(AuthMiddleware.Scheme + SignToken(jwt, userId, orgId, role)), jwt)
         == AuthMiddleware.Authenticated(JwtPayload(userId, orgId, role))
  {
    AuthMiddleware.SignedTokenAuthenticates(jwt, JwtPayload(userId, orgId, role), TokenLifetime);
  }

  /**
   * The two uniqueness checks of registration, in order: the organization
   * name first, then the email.
   */
  function RegisterConflict(s: Snapshot, orgName: string, email: string): (r: Option<Response>)
    ensures orgName in s.orgByName <==> r == Some(OrgTaken)
    ensures r == Some(EmailTaken) <==> orgName !in s.orgByName && email in s.userByEmail
    ensures r.None? <==> orgName !in s.orgByName && email !in s.userByEmail
  {
    if orgName in s.orgByName then Some(OrgTaken)
    else if email in s.userByEmail then Some(EmailTaken)
    else None
  }

  /**
   * `registerOrgAdmin`: after the conflict checks, the organization and its
   * ADMIN user are written together or not at all; the reply carries a token
   * for the new administrator in the new organization and the user without
   * its password hash. A store call that raises, be it a lookup of the
   * conflict checks or the transaction, answers 500 with nothing written.
   */
  method RegisterOrgAdmin(db: Db, jwt: Jwt, bcrypt: Bcrypt, errors: seq<FieldError>,
                          orgName: string, email: string, password: string, fault: Fault)
    returns (res: Response)
    requires db.Valid()
    modifies db
    ensures db.Valid()
    ensures old(db.TenantConsistent()) ==> db.TenantConsistent()
    ensures res.status != 201 ==> db.data == old(db.data)
    ensures errors != [] ==> res == Response(400, ValidationBody(errors))
    ensures errors == [] && fault == AtLookup ==> res == InternalError
    ensures errors == [] && fault != AtLookup && RegisterConflict(old(db.data), orgName, email).Some? ==>
      res == RegisterConflict(old(db.data), orgName, email).value
    ensures errors == [] && RegisterConflict(old(db.data), orgName, email).None? ==>
      && (fault != NoFault ==> res == InternalError)
      && (fault == NoFault ==>
            && res.status == 201 && res.body.RegisteredBody?
            && var user := res.body.user;
            var org := res.body.org;
            && org.name == orgName && org.id !in old(db.data.orgs)
            && user == User(user.id, email, ADMIN, None) && user.id !in old(db.data.users)
            && res.body.token == SignToken(jwt, user.id, org.id, ADMIN)
            && db.data == WithOrgAndAdmin(old(db.data), OrgRow(org.id, orgName),
                                          UserRow(user.id, email, bcrypt.hash(password), ADMIN, org.id)))
  {
    if errors != [] {
      return Response(400, ValidationBody(errors));
    }
    if fault == AtLookup {
      return InternalError;
    }
    var conflict := RegisterConflict(db.data, orgName, email);
    if conflict.Some? {
      return conflict.value;
    }
    var passwordHash := bcrypt.hash(password);
    var written := db.CreateOrgWithAdmin(orgName, email, passwordHash, fault == AtWrite);
    if written.Failed? {
      return InternalError;
    }
    var org, admin := written.row.org, written.row.admin;
    var token := SignToken(jwt, admin.id, org.id, ADMIN);
    res := Response(201, RegisteredBody(token, User(admin.id, admin.email, admin.role, None), Org(org.id, org.name)));
  }

  /**
   * `login`: an unknown email and a wrong password get the same reply; a
   * match answers with a token for the stored user's own id, organization
   * and role. `fault` is the store failing the lookup.
   */
  method Login(db: Db, jwt: Jwt, bcrypt: Bcrypt, errors: seq<FieldError>, email: string, password: string, fault: bool)
    returns (res: Response)
    requires db.Valid()
    ensures errors != [] ==> res == Response(400, ValidationBody(errors))
    ensures errors == [] && fault ==> res == InternalError
    ensures errors == [] && !fault ==>
      match db.FindUserByEmail(email)
      case None => res == InvalidCredentials
      case Some(user) =>
        && (!bcrypt.compare(password, user.passwordHash) ==> res == InvalidCredentials)
        && (bcrypt.compare(password, user.passwordHash) ==>
              res == Response(200, LoginBody(SignToken(jwt, user.id, user.orgId, user.role),
                                             User(user.id, user.email, user.role, Some(user.orgId)))))
  {
    if errors != [] {
      return Response(400, ValidationBody(errors));
    }
    if fault {
      return InternalError;
    }
    var found := db.FindUserByEmail(email);
    if found.None? {
      return InvalidCredentials;
    }
    var user := found.value;
    if !bcrypt.compare(password, user.passwordHash) {
      return InvalidCredentials;
    }
    var token := SignToken(jwt, user.id, user.orgId, user.role);
    res := Response(200, LoginBody(token, User(user.id, user.email, user.role, Some(user.orgId))));
  }

  /**
   * Registering and then logging in with the same email and password
   * succeeds: the email index finds the new administrator, and its stored
   * hash matches the password.
   */
  lemma RegisteredAdminLogsIn(s: Snapshot, org: OrgRow, admin: UserRow, bcrypt: Bcrypt, password: string)
    requires SoundBcrypt(bcrypt)
    requires admin.passwordHash == bcrypt.hash(password)
    ensures admin.email in WithOrgAndAdmin(s, org, admin).userByEmail
    ensures WithOrgAndAdmin(s, org, admin).users[WithOrgAndAdmin(s, org, admin).userByEmail[admin.email]] == admin
    ensures bcrypt.compare(password, admin.passwordHash)
  {
  }

  /**
   * `inviteMember`: an existing email answers 409; otherwise a MEMBER is
   * created in the inviting administrator's organization, whatever the
   * request body says. A store call that raises, be it the email lookup or
   * the write, answers 500 with nothing written.
   */
  method InviteMember(db: Db, bcrypt: Bcrypt, claims: JwtPayload, errors: seq<FieldError>,
                      email: string, password: string, fault: Fault)
    returns (res: Response)
    requires db.Valid()
    modifies db
    ensures db.Valid()
    ensures old(db.TenantConsistent()) ==> db.TenantConsistent()
    ensures res.status != 201 ==> db.data == old(db.data)
    ensures errors != [] ==> res == Response(400, ValidationBody(errors))
    ensures errors == [] && fault == AtLookup ==> res == InternalError
    ensures errors == [] && fault != AtLookup && email in old(db.data.userByEmail) ==> res == EmailTaken
    ensures errors == [] && email !in old(db.data.userByEmail) && (fault != NoFault || claims.orgId !in old(db.data.orgs)) ==>
      res == InternalError
    ensures errors == [] && email !in old(db.data.userByEmail) && fault == NoFault && claims.orgId in old(db.data.orgs) ==>
      && res.status == 201 && res.body.InvitedBody?
      && res.body.user == User(res.body.user.id, email, MEMBER, Some(claims.orgId))
      && res.body.user.id !in old(db.data.users)
      && db.data == WithUser(old(db.data), UserRow(res.body.user.id, email, bcrypt.hash(password), MEMBER, claims.orgId))
  {
    if errors != [] {
      return Response(400, ValidationBody(errors));
    }
    if fault == AtLookup {
      return InternalError;
    }
    if email in db.data.userByEmail {
      return EmailTaken;
    }
    var passwordHash := bcrypt.hash(password);
    var written := db.CreateUser(email, passwordHash, MEMBER, claims.orgId, fault == AtWrite);
    if written.Failed? {
      return InternalError;
    }
    var user := written.row;
    res := Response(201, InvitedBody(User(user.id, user.email, user.role, Some(user.orgId))));
  }
}
