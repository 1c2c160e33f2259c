/**
 * The middleware chains of the message routes
 * (backend/src/routes/message.routes.js): both routes authenticate first and
 * require no role; posting trims the content and requires it non-empty.
 * Each route is given `auth`, what `authenticate` decided for the request
 * (`AuthMiddleware.Decide` on its `Authorization` header).
 */
module MessageRoutes {
  import opened Wrappers
  import opened Types
  import opened Text
  import opened Identity
  import opened Http
  import opened Validation
  import opened AuthMiddleware

  const ContentRequired := FieldError("content", "Message content is required")

  /** `body('content').trim().notEmpty()` */
  function CheckContent(body: RequestBody): (r: Checked<string>)
    ensures r.value == Trim(Field(body, "content"))
    ensures r.errors == [] <==> r.value != ""
    ensures r.errors != [] ==> r.errors == [ContentRequired]
  {
    var content := Trim(Field(body, "content"));
    Checked(content, Require(content != "", "content", "Message content is required"))
  }

  /** `POST /:groupId/messages`: any authenticated caller; the controller sees the trimmed content. */
  function PostRoute(auth: AuthOutcome, body: RequestBody): (r: Gate<Checked<string>>)
    ensures !r.RoleDenied?
    ensures r.Proceed? <==> auth.Authenticated?
    ensures r.Proceed? ==> r.claims == Some(auth.claims) && r.input == CheckContent(body)
  {
    AuthenticateThen(auth, CheckContent(body))
  }

  /**
   * Content made only of whitespace, or missing, reaches the controller as
   * a validation error, which answers 400 before touching the store.
   */
  lemma BlankContentRefused(auth: AuthOutcome, body: RequestBody)
    requires AllWhitespace(Field(body, "content"))
    requires PostRoute(auth, body).Proceed?
    ensures PostRoute(auth, body).input.errors == [ContentRequired]
  {
    TrimEmptyIff(Field(body, "content"));
  }

  /** Content with a visible character passes, stripped of the surrounding whitespace. */
  lemma VisibleContentAccepted(auth: AuthOutcome, body: RequestBody)
    requires !AllWhitespace(Field(body, "content"))
    requires PostRoute(auth, body).Proceed?
    ensures PostRoute(auth, body).input.errors == []
    ensures PostRoute(auth, body).input.value == Trim(Field(body, "content"))
  {
    TrimEmptyIff(Field(body, "content"));
  }
}
