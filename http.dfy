/**
 * The HTTP surface of the server: the JSON bodies the handlers send with
 * `res.status(…).json(…)`, and the outcome of running a route's middleware
 * chain before its controller.
 */
module Http {
  import opened Wrappers
  import opened Types
  import opened Store

  /** One entry of express-validator's `errors.array()`: the field and the message. */
  datatype FieldError = FieldError(path: string, msg: string)

  datatype Body =
    | ErrorBody(error: string)
    | ValidationBody(errors: seq<FieldError>)
    | MessageBody(record: MessageRecord)
    | MessagesBody(records: seq<MessageRecord>)
    | GroupBody(group: GroupRow)
    | GroupsBody(groups: seq<GroupRow>)
    | InfoBody(message: string)
    | RegisteredBody(token: string, user: User, org: Org)
    | LoginBody(token: string, user: User)
    | InvitedBody(user: User)

  datatype Response = Response(status: nat, body: Body)

  const InternalError := Response(500, ErrorBody("Internal server error"))

  /**
   * Where a middleware chain leaves a request: answered by a middleware,
   * refused by the role check (whose reply is not part of this model), or
   * handed to the controller with the verified claims (if the route
   * authenticates) and the sanitized input.
   */
  datatype Gate<T> =
    | Halt(response: Response)
    | RoleDenied(required: Role)
    | Proceed(claims: Option<JwtPayload>, input: T)
}
