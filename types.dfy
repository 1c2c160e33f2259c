/**
 * The shapes exchanged between the server and the browser client
 * (frontend/types/index.ts). Identifiers are strings chosen by the store;
 * timestamps are the store's clock readings.
 */
module Types {
  import opened Wrappers

  type Id = string

  datatype Role = ADMIN | MEMBER

  /** The verified claims carried by a session token. */
  datatype JwtPayload = JwtPayload(userId: Id, orgId: Id, role: Role)

  /** A user as the API returns it; `orgId` is absent in the registration reply. */
  datatype User = User(id: Id, email: string, role: Role, orgId: Option<Id>)

  datatype Org = Org(id: Id, name: string)

  datatype MessageSender = MessageSender(id: Id, email: string)

  /** The `receive_message` event payload pushed to a room. */
  datatype ReceiveMessagePayload =
    ReceiveMessagePayload(id: Id, content: string, groupId: Id, sender: MessageSender, createdAt: nat)

  /** One entry of a validation-error array. */
  datatype ValidationItem = ValidationItem(msg: Option<string>, path: Option<string>)

  /** The JSON body of a failed API call as the client sees it. */
  datatype ApiError = ApiError(error: Option<string>, message: Option<string>, errors: Option<seq<ValidationItem>>)
}
