# Tenant: a verified model of the multi-tenant chat pipeline

This project models the core of a multi-tenant group chat. Several
organizations (tenants) share one server. Each organization has
administrators and members, groups, and the messages posted to those groups.
Two things are modelled:

- **The server side.** This is the `authenticate` middleware, the route
  chains (authenticate, then `requireRole`, then validators), and the auth,
  group and message controllers. It also covers the socket.io handshake and
  the `join_group` / `send_message` events.
- **The browser client.** This is the session store, the client's unverified
  read of a token's payload, the configured endpoints, and the API client's
  headers and error handler.

The persistence store (Prisma over a relational database) is the class
`Store.Db`. Its contents are a `Snapshot` of maps and sequences. Each write
either fails and leaves the tables unchanged, or applies one `With…` effect.
The socket.io server is `Rooms.Registry`: a map of rooms plus an outbox of
everything sent, in order.

The central property is tenant separation. `Store.TenantSeparated` says that
every membership and every message links a user and a group of the same
organization. Every write handler preserves it. The access checks depend only
on the caller's own organization, and a tenant's room names cannot collide
with another's.

Cryptography, the clock, and failures of the store are parameters:

- `Identity.Jwt` and `Identity.Bcrypt` are pairs of functions. `SoundJwt` and
  `SoundBcrypt` state the one law each must satisfy.
- Store failures are a parameter of each handler. A handler that reads and then
  writes takes a `Store.Fault`: no failure, a failing lookup, or a failing
  write. A handler whose store calls are all reads, or a single write, takes a
  `fault` flag: its first store call raises.
- The browser's `atob`, `JSON.parse`, and validator.js's `isEmail` are
  function parameters.

## Model

| member | source | states |
|---|---|---|
| Text.Trim | backend/src/socket/socket.handler.js:60 | `trim()` yields a result no longer than its input that neither starts nor ends with whitespace |
| Text.TrimSlice | backend/src/routes/message.routes.js:14 | trimming removes exactly a whitespace prefix and a whitespace suffix and keeps the middle of the input |
| Text.TrimEmptyIff | backend/src/socket/socket.handler.js:60 | the trimmed string is empty exactly when the input is all whitespace, so `!content?.trim()` refuses exactly blank content |
| Text.TrimIdempotent | backend/src/socket/socket.handler.js:79 | trimming an already trimmed string changes nothing |
| Validation.Require | backend/src/routes/auth.routes.js:12-14 | a check contributes no error exactly when it passes, and one error with its field and message otherwise |
| Validation.CharLength | backend/src/routes/auth.routes.js:14 | the length `isLength` measures never exceeds the string's length |
| Validation.CharLengthPlain | backend/src/routes/auth.routes.js:14 | without variation selectors the measured length is the plain length |
| Validation.SelectorsOnlyMeasureZero | backend/src/routes/auth.routes.js:14 | a password made only of variation selectors measures zero, so it fails the minimum length |
| AuthMiddleware.BearerToken | backend/src/middleware/auth.js:4-9 | a token is read exactly when the header exists and starts with the case-sensitive `Bearer ` |
| AuthMiddleware.HeaderIsSchemeThenToken | backend/src/middleware/auth.js:9 | the token read is everything after the scheme |
| AuthMiddleware.BearerRoundTrip | backend/src/middleware/auth.js:5-9 | the token in a `Bearer <token>` header reads back as that token |
| AuthMiddleware.Decide | backend/src/middleware/auth.js:3-17 | no bearer header gives 401 'Missing token'; a token that does not verify gives 401 'Invalid or expired token'; otherwise authenticated with exactly the verified claims |
| AuthMiddleware.EmptyBearerIsInvalid | backend/src/middleware/auth.js:5-16 | `Bearer ` with nothing after it is refused as an invalid token, not as a missing one |
| AuthMiddleware.SignedTokenAuthenticates | backend/src/middleware/auth.js:9-14 | a token the server signed authenticates with exactly its claims |
| AuthMiddleware.AuthenticateThen | backend/src/routes/message.routes.js:8 | a route behind `authenticate` reaches the next step exactly when authentication succeeded, carrying those claims; otherwise the 401 reply |
| AuthMiddleware.RequireRole | backend/src/routes/group.routes.js:13 | the request goes on only when the verified claims carry the role; otherwise it is refused by the role check |
| AuthMiddleware.Authenticate | backend/src/middleware/auth.js:3-18 | on success `req.user` is the verified payload and `next` runs once; on failure the 401 reply is sent and `req.user`/`next` are untouched |
| AuthMiddleware.AuthenticatedOnly | backend/src/routes/message.routes.js:8-10 | any authenticated caller reaches `getMessages` with its claims, and only such a caller; no role is required (the same gate guards `GET /` of backend/src/routes/group.routes.js:18, `listGroups`) |
| MessageRoutes.CheckContent | backend/src/routes/message.routes.js:14 | the content is trimmed, and it is refused with 'Message content is required' exactly when the trimmed content is empty |
| MessageRoutes.PostRoute | backend/src/routes/message.routes.js:12-16 | any authenticated caller reaches `sendMessage` with its claims and the checked, trimmed content |
| MessageRoutes.BlankContentRefused | backend/src/routes/message.routes.js:14 | whitespace-only or missing content reaches the controller only as the content error |
| MessageRoutes.VisibleContentAccepted | backend/src/routes/message.routes.js:14 | content with a visible character passes, trimmed |
| GroupRoutes.CheckName | backend/src/routes/group.routes.js:14 | the name is trimmed and refused exactly when it is all whitespace |
| GroupRoutes.CheckUserId | backend/src/routes/group.routes.js:23 | the user id is not trimmed and is refused exactly when empty |
| GroupRoutes.CreateRoute | backend/src/routes/group.routes.js:9-16 | a rejected token halts with its 401; a non-ADMIN is refused by the role check; only an ADMIN reaches the name check and `createGroup` |
| GroupRoutes.AddMemberRoute | backend/src/routes/group.routes.js:20-25 | only an authenticated ADMIN reaches the user id check and `addMember` |
| GroupRoutes.MemberCannotCreate | backend/src/routes/group.routes.js:13-14 | a MEMBER's request stops at the role check whatever its body |
| AuthRoutes.CheckEmail | backend/src/routes/auth.routes.js:13 | the email check passes exactly when `isEmail` accepts the field |
| AuthRoutes.CheckPasswordLength | backend/src/routes/auth.routes.js:14 | the length check passes exactly when the measured length is at least 6 |
| AuthRoutes.RegisterRoute | backend/src/routes/auth.routes.js:9-17 | no token is needed; the body passes exactly when the org name is not blank, the email is valid and the password measures 6 or more; a blank org name is the first error |
| AuthRoutes.LoginRoute | backend/src/routes/auth.routes.js:19-26 | the body passes exactly when the email is valid and the password is non-empty |
| AuthRoutes.InviteRoute | backend/src/routes/auth.routes.js:28-37 | authenticate, then ADMIN, then email and a password of 6 or more |
| AuthRoutes.ShortPasswordOnlyAtLogin | backend/src/routes/auth.routes.js:14-23 | every password measuring 1 to 5 characters passes login's checks, while registration reports exactly the length error |
| Store.MessageRecord.Payload | backend/src/socket/socket.handler.js:84-90 | the `receive_message` payload carries the stored id, content, group, sender and creation time |
| Store.Record | backend/src/controllers/message.controller.js:29-31 | a message is returned with its author's id and email |
| Store.OfGroupMembers | backend/src/controllers/message.controller.js:26 | `where: { groupId }` keeps exactly the rows of the group |
| Store.OfGroupIncreasing | backend/src/controllers/message.controller.js:26-27 | filtering by group keeps creation order |
| Store.OfGroupAppend | backend/src/controllers/message.controller.js:58-63 | a new message becomes the newest of its group and no other row moves |
| Store.Upserted | backend/src/controllers/group.controller.js:74-78 | after the upsert the row is present and nothing else was added |
| Store.UpsertIdempotent | backend/src/controllers/group.controller.js:74-78 | upserting the same key twice is upserting it once |
| Store.UpsertKeepsKeyUnique | backend/src/controllers/group.controller.js:74-78 | the membership key stays unique and occurs exactly once |
| Store.OrgAndAdminKeepsConsistent | backend/src/controllers/auth.controller.js:36-42 | writing a new organization and its admin keeps every schema constraint |
| Store.OrgAndAdminKeepsTenancy | backend/src/controllers/auth.controller.js:36-42 | that write keeps tenants separated |
| Store.UserKeepsConsistent | backend/src/controllers/auth.controller.js:105-107 | writing a new user of an existing organization keeps every schema constraint |
| Store.UserKeepsTenancy | backend/src/controllers/auth.controller.js:105-107 | that write keeps tenants separated |
| Store.GroupKeepsConsistent | backend/src/controllers/group.controller.js:14-16 | writing a group whose name is free in its organization keeps every schema constraint |
| Store.GroupKeepsTenancy | backend/src/controllers/group.controller.js:14-16 | that write keeps tenants separated |
| Store.MemberKeepsConsistent | backend/src/controllers/group.controller.js:74-78 | upserting a membership of existing rows keeps every schema constraint |
| Store.MemberKeepsTenancy | backend/src/controllers/group.controller.js:74-78 | a membership between a user and a group of the same organization keeps tenants separated |
| Store.MessageKeepsConsistent | backend/src/controllers/message.controller.js:58-63 | a message stamped with the current clock keeps every constraint, including creation order |
| Store.MessageKeepsTenancy | backend/src/controllers/message.controller.js:58-63 | a message by a user in a group of the same organization keeps tenants separated |
| Store.Db.FindGroup | backend/src/controllers/message.controller.js:5 | `group.findUnique` finds a group exactly when its id is stored |
| Store.Db.FindUser | backend/src/controllers/group.controller.js:69 | `user.findUnique` by id finds a user exactly when its id is stored |
| Store.Db.FindUserByEmail | backend/src/controllers/auth.controller.js:66 | the email index finds a user exactly when some stored user has that email |
| Store.Db.FindOrgByName | backend/src/controllers/auth.controller.js:23 | the name index finds an organization exactly when some stored organization has that name |
| Store.Db.CreateOrgWithAdmin | backend/src/controllers/auth.controller.js:36-42 | the transaction writes both rows or neither; a taken name or email fails it; the admin gets role ADMIN and the new organization's id |
| Store.Db.CreateUser | backend/src/controllers/auth.controller.js:105-107 | a taken email fails with a unique violation, an unknown organization with a foreign-key violation; otherwise exactly the new row is added |
| Store.Db.CreateGroup | backend/src/controllers/group.controller.js:14-16 | an unknown organization fails the foreign key and a name taken in the organization fails uniqueness; otherwise the group is added with the current clock |
| Store.Db.UpsertMember | backend/src/controllers/group.controller.js:74-78 | the membership is upserted when both rows exist; otherwise a foreign-key failure leaves the store unchanged |
| Store.Db.CreateMessage | backend/src/controllers/message.controller.js:58-63 | a message with a fresh id and the current clock is appended and returned with its author |
| Rooms.Joined | backend/src/socket/socket.handler.js:51 | joining adds the connection to that room and changes no other room |
| Rooms.Left | backend/src/socket/socket.handler.js:97-99 | on disconnect the connection leaves every room |
| Rooms.JoinIdempotent | backend/src/socket/socket.handler.js:51 | joining a room twice is joining it once |
| Rooms.LeftAfterJoin | backend/src/socket/socket.handler.js:97-99 | after disconnect the connection is in no room, whatever it joined |
| Rooms.Registry.Join | backend/src/socket/socket.handler.js:51 | `socket.join(room)` updates the rooms and sends nothing |
| Rooms.Registry.LeaveAll | backend/src/socket/socket.handler.js:97-99 | disconnecting removes the connection from all rooms and sends nothing |
| Rooms.Registry.EmitTo | backend/src/socket/socket.handler.js:32 | `socket.emit` sends one event to that connection only |
| Rooms.Registry.Broadcast | backend/src/socket/socket.handler.js:84-90 | `io.to(room).emit` reaches the room's members at that moment |
| SocketHandler.RoomNameInjective | backend/src/socket/socket.handler.js:4-7 | distinct (organization, group) pairs get distinct rooms when organization ids contain no ':' |
| SocketHandler.RoomNameCollision | backend/src/socket/socket.handler.js:4-7 | without that condition two tenants' rooms can coincide |
| SocketHandler.CheckAccess | backend/src/socket/socket.handler.js:37-48 | a missing group and another organization's group are both 'not found'; a non-member is refused; otherwise access is granted to that group |
| SocketHandler.CheckAccessIgnoresOtherTenants | backend/src/socket/socket.handler.js:36-48 | the verdict depends only on the caller's own organization's groups and the caller's memberships of them |
| SocketHandler.Handshake | backend/src/socket/socket.handler.js:11-24 | no token gives 'Authentication required', a token that does not verify gives 'Invalid or expired token'; otherwise the claims are stored on the socket |
| SocketHandler.JoinGroup | backend/src/socket/socket.handler.js:30-57 | a granted caller joins only the room of its own organization and the group and is told so; every refusal emits one error and leaves the rooms unchanged |
| SocketHandler.PlanSend | backend/src/socket/socket.handler.js:59-76 | blank content or a missing group is refused first; then the access check; only a granted caller stores the trimmed content |
| SocketHandler.SendMessage | backend/src/socket/socket.handler.js:59-95 | the checks run against the store on every call; the trimmed content is stored and, only once stored, broadcast to the caller's organization's room; a failing lookup (once the fields are present) or a failing write sends 'Internal error', stores and broadcasts nothing |
| MessageController.AssertGroupMembership | backend/src/controllers/message.controller.js:4-12 | the group is returned exactly when it exists, belongs to the caller's organization, and the caller is a member |
| MessageController.SameAccessAsSocket | backend/src/controllers/message.controller.js:4-12 | the HTTP check grants exactly what the socket check grants |
| MessageController.EffectiveLimit | backend/src/controllers/message.controller.js:17 | as written: 50 when absent or 0; any other number up to 100, negative ones included, is used unchanged; anything above 100 becomes 100; so the result is at most 100, never 0, and negative exactly when a negative number was given |
| MessageController.HistoryLimit | backend/src/controllers/message.controller.js:17 | the intended limit: between 1 and 100, 50 when not a positive number, the request itself when between 1 and 100 |
| MessageController.HistoryLimitAgrees | backend/src/controllers/message.controller.js:17 | where the written limit is positive the corrected one equals it |
| MessageController.Reverse | backend/src/controllers/message.controller.js:35 | `reverse()` keeps the length and puts element i at position n-1-i |
| MessageController.ReverseReverse | backend/src/controllers/message.controller.js:35 | reversing twice is the identity |
| MessageController.TakeNewestFirst | backend/src/controllers/message.controller.js:25-32 | a newest-first query returns min(abs(take), n) rows |
| MessageController.Newest | backend/src/controllers/message.controller.js:25-35 | the newest n rows, oldest first, are a suffix of the table |
| MessageController.PositiveTakeReversed | backend/src/controllers/message.controller.js:25-35 | with a positive limit, query then `reverse()` gives the newest rows, oldest first |
| MessageController.NegativeTakeReversed | backend/src/controllers/message.controller.js:25-35 | with a negative limit, query then `reverse()` gives the oldest rows instead |
| MessageController.NegativeLimitEscapesCap | backend/src/controllers/message.controller.js:17-35 | `?limit=-500` on a group with 500 or more messages returns 500 messages, its oldest |
| MessageController.HistoryIsNewestInOrder | backend/src/controllers/message.controller.js:25-35 | the history is bounded by the limit, holds only the group's messages, is in creation order, and everything of the group it omits is older than everything it returns |
| MessageController.NewestIsNewest | backend/src/controllers/message.controller.js:25-35 | in a list in creation order, whatever the newest n leave out is older than all of them |
| MessageController.Records | backend/src/controllers/message.controller.js:29-31 | each row is returned with its author, in the same order |
| MessageController.RecordsReverse | backend/src/controllers/message.controller.js:35 | adding authors commutes with reversal |
| MessageController.ReverseInPlace | backend/src/controllers/message.controller.js:35 | the array is reversed in place |
| MessageController.ConsistentAuthorsKnown | backend/src/controllers/message.controller.js:29-31 | in a consistent store every message's author exists |
| MessageController.History | backend/src/controllers/message.controller.js:25-35 | the records returned are those of the history rows, with their ids, bounded by the limit |
| MessageController.LoadHistory | backend/src/controllers/message.controller.js:25-35 | query newest first, then reverse the fetched array in place: the result is `History` |
| MessageController.GetMessages | backend/src/controllers/message.controller.js:14-40 | 500 on a store failure, 403 without access, otherwise 200 with the newest messages of the group, oldest first, under the corrected limit of 1 to 100 (see Findings) |
| MessageController.SameRoomAsSocket | backend/src/controllers/message.controller.js:68 | the HTTP path broadcasts to the same room name as the socket path |
| MessageController.PlanPost | backend/src/controllers/message.controller.js:43-56 | validation errors answer 400 before any lookup; then 403 without access; otherwise the message is stored |
| MessageController.Announced | backend/src/controllers/message.controller.js:66-76 | a stored message is announced to the room once, with its stored payload; anything else announces nothing |
| MessageController.SendMessage | backend/src/controllers/message.controller.js:42-83 | 400 before any lookup; a failing lookup or write gives 500; 400, 403 and 500 leave the store unchanged; success appends exactly the new row, answers 201 with the record, and broadcasts it only when a socket server is attached |
| GroupController.CreateGroup | backend/src/controllers/group.controller.js:4-26 | 400 on validation errors; 409 when the name is taken in the caller's organization; 500 on other failures; otherwise the group is created in the caller's own organization |
| GroupController.GroupsOf | backend/src/controllers/group.controller.js:32-42 | the listed groups all belong to the caller's organization |
| GroupController.MembershipGroups | backend/src/controllers/group.controller.js:32-41 | the memberships mapped to their groups, at most one per membership |
| GroupController.ListedIff | backend/src/controllers/group.controller.js:32-44 | a group is listed exactly when the user is a member of it and it belongs to the caller's organization |
| GroupController.FilterIsRedundant | backend/src/controllers/group.controller.js:39-42 | where tenants are separated the organization filter removes nothing |
| GroupController.ListGroups | backend/src/controllers/group.controller.js:28-49 | 500 on a store failure; otherwise 200 with the membership rows mapped to their groups and filtered to the caller's organization: exactly the caller's groups in that organization, each once, in the order of the caller's membership rows |
| GroupController.ListedInMembershipOrder | backend/src/controllers/group.controller.js:32-42 | any two listed groups appear in the order of the caller's membership rows for them |
| GroupController.OrderedListDistinct | backend/src/controllers/group.controller.js:32-42 | over a membership table without duplicate keys, a list in membership order holds no group twice |
| GroupController.AddMemberOutcome | backend/src/controllers/group.controller.js:62-80 | 404 'Group not found' for a group outside the caller's organization; then 404 'User not found…' for a user outside it; otherwise 'Member added' |
| GroupController.AddMember | backend/src/controllers/group.controller.js:51-85 | only a group and a user of the admin's own organization are linked, so tenants stay separated; a failing lookup gives 500 before the 404 checks, a failing upsert 500 after them; every refusal leaves the store unchanged |
| GroupController.AddMemberIdempotent | backend/src/controllers/group.controller.js:74-78 | adding the same member twice leaves the store as adding it once |
| GroupController.AddedOnce | backend/src/controllers/group.controller.js:74-78 | after `addMember` the membership exists exactly once |
| AuthController.IssuedTokenAuthenticates | backend/src/controllers/auth.controller.js:8-12 | an issued token verifies, and passes `authenticate`, with exactly the user id, organization and role it was issued for |
| AuthController.RegisterConflict | backend/src/controllers/auth.controller.js:23-31 | a taken organization name is reported first, then a taken email |
| AuthController.RegisterOrgAdmin | backend/src/controllers/auth.controller.js:14-55 | 400, then 500 on a failing lookup, then 409 conflicts, then 500 on a failed transaction, all leaving the store unchanged; otherwise 201 with a token for the new ADMIN in the new organization |
| AuthController.Login | backend/src/controllers/auth.controller.js:57-86 | an unknown email and a wrong password both give 401 'Invalid credentials'; a match gives a token for the stored user's own id, organization and role |
| AuthController.RegisteredAdminLogsIn | backend/src/controllers/auth.controller.js:66-74 | after registration, logging in with the same email and password finds the new administrator and its hash matches |
| AuthController.InviteMember | backend/src/controllers/auth.controller.js:88-116 | 400, then 500 on a failing lookup, then 409 on a taken email, then 500 on a failing write; otherwise a MEMBER is created in the inviting admin's own organization, whatever the body says |
| Axios.HeadersWithToken | frontend/lib/axios.ts:13-19 | a non-empty token installs `Bearer <token>`; otherwise the header is removed; other headers are untouched |
| Axios.InstalledHeaderCarriesToken | frontend/lib/axios.ts:15 | the header the client installs is read back as the same token by the server's `authenticate` |
| Axios.Client.SetAuthToken | frontend/lib/axios.ts:13-19 | `setAuthToken` updates the default headers as `HeadersWithToken` says |
| Axios.ChosenMessage | frontend/lib/axios.ts:30 | the body's `error`, else its `message`, else the error's message, else 'Request failed' |
| Axios.HandleApiError | frontend/lib/axios.ts:22-48 | a non-axios error gets the generic toast; a 401 signs out (in a browser) and says the session expired; otherwise the first validation message or the chosen message; always exactly one toast, and it comes last |
| Axios.UnauthorizedIgnoresBody | frontend/lib/axios.ts:32-39 | on a 401 nothing in the body or the message changes what the user sees |
| Axios.Intercept | frontend/lib/axios.ts:50-56 | a success passes through with no effect; an error is handled and rejected again unchanged |
| AuthStore.OrgIdFor | frontend/store/auth.store.ts:34 | the token's organization wins; otherwise the user's |
| AuthStore.Session.SetAuth | frontend/store/auth.store.ts:28-36 | the header is installed, and the token, the user and the organization the token claims are stored |
| AuthStore.Session.Logout | frontend/store/auth.store.ts:38-41 | the header is removed and all three fields are cleared |
| AuthStore.Session.Hydrate | frontend/store/auth.store.ts:43-46 | a stored non-empty token re-installs the header; the store is untouched |
| AuthStore.Session.GetPayload | frontend/store/auth.store.ts:48-51 | no claims without a token; otherwise the token's decoded payload |
| AuthStore.Session.Partialize | frontend/store/auth.store.ts:55 | exactly the token, the user and the organization are persisted |
| AuthStore.LogoutUndoesSetAuth | frontend/store/auth.store.ts:38-41 | signing out after signing in leaves the headers as signing out alone would |
| AuthStore.EmptyTokenSendsNoHeader | frontend/store/auth.store.ts:28-29 | an empty token installs no Authorization header |
| JwtDecode.Split | frontend/lib/jwt.ts:7 | `split` yields at least one piece and no piece contains the separator |
| JwtDecode.SplitNoSeparator | frontend/lib/jwt.ts:7 | a string without the separator is one piece |
| JwtDecode.SplitAtFirst | frontend/lib/jwt.ts:7 | the text before the first separator is the first piece |
| JwtDecode.ReplaceAll | frontend/lib/jwt.ts:9 | a global single-character replace changes exactly the matching positions |
| JwtDecode.ToBase64Alphabet | frontend/lib/jwt.ts:9 | every '-' becomes '+' and every '_' becomes '/', nothing else changes |
| JwtDecode.AlphabetRoundTrip | frontend/lib/jwt.ts:9 | on base64url text the alphabet mapping is undone by the reverse mapping |
| JwtDecode.PayloadSegment | frontend/lib/jwt.ts:7-8 | the payload is the second '.'-separated piece, absent when missing or empty |
| JwtDecode.DecodeJwtPayload | frontend/lib/jwt.ts:5-13 | no payload segment gives null; otherwise the segment is mapped to base64, decoded and parsed, any failure giving null |
| JwtDecode.NoDotNoPayload | frontend/lib/jwt.ts:7-8 | a token without a '.' has no payload |
| JwtDecode.DecodeIgnoresHeaderAndSignature | frontend/lib/jwt.ts:5-13 | tokens that differ only in header or signature decode alike: the client verifies nothing |
| Env.StripTrailingSlash | frontend/lib/env.ts:12 | one trailing '/' is removed, if present; anything else is unchanged |
| Env.StripAfterAppend | frontend/lib/env.ts:12 | stripping undoes appending one slash |
| Env.StripsOnlyOne | frontend/lib/env.ts:12 | only one slash goes: 'x//' becomes 'x/' |
| Env.ApiUrl | frontend/lib/env.ts:4-12 | the API variable without its trailing slash, or empty when undefined |
| Env.SocketUrl | frontend/lib/env.ts:5-13 | the socket variable, else the API variable, else empty, without its trailing slash |
| Env.EmptySocketVarStaysEmpty | frontend/lib/env.ts:5-13 | a socket variable defined as empty stays empty even when the API variable is set (`??` falls back only on undefined) |

## Left out

- Cryptography: JWT signing and verification and bcrypt hashing are function parameters. `SoundJwt` and `SoundBcrypt` are their only laws. Token expiry needs a clock and is not modelled. The salt rounds (12) do not matter to a parameter.
- `backend/src/middleware/requireRole.js` is not part of this model. A refusal by it is `RoleDenied`, and its reply is not modelled.
- AuthMiddleware.AuthenticateThen: the route functions take `authenticate`'s decision (`Decide` on the request's header) rather than the header itself. `Decide` states the header-to-decision step.
- A failing lookup is one position of `Store.Fault` for all the lookups of a handler: each of them ends in the same catch-all reply. A failing `bcrypt.hash` is not modelled.
- Prisma and the database are an in-memory store. Each handler runs atomically. Concurrent requests and the window between a check and the following write are not modelled; such a race ends in the catch-all 500 in the source.
- The `createdAt` column is the store's clock and strictly increases with every write. The ordering of equal timestamps is not modelled.
- `listGroups` queries without an `orderBy`, and the database promises no order for such a query. The model fixes it as the membership table's insertion order, and `ListGroups` states that order; an order the database might choose otherwise is not modelled.
- Request bodies are maps from field names to strings. Non-string JSON values (numbers, objects) in a body or a socket event are not modelled. For example, `content.trim()` on a number would throw.
- `parseInt` is an input: `Some(n)` for the number it parses, `None` for `NaN`. Its parsing of strings is not modelled.
- Logging (`console.log`, `console.error`) is left out. So is the missing-variable warning of `frontend/lib/env.ts:7-9`.
- The client's `baseURL`, `Content-Type` and `withCredentials` settings are left out. So are the toast library and the `auth:logout` listener; `inBrowser` stands for the `window` check.
- Zustand's storage mechanics, the store name `'auth-storage'` and the unused `TOKEN_KEY` are left out.
- The browser's `atob` and `JSON.parse` are parameters. The parsed payload is cut down to the three string claims it may carry.
- The UI components, hooks, services and the client-side zod validations are context for the core and are not modelled.
- MessageController.History: states the length and the ids of the records. Their order and selection are stated by `HistoryIsNewestInOrder` on the rows, and `LoadHistory` is proved equal to it.
- GroupController.MembershipGroups: states only a length bound. It is the reference that `FilterIsRedundant` compares `GroupsOf` to.
- The store's creation order is modelled as strictly increasing. A weaker non-decreasing order, which a general description of such a store might allow, is not modelled.

## Findings

| source | as written | input that shows it | evidently intended | confidence | as-written member | corrected member |
|---|---|---|---|---|---|---|
| backend/src/controllers/message.controller.js:17 | `Math.min(parseInt(req.query.limit) \|\| 50, 100)` caps the limit from above only. A negative number passes to `take`, and Prisma then returns the last rows of the newest-first list, which are the oldest. | `GET /groups/G/messages?limit=-500` on a group with 500 or more messages returns 500 messages, the group's oldest. | The limit lies between 1 and 100, and the history is the newest messages. | medium, not executed | MessageController.NegativeLimitEscapesCap | MessageController.GetMessages |
