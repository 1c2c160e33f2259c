/**
 * The real-time side of the server (backend/src/socket/socket.handler.js):
 * the handshake guard that admits a connection only with a verified token,
 * and the `join_group` and `send_message` events, which check the group's
 * organization and the caller's membership against the store on every call.
 */
module SocketHandler {
  import opened Wrappers
  import opened Types
  import opened Text
  import opened Identity
  import opened Store
  import opened Rooms

  /** The room of a group, namespaced by its organization. */
  function RoomName(orgId: Id, groupId: Id): string {
    "org:" + orgId + ":group:" + groupId
  }

  /**
   * Distinct (organization, group) pairs get distinct rooms as long as the
   * organization id has no ':' (the ids the store mints never do); the group
   * id may contain anything.
   */
  lemma RoomNameInjective(o1: Id, g1: Id, o2: Id, g2: Id)
    requires ':' !in o1 && ':' !in o2
    requires RoomName(o1, g1) == RoomName(o2, g2)
    ensures o1 == o2 && g1 == g2
  {
    OrgIdNotShorter(o1, g1, o2, g2);
    OrgIdNotShorter(o2, g2, o1, g1);
    var x := RoomName(o1, g1);
    assert o1 == x[4..4 + |o1|] == o2;
    assert g1 == x[4 + |o1| + 7..] == g2;
  }

  /** The ':' after the first organization id would otherwise fall inside the second. */
  lemma OrgIdNotShorter(o1: Id, g1: Id, o2: Id, g2: Id)
    requires ':' !in o2
    requires RoomName(o1, g1) == RoomName(o2, g2)
    ensures |o1| >= |o2|
  {
    if |o1| < |o2| {
      RoomNameAt(o1, g1, o2, g2);
      assert false;
    }
  }

  lemma RoomNameAt(o1: Id, g1: Id, o2: Id, g2: Id)
    requires |o1| < |o2|
    ensures RoomName(o1, g1)[4 + |o1|] == ':'
    ensures RoomName(o2, g2)[4 + |o1|] == o2[|o1|]
  {
  }

  /** Without that condition two tenants can share a room. */
  lemma RoomNameCollision()
    ensures RoomName("a:group:b", "c") == RoomName("a", "b:group:c")
  {
  }

  /** The verdict of the organization and membership checks both events run. */
  datatype Access = NoGroup | NotMember | Granted(group: GroupRow)

  /**
   * `group.findUnique` then `groupMember.findUnique`: a group of another
   * organization is reported exactly like a missing one.
   */
  function CheckAccess(s: Snapshot, userId: Id, orgId: Id, groupId: Id): (r: Access)
    ensures r == NoGroup <==> groupId !in s.groups || s.groups[groupId].orgId != orgId
    ensures r == NotMember <==>
      groupId in s.groups && s.groups[groupId].orgId == orgId && MemberRow(userId, groupId) !in s.members
    ensures r.Granted? ==> r.group == s.groups[groupId]
  {
    if groupId !in s.groups || s.groups[groupId].orgId != orgId then NoGroup
    else if MemberRow(userId, groupId) !in s.members then NotMember
    else Granted(s.groups[groupId])
  }

  /**
   * The verdict depends only on the caller's own organization: two stores
   * that agree on that organization's groups and on the caller's
   * memberships of them give the same verdict, so probing another tenant's
   * group ids reveals nothing.
   */
  lemma CheckAccessIgnoresOtherTenants(s: Snapshot, t: Snapshot, userId: Id, orgId: Id, groupId: Id)
    requires forall id :: id in s.groups && s.groups[id].orgId == orgId <==> id in t.groups && t.groups[id].orgId == orgId
    requires forall id :: id in s.groups && s.groups[id].orgId == orgId ==> s.groups[id] == t.groups[id]
    requires forall id :: id in s.groups && s.groups[id].orgId == orgId ==>
               (MemberRow(userId, id) in s.members <==> MemberRow(userId, id) in t.members)
    ensures CheckAccess(s, userId, orgId, groupId) == CheckAccess(t, userId, orgId, groupId)
  {
  }

  /** A connected socket: its id and the claims the handshake stored. */
  class Socket {
    const id: ConnId
    var user: Option<JwtPayload>

    constructor (id: ConnId)
      ensures this.id == id && user == None
    {
      this.id := id;
      user := None;
    }
  }

  /**
   * The `io.use` guard: refuses a handshake without a token or with one that
   * does not verify, and otherwise stores the claims on the socket. Returns
   * the error passed to `next`, if any.
   */
  method Handshake(socket: Socket, token: Option<string>, jwt: Jwt) returns (err: Option<string>)
    modifies socket
    ensures !Truthy(token) ==> err == Some("Authentication required") && socket.user == old(socket.user)
    ensures Truthy(token) && jwt.verify(token.value).None? ==>
      err == Some("Invalid or expired token") && socket.user == old(socket.user)
    ensures Truthy(token) && jwt.verify(token.value).Some? ==>
      err == None && socket.user == jwt.verify(token.value)
  {
    if !Truthy(token) {
      return Some("Authentication required");
    }
    var payload := jwt.verify(token.value);
    if payload.None? {
      return Some("Invalid or expired token");
    }
    socket.user := payload;
    err := None;
  }

  /** The error text a refused access check sends back. */
  function AccessError(a: Access): string
    requires !a.Granted?
  {
    if a == NoGroup then "Group not found" else "You are not a member of this group"
  }

  /**
   * `join_group`: a granted caller joins exactly the room of its own
   * organization and the group, and only that socket is told. Every refusal
   * emits one error to the socket and leaves the rooms alone. `fault` is
   * the store failing the first lookup.
   */
  method JoinGroup(db: Db, io: Registry, socket: Socket, groupId: Option<string>, fault: bool)
    requires socket.user.Some?
    modifies io
    ensures !Truthy(groupId) ==>
      io.rooms == old(io.rooms) && io.outbox == old(io.outbox) + [ToSocket(socket.id, ErrorEvent("groupId is required"))]
    ensures Truthy(groupId) && fault ==>
      io.rooms == old(io.rooms) && io.outbox == old(io.outbox) + [ToSocket(socket.id, ErrorEvent("Internal error"))]
    ensures Truthy(groupId) && !fault ==>
      var claims := socket.user.value;
      var access := CheckAccess(db.data, claims.userId, claims.orgId, groupId.value);
      var room := RoomName(claims.orgId, groupId.value);
      && (!access.Granted? ==>
            io.rooms == old(io.rooms)
            && io.outbox == old(io.outbox) + [ToSocket(socket.id, ErrorEvent(AccessError(access)))])
      && (access.Granted? ==>
            io.rooms == Joined(old(io.rooms), room, socket.id)
            && io.outbox == old(io.outbox) + [ToSocket(socket.id, JoinedGroup(groupId.value, room))])
  {
    var claims := socket.user.value;
    if !Truthy(groupId) {
      io.EmitTo(socket.id, ErrorEvent("groupId is required"));
      return;
    }
    if fault {
      io.EmitTo(socket.id, ErrorEvent("Internal error"));
      return;
    }
    var access := CheckAccess(db.data, claims.userId, claims.orgId, groupId.value);
    if !access.Granted? {
      io.EmitTo(socket.id, ErrorEvent(AccessError(access)));
      return;
    }
    var room := RoomName(claims.orgId, groupId.value);
    io.Join(socket.id, room);
    io.EmitTo(socket.id, JoinedGroup(groupId.value, room));
  }

  const FieldsRequired := "groupId and content are required"

  /** What `send_message` does before touching the store: refuse with a message, or store. */
  datatype SendPlan = Refuse(message: string) | Store(groupId: Id, content: string)

  /**
   * The checks of `send_message`, in order: both fields present and the
   * content not blank after trimming, then the group in the caller's
   * organization, then the caller's membership. The content to store is the
   * trimmed one.
   */
  function PlanSend(s: Snapshot, claims: JwtPayload, groupId: Option<string>, content: Option<string>): (r: SendPlan)
    ensures !Truthy(groupId) || content.None? || Trim(content.value) == "" <==>
      r == Refuse(FieldsRequired)
    ensures r.Store? <==>
      && Truthy(groupId) && content.Some? && Trim(content.value) != ""
      && CheckAccess(s, claims.userId, claims.orgId, groupId.value).Granted?
    ensures r.Store? ==> r.groupId == groupId.value && r.content == Trim(content.value) && r.content != ""
    ensures r.Refuse? && Truthy(groupId) && content.Some? && Trim(content.value) != "" ==>
      r.message == AccessError(CheckAccess(s, claims.userId, claims.orgId, groupId.value))
  {
    if !Truthy(groupId) || content.None? || Trim(content.value) == "" then
      Refuse(FieldsRequired)
    else
      match CheckAccess(s, claims.userId, claims.orgId, groupId.value)
      case Granted(_) => Store(groupId.value, Trim(content.value))
      case access => Refuse(AccessError(access))
  }

  /**
   * `send_message`: the checks run against the store on every call, whether
   * or not the socket joined the room; then the trimmed content is stored,
   * and only after the store accepted it is the stored record broadcast to
   * the room of the caller's organization. A store call that raises, be it
   * the group or membership lookup (once the fields are present) or the
   * write, gets the caller 'Internal error' and nothing is broadcast.
   */
  method SendMessage(db: Db, io: Registry, socket: Socket, groupId: Option<string>, content: Option<string>, fault: Fault)
    requires db.Valid() && socket.user.Some?
    modifies db, io
    ensures db.Valid()
    ensures old(db.TenantConsistent()) ==> db.TenantConsistent()
    ensures io.rooms == old(io.rooms)
    ensures var plan := PlanSend(old(db.data), socket.user.value, groupId, content);
      var lookupFails := fault == AtLookup && plan != Refuse(FieldsRequired);
      && (lookupFails || (plan.Store? && fault == AtWrite) ==>
            db.data == old(db.data) && io.outbox == old(io.outbox) + [ToSocket(socket.id, ErrorEvent("Internal error"))])
      && (plan.Refuse? && !lookupFails ==>
            db.data == old(db.data) && io.outbox == old(io.outbox) + [ToSocket(socket.id, ErrorEvent(plan.message))])
      && (plan.Store? && fault == NoFault ==>
            |db.data.messages| == |old(db.data.messages)| + 1
            && var row := db.data.messages[|db.data.messages| - 1];
            var room := RoomName(socket.user.value.orgId, plan.groupId);
            && row.content == plan.content && row.userId == socket.user.value.userId && row.groupId == plan.groupId
            && db.data == WithMessage(old(db.data), row)
            && io.outbox == old(io.outbox) + [ToRoom(room, MembersOf(old(io.rooms), room),
                                                      ReceiveMessage(Record(db.data, row).Payload()))])
  {
    var claims := socket.user.value;
    var plan := PlanSend(db.data, claims, groupId, content);
    if fault == AtLookup && plan != Refuse(FieldsRequired) {
      io.EmitTo(socket.id, ErrorEvent("Internal error"));
      return;
    }
    if plan.Refuse? {
      io.EmitTo(socket.id, ErrorEvent(plan.message));
      return;
    }
    var written := db.CreateMessage(plan.content, claims.userId, plan.groupId, fault == AtWrite);
    if written.Failed? {
      io.EmitTo(socket.id, ErrorEvent("Internal error"));
      return;
    }
    var room := RoomName(claims.orgId, plan.groupId);
    io.Broadcast(room, ReceiveMessage(written.row.Payload()));
  }
}
