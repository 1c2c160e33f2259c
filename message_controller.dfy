/**
 * The message endpoints (backend/src/controllers/message.controller.js):
 * the history of a group, read newest-first from the store and returned
 * oldest-first, and posting a message, which is stored and then pushed to
 * the group's room.
 */
module MessageController {
  import opened Wrappers
  import opened Types
  import opened Store
  import opened Rooms
  import opened Http
  import SocketHandler

  const AccessDenied := Response(403, ErrorBody("Access denied or group not found"))

  /**
   * `assertGroupMembership`: the group, if it exists, belongs to the
   * caller's organization and the caller is a member of it.
   */
  function AssertGroupMembership(s: Snapshot, userId: Id, groupId: Id, orgId: Id): (r: Option<GroupRow>)
    ensures r.Some? <==>
      groupId in s.groups && s.groups[groupId].orgId == orgId && MemberRow(userId, groupId) in s.members
    ensures r.Some? ==> r.value == s.groups[groupId]
  {
    if groupId !in s.groups || s.groups[groupId].orgId != orgId then None
    else if MemberRow(userId, groupId) in s.members then Some(s.groups[groupId])
    else None
  }

  /** The HTTP check grants exactly what the socket check grants. */
  lemma SameAccessAsSocket(s: Snapshot, userId: Id, groupId: Id, orgId: Id)
    ensures AssertGroupMembership(s, userId, groupId, orgId).Some?
        <==> SocketHandler.CheckAccess(s, userId, orgId, groupId).Granted?
    ensures AssertGroupMembership(s, userId, groupId, orgId).Some? ==>
      AssertGroupMembership(s, userId, groupId, orgId).value == SocketHandler.CheckAccess(s, userId, orgId, groupId).group
  {
  }

  /**
   * `Math.min(parseInt(req.query.limit) || 50, 100)` as written. `parsed` is
   * the result of `parseInt`, `None` standing for `NaN` (a missing or
   * non-numeric query parameter).
   */
  function EffectiveLimit(parsed: Option<int>): (r: int)
    ensures r <= 100 && r != 0
    ensures parsed.None? || parsed == Some(0) ==> r == 50
    ensures r < 0 <==> parsed.Some? && parsed.value < 0
    ensures parsed.Some? && parsed.value != 0 && parsed.value <= 100 ==> r == parsed.value
    ensures parsed.Some? && parsed.value > 100 ==> r == 100
  {
    var requested := if parsed.None? || parsed.value == 0 then 50 else parsed.value;
    if requested < 100 then requested else 100
  }

  /** The limit the endpoint evidently intends: between 1 and 100, 50 when not a positive number. */
  function HistoryLimit(parsed: Option<int>): (r: int)
    ensures 1 <= r <= 100
    ensures parsed.None? || parsed.value <= 0 ==> r == 50
    ensures parsed.Some? && 1 <= parsed.value <= 100 ==> r == parsed.value
  {
    if parsed.None? || parsed.value <= 0 then 50
    else if parsed.value < 100 then parsed.value else 100
  }

  /** Where the written limit is positive the two agree. */
  lemma HistoryLimitAgrees(parsed: Option<int>)
    ensures EffectiveLimit(parsed) > 0 ==> HistoryLimit(parsed) == EffectiveLimit(parsed)
  {
  }

  function Reverse<T>(s: seq<T>): (r: seq<T>)
    ensures |r| == |s|
    ensures forall i :: 0 <= i < |s| ==> r[i] == s[|s| - 1 - i]
  {
    seq(|s|, i requires 0 <= i < |s| => s[|s| - 1 - i])
  }

  lemma ReverseReverse<T>(s: seq<T>)
    ensures Reverse(Reverse(s)) == s
  {
  }

  function Min(a: int, b: int): int {
    if a < b then a else b
  }

  /**
   * `findMany({ orderBy: { createdAt: 'desc' }, take })` over the rows `ms`
   * (stored oldest first): a positive `take` keeps that many from the start
   * of the newest-first list, a negative one that many from its end.
   */
  function TakeNewestFirst(ms: seq<MessageRow>, take: int): (r: seq<MessageRow>)
    ensures take >= 0 ==> |r| == Min(take, |ms|)
    ensures take < 0 ==> |r| == Min(-take, |ms|)
  {
    var desc := Reverse(ms);
    if take >= 0 then desc[..Min(take, |desc|)]
    else desc[|desc| - Min(-take, |desc|)..]
  }

  /** The newest `n` rows, oldest first. */
  function Newest(ms: seq<MessageRow>, n: nat): (r: seq<MessageRow>)
    ensures |r| == Min(n, |ms|) && r == ms[|ms| - |r|..]
  {
    ms[|ms| - Min(n, |ms|)..]
  }

  /** A positive limit followed by `reverse()` returns the newest rows, oldest first. */
  lemma PositiveTakeReversed(ms: seq<MessageRow>, take: int)
    requires take > 0
    ensures Reverse(TakeNewestFirst(ms, take)) == Newest(ms, take)
  {
  }

  /** A negative limit followed by `reverse()` returns the oldest rows, oldest first. */
  lemma NegativeTakeReversed(ms: seq<MessageRow>, take: int)
    requires take < 0
    ensures Reverse(TakeNewestFirst(ms, take)) == ms[..Min(-take, |ms|)]
  {
  }

  /**
   * With `?limit=-500` on a group holding at least 500 messages the
   * endpoint returns 500 messages, more than the cap of 100, and they are
   * the oldest ones rather than the newest.
   */
  lemma NegativeLimitEscapesCap(ms: seq<MessageRow>)
    requires |ms| >= 500
    ensures EffectiveLimit(Some(-500)) == -500
    ensures Reverse(TakeNewestFirst(ms, EffectiveLimit(Some(-500)))) == ms[..500]
    ensures |Reverse(TakeNewestFirst(ms, EffectiveLimit(Some(-500))))| == 500
  {
    NegativeTakeReversed(ms, -500);
  }

  /** The rows returned for a history request, oldest first. */
  function HistoryRows(s: Snapshot, groupId: Id, limit: nat): seq<MessageRow> {
    Newest(OfGroup(s.messages, groupId), limit)
  }

  /**
   * The history is bounded by the limit, holds only the group's messages,
   * is in creation order, and nothing of the group it leaves out is newer
   * than what it returns.
   */
  lemma HistoryIsNewestInOrder(s: Snapshot, groupId: Id, limit: nat)
    requires StrictlyIncreasing(s.messages)
    ensures |HistoryRows(s, groupId, limit)| <= limit
    ensures forall m :: m in HistoryRows(s, groupId, limit) ==> m in s.messages && m.groupId == groupId
    ensures StrictlyIncreasing(HistoryRows(s, groupId, limit))
    ensures forall m, k :: m in s.messages && m.groupId == groupId && m !in HistoryRows(s, groupId, limit)
                         && 0 <= k < |HistoryRows(s, groupId, limit)|
                         ==> m.createdAt < HistoryRows(s, groupId, limit)[k].createdAt
  {
    var all := OfGroup(s.messages, groupId);
    OfGroupMembers(s.messages, groupId);
    OfGroupIncreasing(s.messages, groupId);
    NewestIsNewest(all, limit);
  }

  /** In a list in creation order, whatever the newest `n` leave out is older than all of them. */
  lemma NewestIsNewest(ms: seq<MessageRow>, n: nat)
    requires StrictlyIncreasing(ms)
    ensures StrictlyIncreasing(Newest(ms, n))
    ensures forall m :: m in Newest(ms, n) ==> m in ms
    ensures forall m, k :: m in ms && m !in Newest(ms, n) && 0 <= k < |Newest(ms, n)|
                         ==> m.createdAt < Newest(ms, n)[k].createdAt
  {
    var h := Newest(ms, n);
    var start := |ms| - |h|;
    forall m, k | m in ms && m !in h && 0 <= k < |h|
      ensures m.createdAt < h[k].createdAt
    {
      var j :| 0 <= j < |ms| && ms[j] == m;
      assert j < start;
      assert ms[start + k] == h[k];
    }
  }

  /** Every row with its author included. */
  function Records(s: Snapshot, ms: seq<MessageRow>): (r: seq<MessageRecord>)
    requires forall m :: m in ms ==> m.userId in s.users
    ensures |r| == |ms|
    ensures forall i :: 0 <= i < |ms| ==> r[i] == Record(s, ms[i])
  {
    seq(|ms|, i requires 0 <= i < |ms| => Record(s, ms[i]))
  }

  lemma RecordsReverse(s: Snapshot, ms: seq<MessageRow>)
    requires forall m :: m in ms ==> m.userId in s.users
    ensures Records(s, Reverse(ms)) == Reverse(Records(s, ms))
  {
  }

  /** Reverses `a` in place (`messages.reverse()`). */
  method ReverseInPlace<T>(a: array<T>)
    modifies a
    ensures a[..] == Reverse(old(a[..]))
  {
    ghost var before := a[..];
    var n := a.Length;
    var i := 0;
    while i < n / 2
      invariant 0 <= i <= n / 2
      invariant forall k :: 0 <= k < i ==> a[k] == before[n - 1 - k] && a[n - 1 - k] == before[k]
      invariant forall k :: i <= k < n - i ==> a[k] == before[k]
    {
      a[i], a[n - 1 - i] := a[n - 1 - i], a[i];
      i := i + 1;
    }
  }

  /** Every stored message has a known author, so each can be returned with it. */
  predicate AuthorsKnown(s: Snapshot) {
    forall m :: m in s.messages ==> m.userId in s.users
  }

  lemma ConsistentAuthorsKnown(s: Snapshot)
    requires Consistent(s)
    ensures AuthorsKnown(s)
  {
  }

  /** The history a request with this limit receives: the rows of `HistoryRows` with their authors. */
  function History(s: Snapshot, groupId: Id, limit: nat): (r: seq<MessageRecord>)
    requires AuthorsKnown(s)
    ensures |r| == |HistoryRows(s, groupId, limit)| <= limit
    ensures forall i :: 0 <= i < |r| ==> r[i].id == HistoryRows(s, groupId, limit)[i].id
  {
    OfGroupMembers(s.messages, groupId);
    Records(s, HistoryRows(s, groupId, limit))
  }

  /**
   * The query and the `reverse()` of `getMessages`: fetch newest first,
   * then reverse the fetched array in place.
   */
  method LoadHistory(s: Snapshot, groupId: Id, limit: int) returns (records: seq<MessageRecord>)
    requires AuthorsKnown(s) && limit > 0
    ensures records == History(s, groupId, limit)
  {
    var all := OfGroup(s.messages, groupId);
    OfGroupMembers(s.messages, groupId);
    var fetched := TakeNewestFirst(all, limit);
    assert forall m :: m in fetched ==> m.userId in s.users;
    var a := new MessageRecord[|fetched|](i requires 0 <= i < |fetched| => Record(s, fetched[i]));
    assert a[..] == Records(s, fetched);
    ReverseInPlace(a);
    PositiveTakeReversed(all, limit);
    RecordsReverse(s, fetched);
    records := a[..];
  }

  /**
   * `getMessages`: 403 unless the caller may read the group; otherwise the
   * newest messages of the group up to the limit, oldest first, each with
   * its author. `fault` is the store failing the first lookup.
   */
  method GetMessages(db: Db, claims: JwtPayload, groupId: Id, parsedLimit: Option<int>, fault: bool)
    returns (res: Response)
    requires db.Valid()
    ensures fault ==> res == InternalError
    ensures !fault && AssertGroupMembership(db.data, claims.userId, groupId, claims.orgId).None? ==> res == AccessDenied
    ensures !fault && AssertGroupMembership(db.data, claims.userId, groupId, claims.orgId).Some? ==>
      (ConsistentAuthorsKnown(db.data);
       res == Response(200, MessagesBody(History(db.data, groupId, HistoryLimit(parsedLimit)))))
  {
    var limit := HistoryLimit(parsedLimit);
    ConsistentAuthorsKnown(db.data);
    if fault {
      return InternalError;
    }
    if AssertGroupMembership(db.data, claims.userId, groupId, claims.orgId).None? {
      return AccessDenied;
    }
    var records := LoadHistory(db.data, groupId, limit);
    res := Response(200, MessagesBody(records));
  }

  /** The room the HTTP path broadcasts to, written out in the controller. */
  function BroadcastRoom(orgId: Id, groupId: Id): string {
    "org:" + orgId + ":group:" + groupId
  }

  /** Both ingress paths reach the same subscribers. */
  lemma SameRoomAsSocket(orgId: Id, groupId: Id)
    ensures BroadcastRoom(orgId, groupId) == SocketHandler.RoomName(orgId, groupId)
  {
  }

  /** What `sendMessage` does before touching the store: answer at once, or store the message. */
  datatype PostPlan = Answer(response: Response) | Persist

  /** The checks of `sendMessage`, in order: validation, then group and membership. */
  function PlanPost(s: Snapshot, claims: JwtPayload, groupId: Id, errors: seq<FieldError>): (r: PostPlan)
    ensures errors != [] ==> r == Answer(Response(400, ValidationBody(errors)))
    ensures errors == [] && AssertGroupMembership(s, claims.userId, groupId, claims.orgId).None? ==> r == Answer(AccessDenied)
    ensures r == Persist <==> errors == [] && AssertGroupMembership(s, claims.userId, groupId, claims.orgId).Some?
  {
    if errors != [] then Answer(Response(400, ValidationBody(errors)))
    else if AssertGroupMembership(s, claims.userId, groupId, claims.orgId).None? then Answer(AccessDenied)
    else Persist
  }

  /** The event a stored message is broadcast with, to whom, when a reply says it was stored. */
  function Announced(rooms: map<string, set<ConnId>>, room: string, res: Response): (r: seq<Emission>)
    ensures res.status == 201 && res.body.MessageBody? ==>
      r == [ToRoom(room, MembersOf(rooms, room), ReceiveMessage(res.body.record.Payload()))]
    ensures !(res.status == 201 && res.body.MessageBody?) ==> r == []
  {
    if res.status == 201 && res.body.MessageBody? then
      [ToRoom(room, MembersOf(rooms, room), ReceiveMessage(res.body.record.Payload()))]
    else []
  }

  /**
   * `sendMessage`: validation errors answer 400 before any lookup; then the
   * access check answers 403; then the message is stored, and only after
   * the store accepted it is the stored record broadcast, when a socket
   * server is attached. The reply is the stored record either way. A store
   * call that raises, be it a lookup of the access check (once validation
   * passed) or the write, answers 500 and nothing is broadcast.
   */
  method SendMessage(db: Db, io: Registry?, claims: JwtPayload, groupId: Id, errors: seq<FieldError>,
                     content: string, fault: Fault) returns (res: Response)
    requires db.Valid()
    modifies db, io
    ensures db.Valid()
    ensures old(db.TenantConsistent()) ==> db.TenantConsistent()
    ensures var plan := PlanPost(old(db.data), claims, groupId, errors);
      var lookupFails := fault == AtLookup && errors == [];
      && (lookupFails || (plan.Persist? && fault == AtWrite) ==> res == InternalError && db.data == old(db.data))
      && (plan.Answer? && !lookupFails ==> res == plan.response && db.data == old(db.data))
      && (plan.Persist? && fault == NoFault ==>
            && res.status == 201 && res.body.MessageBody?
            && var row := MessageRow(res.body.record.id, content, claims.userId, groupId, old(db.data.clock));
            && (forall m :: m in old(db.data.messages) ==> m.id != row.id)
            && db.data == WithMessage(old(db.data), row)
            && res.body.record == Record(old(db.data), row))
    ensures io != null ==>
      && io.rooms == old(io.rooms)
      && io.outbox == old(io.outbox) + Announced(old(io.rooms), BroadcastRoom(claims.orgId, groupId), res)
  {
    var plan := PlanPost(db.data, claims, groupId, errors);
    if fault == AtLookup && errors == [] {
      return InternalError;
    }
    if plan.Answer? {
      return plan.response;
    }
    var written := db.CreateMessage(content, claims.userId, groupId, fault == AtWrite);
    if written.Failed? {
      return InternalError;
    }
    res := Response(201, MessageBody(written.row));
    if io != null {
      io.Broadcast(BroadcastRoom(claims.orgId, groupId), ReceiveMessage(written.row.Payload()));
    }
  }
}
