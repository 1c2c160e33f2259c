/**
 * The group endpoints (backend/src/controllers/group.controller.js):
 * creating a group in the caller's organization, listing the caller's
 * groups, and adding a member of the same organization to a group.
 */
module GroupController {
  import opened Types
  import opened Store
  import opened Http

  const NameConflict := Response(409, ErrorBody("Group name already exists in this organization"))
  const GroupNotFound := Response(404, ErrorBody("Group not found"))
  const UserNotFound := Response(404, ErrorBody("User not found in this organization"))
  const MemberAdded := Response(200, InfoBody("Member added successfully"))

  /**
   * `createGroup`: the organization is always the caller's own, never one
   * taken from the request. A name already used in that organization
   * answers 409; any other store failure 500.
   */
  method CreateGroup(db: Db, claims: JwtPayload, errors: seq<FieldError>, name: string, fault: bool)
    returns (res: Response)
    requires db.Valid()
    modifies db
    ensures db.Valid()
    ensures old(db.TenantConsistent()) ==> db.TenantConsistent()
    ensures res.status != 201 ==> db.data == old(db.data)
    ensures errors != [] ==> res == Response(400, ValidationBody(errors))
    ensures errors == [] && (fault || claims.orgId !in old(db.data.orgs)) ==> res == InternalError
    ensures errors == [] && !fault && claims.orgId in old(db.data.orgs) && NameTaken(old(db.data.groups), claims.orgId, name) ==>
      res == NameConflict
    ensures errors == [] && !fault && claims.orgId in old(db.data.orgs) && !NameTaken(old(db.data.groups), claims.orgId, name) ==>
      && res.status == 201 && res.body.GroupBody?
      && res.body.group.name == name && res.body.group.orgId == claims.orgId
      && res.body.group.id !in old(db.data.groups)
      && db.data == WithGroup(old(db.data), res.body.group)
  {
    if errors != [] {
      return Response(400, ValidationBody(errors));
    }
    var written := db.CreateGroup(name, claims.orgId, fault);
    match written
    case Failed(UniqueViolation) => res := NameConflict;
    case Failed(_) => res := InternalError;
    case Wrote(group) => res := Response(201, GroupBody(group));
  }

  /**
   * The groups listed for `userId`: its memberships in table order, each
   * mapped to its group, keeping only the groups of organization `orgId`.
   */
  function GroupsOf(members: seq<MemberRow>, groups: map<Id, GroupRow>, userId: Id, orgId: Id): (r: seq<GroupRow>)
    requires forall m :: m in members ==> m.groupId in groups
    ensures |r| <= |members|
    ensures forall g :: g in r ==> g.orgId == orgId
    decreases |members|
  {
    if members == [] then []
    else
      var rest := GroupsOf(members[1..], groups, userId, orgId);
      var g := groups[members[0].groupId];
      if members[0].userId == userId && g.orgId == orgId then [g] + rest else rest
  }

  /** The same memberships mapped to their groups, without the organization filter. */
  function MembershipGroups(members: seq<MemberRow>, groups: map<Id, GroupRow>, userId: Id): (r: seq<GroupRow>)
    requires forall m :: m in members ==> m.groupId in groups
    ensures |r| <= |members|
    decreases |members|
  {
    if members == [] then []
    else
      var rest := MembershipGroups(members[1..], groups, userId);
      if members[0].userId == userId then [groups[members[0].groupId]] + rest else rest
  }

  /**
   * A group is listed exactly when the user is a member of it and it
   * belongs to the caller's organization.
   */
  lemma {:induction false} ListedIff(members: seq<MemberRow>, groups: map<Id, GroupRow>, userId: Id, orgId: Id, g: GroupRow)
    requires forall m :: m in members ==> m.groupId in groups
    requires forall id :: id in groups ==> groups[id].id == id
    ensures g in GroupsOf(members, groups, userId, orgId) <==>
      g.id in groups && groups[g.id] == g && g.orgId == orgId && MemberRow(userId, g.id) in members
    decreases |members|
  {
    if members != [] {
      ListedIff(members[1..], groups, userId, orgId, g);
      assert members == [members[0]] + members[1..];
      assert forall x :: x in members <==> x == members[0] || x in members[1..];
    }
  }

  /** Row `a` occurs in `members` before row `b`. */
  ghost predicate Precedes(members: seq<MemberRow>, a: MemberRow, b: MemberRow) {
    exists p, q :: 0 <= p < q < |members| && members[p] == a && members[q] == b
  }

  /** Each pair of listed groups appears in the order of the caller's membership rows for them. */
  ghost predicate InMembershipOrder(members: seq<MemberRow>, userId: Id, r: seq<GroupRow>) {
    forall i, j :: 0 <= i < j < |r| ==> Precedes(members, MemberRow(userId, r[i].id), MemberRow(userId, r[j].id))
  }

  /** A list in membership order, over a duplicate-free membership table, holds no group twice. */
  lemma OrderedListDistinct(members: seq<MemberRow>, userId: Id, r: seq<GroupRow>)
    requires NoDuplicates(members)
    requires InMembershipOrder(members, userId, r)
    ensures forall i, j :: 0 <= i < j < |r| ==> r[i] != r[j]
  {
    forall i, j | 0 <= i < j < |r|
      ensures r[i] != r[j]
    {
      assert Precedes(members, MemberRow(userId, r[i].id), MemberRow(userId, r[j].id));
    }
  }

  /** Prepending a row keeps every earlier precedence. */
  lemma PrecedesCons(m: MemberRow, tail: seq<MemberRow>, a: MemberRow, b: MemberRow)
    requires Precedes(tail, a, b)
    ensures Precedes([m] + tail, a, b)
  {
    var p, q :| 0 <= p < q < |tail| && tail[p] == a && tail[q] == b;
    assert ([m] + tail)[p + 1] == a && ([m] + tail)[q + 1] == b;
  }

  /** The head row precedes every row of the tail. */
  lemma HeadPrecedes(m: MemberRow, tail: seq<MemberRow>, b: MemberRow)
    requires b in tail
    ensures Precedes([m] + tail, m, b)
  {
    var q :| 0 <= q < |tail| && tail[q] == b;
    assert ([m] + tail)[0] == m && ([m] + tail)[q + 1] == b;
  }

  /**
   * The list follows the membership table: two listed groups appear in the
   * order of the caller's membership rows for them, so with a
   * duplicate-free membership table no group is listed twice.
   */
  lemma {:induction false} ListedInMembershipOrder(members: seq<MemberRow>, groups: map<Id, GroupRow>, userId: Id, orgId: Id)
    requires forall m :: m in members ==> m.groupId in groups
    requires forall id :: id in groups ==> groups[id].id == id
    ensures InMembershipOrder(members, userId, GroupsOf(members, groups, userId, orgId))
    decreases |members|
  {
    var r := GroupsOf(members, groups, userId, orgId);
    if members != [] {
      var tail := members[1..];
      assert members == [members[0]] + tail;
      assert forall m :: m in tail ==> m in members;
      ListedInMembershipOrder(tail, groups, userId, orgId);
      var rest := GroupsOf(tail, groups, userId, orgId);
      forall i, j | 0 <= i < j < |r|
        ensures Precedes(members, MemberRow(userId, r[i].id), MemberRow(userId, r[j].id))
      {
        if r == rest {
          PrecedesCons(members[0], tail, MemberRow(userId, r[i].id), MemberRow(userId, r[j].id));
        } else if i == 0 {
          assert r[j] == rest[j - 1];
          ListedIff(tail, groups, userId, orgId, r[j]);
          HeadPrecedes(members[0], tail, MemberRow(userId, r[j].id));
        } else {
          assert r[i] == rest[i - 1] && r[j] == rest[j - 1];
          PrecedesCons(members[0], tail, MemberRow(userId, r[i].id), MemberRow(userId, r[j].id));
        }
      }
    }
  }

  /**
   * Where memberships never cross organizations and the caller belongs to
   * `orgId`, the organization filter removes nothing: it is a second line of
   * defence, not the one that separates tenants.
   */
  lemma {:induction false} FilterIsRedundant(members: seq<MemberRow>, s: Snapshot, userId: Id, orgId: Id)
    requires forall m :: m in members ==> m.groupId in s.groups && SameOrg(s, m.userId, m.groupId)
    requires userId in s.users && s.users[userId].orgId == orgId
    ensures GroupsOf(members, s.groups, userId, orgId) == MembershipGroups(members, s.groups, userId)
    decreases |members|
  {
    if members != [] {
      assert members[0] in members;
      assert forall m :: m in members[1..] ==> m in members;
      FilterIsRedundant(members[1..], s, userId, orgId);
    }
  }

  /**
   * `listGroups`: the caller's groups in its organization; 500 when the
   * store fails the query (`fault`).
   */
  method ListGroups(db: Db, claims: JwtPayload, fault: bool) returns (res: Response)
    requires db.Valid()
    ensures fault ==> res == InternalError
    ensures !fault ==>
      && res.status == 200 && res.body.GroupsBody?
      && res.body.groups == GroupsOf(db.data.members, db.data.groups, claims.userId, claims.orgId)
      && (forall i, j :: 0 <= i < j < |res.body.groups| ==> res.body.groups[i] != res.body.groups[j])
      && InMembershipOrder(db.data.members, claims.userId, res.body.groups)
      && (forall g :: g in res.body.groups ==>
            g.id in db.data.groups && db.data.groups[g.id] == g && g.orgId == claims.orgId
            && MemberRow(claims.userId, g.id) in db.data.members)
      && (forall id :: (id in db.data.groups && db.data.groups[id].orgId == claims.orgId
                        && MemberRow(claims.userId, id) in db.data.members) ==> db.data.groups[id] in res.body.groups)
  {
    if fault {
      return InternalError;
    }
    var groups := GroupsOf(db.data.members, db.data.groups, claims.userId, claims.orgId);
    forall g | g in groups
      ensures g.id in db.data.groups && db.data.groups[g.id] == g && MemberRow(claims.userId, g.id) in db.data.members
    {
      ListedIff(db.data.members, db.data.groups, claims.userId, claims.orgId, g);
    }
    forall id | id in db.data.groups && db.data.groups[id].orgId == claims.orgId && MemberRow(claims.userId, id) in db.data.members
      ensures db.data.groups[id] in groups
    {
      ListedIff(db.data.members, db.data.groups, claims.userId, claims.orgId, db.data.groups[id]);
    }
    ListedInMembershipOrder(db.data.members, db.data.groups, claims.userId, claims.orgId);
    OrderedListDistinct(db.data.members, claims.userId, groups);
    res := Response(200, GroupsBody(groups));
  }

  /**
   * The checks of `addMember` after validation, in order: the group must be
   * in the caller's organization, then the target user must be. Returns the
   * refusal, if any.
   */
  function AddMemberOutcome(s: Snapshot, orgId: Id, groupId: Id, targetUserId: Id): (r: Response)
    ensures r == GroupNotFound <==> groupId !in s.groups || s.groups[groupId].orgId != orgId
    ensures r == UserNotFound <==>
      groupId in s.groups && s.groups[groupId].orgId == orgId
      && (targetUserId !in s.users || s.users[targetUserId].orgId != orgId)
    ensures r == MemberAdded <==> SameOrg(s, targetUserId, groupId) && s.groups[groupId].orgId == orgId
  {
    if groupId !in s.groups || s.groups[groupId].orgId != orgId then GroupNotFound
    else if targetUserId !in s.users || s.users[targetUserId].orgId != orgId then UserNotFound
    else MemberAdded
  }

  /**
   * `addMember`: an administrator can only link a group and a user that are
   * both in the administrator's own organization, so the tenant invariant
   * holds afterwards whatever the request says. Adding an existing member
   * changes nothing. A store call that raises, be it a lookup or the
   * upsert, answers 500 with nothing written.
   */
  method AddMember(db: Db, claims: JwtPayload, errors: seq<FieldError>, groupId: Id, targetUserId: Id, fault: Fault)
    returns (res: Response)
    requires db.Valid()
    modifies db
    ensures db.Valid()
    ensures old(db.TenantConsistent()) ==> db.TenantConsistent()
    ensures res != MemberAdded ==> db.data == old(db.data)
    ensures errors != [] ==> res == Response(400, ValidationBody(errors))
    ensures errors == [] && fault == AtLookup ==> res == InternalError
    ensures errors == [] && fault == AtWrite ==>
      var outcome := AddMemberOutcome(old(db.data), claims.orgId, groupId, targetUserId);
      res == if outcome == MemberAdded then InternalError else outcome
    ensures errors == [] && fault == NoFault ==> res == AddMemberOutcome(old(db.data), claims.orgId, groupId, targetUserId)
    ensures res == MemberAdded ==> db.data == WithMember(old(db.data), MemberRow(targetUserId, groupId))
  {
    if errors != [] {
      return Response(400, ValidationBody(errors));
    }
    if fault == AtLookup {
      return InternalError;
    }
    res := AddMemberOutcome(db.data, claims.orgId, groupId, targetUserId);
    if res != MemberAdded {
      return;
    }
    var written := db.UpsertMember(targetUserId, groupId, fault == AtWrite);
    if written.Failed? {
      return InternalError;
    }
  }

  /** Adding the same member twice leaves the store as adding it once. */
  lemma AddMemberIdempotent(s: Snapshot, row: MemberRow)
    ensures WithMember(WithMember(s, row), row) == WithMember(s, row)
  {
    UpsertIdempotent(s.members, row);
  }

  /** After `addMember` the membership exists exactly once. */
  lemma AddedOnce(s: Snapshot, row: MemberRow)
    requires Consistent(s)
    ensures row in WithMember(s, row).members
    ensures Count(WithMember(s, row).members, row) == 1
  {
    UpsertKeepsKeyUnique(s.members, row);
  }
}
