/**
 * The persistence store (Prisma over a relational database) as an in-memory
 * object. Tables keyed by id are maps; the unique indexes on organization
 * name and user email are maps from the key to the id; memberships and
 * messages are sequences in insertion order. The store enforces its own
 * constraints (unique keys, foreign keys) by failing the write, as the
 * database does, and it assigns ids and creation times.
 */
module Store {
  import opened Wrappers
  import opened Types

  datatype OrgRow = OrgRow(id: Id, name: string)
  datatype UserRow = UserRow(id: Id, email: string, passwordHash: string, role: Role, orgId: Id)
  datatype GroupRow = GroupRow(id: Id, name: string, orgId: Id, createdAt: nat)
  datatype MemberRow = MemberRow(userId: Id, groupId: Id)
  datatype MessageRow = MessageRow(id: Id, content: string, userId: Id, groupId: Id, createdAt: nat)

  /** A message read with its author's `{ id, email }` included. */
  datatype MessageRecord =
    MessageRecord(id: Id, content: string, userId: Id, groupId: Id, createdAt: nat, user: MessageSender)
  {
    /** The `receive_message` payload built from a stored record. */
    function Payload(): (p: ReceiveMessagePayload)
      ensures p.id == id && p.content == content && p.groupId == groupId
      ensures p.sender == user && p.createdAt == createdAt
    {
      ReceiveMessagePayload(id, content, groupId, user, createdAt)
    }
  }

  /** A message row with its author's id and email (`include: { user: { select: { id, email } } }`). */
  function Record(s: Snapshot, m: MessageRow): (r: MessageRecord)
    requires m.userId in s.users
    ensures r.id == m.id && r.content == m.content && r.userId == m.userId
    ensures r.groupId == m.groupId && r.createdAt == m.createdAt
    ensures r.user == MessageSender(m.userId, s.users[m.userId].email)
  {
    MessageRecord(m.id, m.content, m.userId, m.groupId, m.createdAt,
                  MessageSender(m.userId, s.users[m.userId].email))
  }

  /** Why a write was refused: unique key (P2002), foreign key (P2003), or the store is down. */
  datatype StoreError = UniqueViolation | ForeignKeyViolation | Unavailable

  /**
   * Which store call of a handler raises, for handlers that read before they
   * write: none, the first of its lookups, or its write. A lookup that raises
   * ends the handler before any later check, so one position stands for all
   * of its lookups.
   */
  datatype Fault = NoFault | AtLookup | AtWrite

  /** The two rows the registration transaction writes. */
  datatype OrgAndAdmin = OrgAndAdmin(org: OrgRow, admin: UserRow)

  datatype Written<T> = Wrote(row: T) | Failed(error: StoreError)

  /** The contents of every table. */
  datatype Snapshot = Snapshot(
    orgs: map<Id, OrgRow>, orgByName: map<string, Id>,
    users: map<Id, UserRow>, userByEmail: map<string, Id>,
    groups: map<Id, GroupRow>, members: seq<MemberRow>,
    messages: seq<MessageRow>, clock: nat)

  /** Ids the store mints never contain ':'. */
  predicate Mintable(id: Id) {
    ':' !in id
  }

  /** `ms` in order, keeping the rows of group `groupId`: `where: { groupId }`. */
  function OfGroup(ms: seq<MessageRow>, groupId: Id): (r: seq<MessageRow>)
    ensures |r| <= |ms|
  {
    if ms == [] then []
    else (if ms[0].groupId == groupId then [ms[0]] else []) + OfGroup(ms[1..], groupId)
  }

  /** Appending a row stamped after every existing one keeps the table in clock order. */
  lemma AppendIncreasing(ms: seq<MessageRow>, row: MessageRow)
    requires StrictlyIncreasing(ms)
    requires forall i :: 0 <= i < |ms| ==> ms[i].createdAt < row.createdAt
    ensures StrictlyIncreasing(ms + [row])
  {
  }

  /** The filter keeps exactly the rows of the group. */
  lemma {:induction false} OfGroupMembers(ms: seq<MessageRow>, groupId: Id)
    ensures forall m :: m in OfGroup(ms, groupId) <==> m in ms && m.groupId == groupId
  {
    if ms != [] {
      OfGroupMembers(ms[1..], groupId);
      assert ms == [ms[0]] + ms[1..];
    }
  }

  predicate StrictlyIncreasing(ms: seq<MessageRow>) {
    forall i, j :: 0 <= i < j < |ms| ==> ms[i].createdAt < ms[j].createdAt
  }

  /** Filtering keeps creation order. */
  lemma {:induction false} OfGroupIncreasing(ms: seq<MessageRow>, groupId: Id)
    requires StrictlyIncreasing(ms)
    ensures StrictlyIncreasing(OfGroup(ms, groupId))
  {
    if ms != [] {
      OfGroupIncreasing(ms[1..], groupId);
      OfGroupMembers(ms[1..], groupId);
      var rest := OfGroup(ms[1..], groupId);
      forall m | m in rest ensures ms[0].createdAt < m.createdAt {
        var k :| 0 <= k < |ms[1..]| && ms[1..][k] == m;
        assert ms[k + 1] == m;
      }
    }
  }

  /** A message appended to the store is the newest of its group and nothing else moves. */
  lemma {:induction false} OfGroupAppend(ms: seq<MessageRow>, m: MessageRow, groupId: Id)
    ensures OfGroup(ms + [m], groupId)
         == OfGroup(ms, groupId) + (if m.groupId == groupId then [m] else [])
  {
    var last := if m.groupId == groupId then [m] else [];
    if ms == [] {
      assert [m][1..] == [];
      assert OfGroup([m], groupId) == last + OfGroup([], groupId);
    } else {
      var first := if ms[0].groupId == groupId then [ms[0]] else [];
      assert (ms + [m])[0] == ms[0];
      assert (ms + [m])[1..] == ms[1..] + [m];
      OfGroupAppend(ms[1..], m, groupId);
      assert OfGroup(ms + [m], groupId) == first + (OfGroup(ms[1..], groupId) + last);
      assert first + (OfGroup(ms[1..], groupId) + last) == (first + OfGroup(ms[1..], groupId)) + last;
    }
  }

  /** `upsert` on the membership table with an empty update. */
  function Upserted(members: seq<MemberRow>, row: MemberRow): (r: seq<MemberRow>)
    ensures row in r
    ensures forall x :: x in r <==> x in members || x == row
  {
    if row in members then members else members + [row]
  }

  function Count(members: seq<MemberRow>, row: MemberRow): nat {
    |set i | 0 <= i < |members| && members[i] == row|
  }

  predicate NoDuplicates(members: seq<MemberRow>) {
    forall i, j :: 0 <= i < j < |members| ==> members[i] != members[j]
  }

  /** Upserting the same key again changes nothing. */
  lemma UpsertIdempotent(members: seq<MemberRow>, row: MemberRow)
    ensures Upserted(Upserted(members, row), row) == Upserted(members, row)
  {
  }

  /** Upserting keeps the table free of duplicate keys, so the key occurs exactly once. */
  lemma UpsertKeepsKeyUnique(members: seq<MemberRow>, row: MemberRow)
    requires NoDuplicates(members)
    ensures NoDuplicates(Upserted(members, row))
    ensures Count(Upserted(members, row), row) == 1
  {
    var r := Upserted(members, row);
    var k :| 0 <= k < |r| && r[k] == row;
    assert (set i | 0 <= i < |r| && r[i] == row) == {k};
  }

  /** Some string is neither used nor contains ':'. */
  lemma FreshIdExists(used: set<Id>)
    ensures exists id :: id !in used && Mintable(id)
  {
    var n := LongerThanAll(used);
    var id := seq(n, _ => 'c');
    assert id !in used && Mintable(id);
  }

  lemma {:induction false} LongerThanAll(used: set<Id>) returns (n: nat)
    ensures forall id :: id in used ==> |id| < n
  {
    if used == {} {
      n := 0;
    } else {
      var id :| id in used;
      var m := LongerThanAll(used - {id});
      n := if m > |id| then m else |id| + 1;
    }
  }

  /** Organization ids are keys; names are unique. */
  ghost predicate OrgsOk(orgs: map<Id, OrgRow>, orgByName: map<string, Id>) {
    && (forall id :: id in orgs ==> orgs[id].id == id && Mintable(id))
    && (forall n {:trigger orgByName[n]} :: n in orgByName ==> orgByName[n] in orgs && orgs[orgByName[n]].name == n)
    && (forall id :: id in orgs ==> orgs[id].name in orgByName)
    && (forall a, b :: a in orgs && b in orgs && orgs[a].name == orgs[b].name ==> a == b)
  }

  /** User ids are keys; emails are unique; each user belongs to an organization. */
  ghost predicate UsersOk(users: map<Id, UserRow>, userByEmail: map<string, Id>, orgs: map<Id, OrgRow>) {
    && (forall id :: id in users ==> users[id].id == id && users[id].orgId in orgs)
    && (forall e {:trigger userByEmail[e]} :: e in userByEmail ==> userByEmail[e] in users && users[userByEmail[e]].email == e)
    && (forall id :: id in users ==> users[id].email in userByEmail)
    && (forall a, b :: a in users && b in users && users[a].email == users[b].email ==> a == b)
  }

  /** Group ids are keys; each group belongs to an organization; names are unique per organization. */
  ghost predicate GroupsOk(groups: map<Id, GroupRow>, orgs: map<Id, OrgRow>) {
    && (forall id :: id in groups ==> groups[id].id == id && groups[id].orgId in orgs)
    && (forall a, b :: (a in groups && b in groups && groups[a].orgId == groups[b].orgId
                        && groups[a].name == groups[b].name) ==> a == b)
  }

  /** Memberships reference existing rows and their key is unique. */
  ghost predicate MembersOk(members: seq<MemberRow>, users: map<Id, UserRow>, groups: map<Id, GroupRow>) {
    && (forall m :: m in members ==> m.userId in users && m.groupId in groups)
    && NoDuplicates(members)
  }

  /** Messages reference existing rows and were stamped in increasing clock order. */
  ghost predicate MessagesOk(messages: seq<MessageRow>, users: map<Id, UserRow>, groups: map<Id, GroupRow>, clock: nat) {
    && (forall i :: 0 <= i < |messages| ==>
          messages[i].userId in users && messages[i].groupId in groups && messages[i].createdAt < clock)
    && StrictlyIncreasing(messages)
  }

  /** The constraints the database schema enforces. */
  ghost predicate Consistent(s: Snapshot) {
    && OrgsOk(s.orgs, s.orgByName)
    && UsersOk(s.users, s.userByEmail, s.orgs)
    && GroupsOk(s.groups, s.orgs)
    && MembersOk(s.members, s.users, s.groups)
    && MessagesOk(s.messages, s.users, s.groups, s.clock)
  }

  /** Adding organizations keeps users and groups valid. */
  lemma OrgsGrow(s: Snapshot, orgs: map<Id, OrgRow>)
    requires UsersOk(s.users, s.userByEmail, s.orgs) && GroupsOk(s.groups, s.orgs)
    requires s.orgs.Keys <= orgs.Keys
    ensures UsersOk(s.users, s.userByEmail, orgs) && GroupsOk(s.groups, orgs)
  {
  }

  /** Adding users or groups, or advancing the clock, keeps memberships and messages valid. */
  lemma RowsGrow(s: Snapshot, users: map<Id, UserRow>, groups: map<Id, GroupRow>, clock: nat)
    requires MembersOk(s.members, s.users, s.groups) && MessagesOk(s.messages, s.users, s.groups, s.clock)
    requires s.users.Keys <= users.Keys && s.groups.Keys <= groups.Keys && s.clock <= clock
    ensures MembersOk(s.members, users, groups) && MessagesOk(s.messages, users, groups, clock)
  {
  }

  /**
   * The tenant invariant the request handlers maintain on top of the schema:
   * a membership or a message only links a user and a group of the same
   * organization.
   */
  ghost predicate TenantSeparated(s: Snapshot) {
    && (forall m :: m in s.members ==> SameOrg(s, m.userId, m.groupId))
    && (forall i :: 0 <= i < |s.messages| ==> SameOrg(s, s.messages[i].userId, s.messages[i].groupId))
  }

  /** User `userId` and group `groupId` exist and belong to the same organization. */
  predicate SameOrg(s: Snapshot, userId: Id, groupId: Id) {
    userId in s.users && groupId in s.groups && s.users[userId].orgId == s.groups[groupId].orgId
  }

  /** Some group of organization `orgId` is called `name`. */
  predicate NameTaken(groups: map<Id, GroupRow>, orgId: Id, name: string) {
    exists id :: id in groups && groups[id].orgId == orgId && groups[id].name == name
  }

  // The effect of each write on the store's contents.

  function WithOrgAndAdmin(s: Snapshot, org: OrgRow, admin: UserRow): Snapshot {
    s.(orgs := s.orgs[org.id := org], orgByName := s.orgByName[org.name := org.id],
       users := s.users[admin.id := admin], userByEmail := s.userByEmail[admin.email := admin.id])
  }

  function WithUser(s: Snapshot, user: UserRow): Snapshot {
    s.(users := s.users[user.id := user], userByEmail := s.userByEmail[user.email := user.id])
  }

  function WithGroup(s: Snapshot, group: GroupRow): Snapshot {
    s.(groups := s.groups[group.id := group], clock := s.clock + 1)
  }

  function WithMember(s: Snapshot, row: MemberRow): Snapshot {
    s.(members := Upserted(s.members, row))
  }

  function WithMessage(s: Snapshot, row: MessageRow): Snapshot {
    s.(messages := s.messages + [row], clock := s.clock + 1)
  }

  lemma OrgAndAdminKeepsConsistent(s: Snapshot, org: OrgRow, admin: UserRow)
    requires Consistent(s)
    requires org.id !in s.orgs && Mintable(org.id) && org.name !in s.orgByName
    requires admin.id !in s.users && admin.email !in s.userByEmail && admin.orgId == org.id
    ensures Consistent(WithOrgAndAdmin(s, org, admin))
  {
    var t := WithOrgAndAdmin(s, org, admin);
    OrgAndAdminKeepsOrgs(s, org, admin);
    OrgsGrow(s, t.orgs);
    OrgAndAdminKeepsUsers(s, org, admin);
    RowsGrow(s, t.users, t.groups, t.clock);
  }

  lemma OrgAndAdminKeepsOrgs(s: Snapshot, org: OrgRow, admin: UserRow)
    requires OrgsOk(s.orgs, s.orgByName)
    requires org.id !in s.orgs && Mintable(org.id) && org.name !in s.orgByName
    ensures OrgsOk(s.orgs[org.id := org], s.orgByName[org.name := org.id])
  {
  }

  lemma OrgAndAdminKeepsUsers(s: Snapshot, org: OrgRow, admin: UserRow)
    requires UsersOk(s.users, s.userByEmail, s.orgs[org.id := org])
    requires admin.id !in s.users && admin.email !in s.userByEmail && admin.orgId == org.id
    ensures UsersOk(s.users[admin.id := admin], s.userByEmail[admin.email := admin.id], s.orgs[org.id := org])
  {
  }

  lemma OrgAndAdminKeepsTenancy(s: Snapshot, org: OrgRow, admin: UserRow)
    requires TenantSeparated(s)
    requires admin.id !in s.users
    ensures TenantSeparated(WithOrgAndAdmin(s, org, admin))
  {
  }

  lemma UserKeepsConsistent(s: Snapshot, user: UserRow)
    requires Consistent(s)
    requires user.id !in s.users && user.email !in s.userByEmail && user.orgId in s.orgs
    ensures Consistent(WithUser(s, user))
  {
    var t := WithUser(s, user);
    UserKeepsUsers(s, user);
    RowsGrow(s, t.users, t.groups, t.clock);
  }

  lemma UserKeepsUsers(s: Snapshot, user: UserRow)
    requires UsersOk(s.users, s.userByEmail, s.orgs)
    requires user.id !in s.users && user.email !in s.userByEmail && user.orgId in s.orgs
    ensures UsersOk(s.users[user.id := user], s.userByEmail[user.email := user.id], s.orgs)
  {
  }

  lemma UserKeepsTenancy(s: Snapshot, user: UserRow)
    requires TenantSeparated(s)
    requires user.id !in s.users
    ensures TenantSeparated(WithUser(s, user))
  {
  }

  lemma GroupKeepsConsistent(s: Snapshot, group: GroupRow)
    requires Consistent(s)
    requires group.id !in s.groups && group.orgId in s.orgs
    requires !NameTaken(s.groups, group.orgId, group.name)
    ensures Consistent(WithGroup(s, group))
  {
    var t := WithGroup(s, group);
    GroupKeepsGroups(s, group);
    RowsGrow(s, t.users, t.groups, t.clock);
  }

  lemma GroupKeepsGroups(s: Snapshot, group: GroupRow)
    requires GroupsOk(s.groups, s.orgs)
    requires group.id !in s.groups && group.orgId in s.orgs
    requires !NameTaken(s.groups, group.orgId, group.name)
    ensures GroupsOk(s.groups[group.id := group], s.orgs)
  {
  }

  lemma GroupKeepsTenancy(s: Snapshot, group: GroupRow)
    requires TenantSeparated(s)
    requires group.id !in s.groups
    ensures TenantSeparated(WithGroup(s, group))
  {
  }

  lemma MemberKeepsConsistent(s: Snapshot, row: MemberRow)
    requires Consistent(s)
    requires row.userId in s.users && row.groupId in s.groups
    ensures Consistent(WithMember(s, row))
  {
    UpsertKeepsKeyUnique(s.members, row);
  }

  /** A membership between a user and a group of the same organization keeps tenants apart. */
  lemma MemberKeepsTenancy(s: Snapshot, row: MemberRow)
    requires TenantSeparated(s)
    requires SameOrg(s, row.userId, row.groupId)
    ensures TenantSeparated(WithMember(s, row))
  {
  }

  lemma MessageKeepsConsistent(s: Snapshot, row: MessageRow)
    requires Consistent(s)
    requires row.userId in s.users && row.groupId in s.groups && row.createdAt == s.clock
    ensures Consistent(WithMessage(s, row))
  {
    AppendIncreasing(s.messages, row);
    MessageKeepsMessages(s, row);
  }

  lemma MessageKeepsMessages(s: Snapshot, row: MessageRow)
    requires MessagesOk(s.messages, s.users, s.groups, s.clock) && StrictlyIncreasing(s.messages + [row])
    requires row.userId in s.users && row.groupId in s.groups && row.createdAt == s.clock
    ensures MessagesOk(s.messages + [row], s.users, s.groups, s.clock + 1)
  {
  }

  /** A message by a user into a group of the same organization keeps tenants apart. */
  lemma MessageKeepsTenancy(s: Snapshot, row: MessageRow)
    requires TenantSeparated(s)
    requires SameOrg(s, row.userId, row.groupId)
    ensures TenantSeparated(WithMessage(s, row))
  {
  }

  /**
   * The database behind the Prisma client. Every write either fails and
   * leaves the tables as they were, or applies exactly one of the `With…`
   * effects above.
   */
  class Db {
    var data: Snapshot

    ghost predicate Valid()
      reads this
    {
      Consistent(data)
    }

    ghost predicate TenantConsistent()
      reads this
    {
      TenantSeparated(data)
    }

    constructor ()
      ensures Valid() && TenantConsistent()
      ensures data == Snapshot(map[], map[], map[], map[], map[], [], [], 0)
    {
      data := Snapshot(map[], map[], map[], map[], map[], [], [], 0);
    }

    /** `group.findUnique({ where: { id } })` */
    function FindGroup(id: Id): (r: Option<GroupRow>)
      reads this
      ensures r.Some? <==> id in data.groups
      ensures r.Some? ==> r.value == data.groups[id]
    {
      if id in data.groups then Some(data.groups[id]) else None
    }

    /** `user.findUnique({ where: { id } })` */
    function FindUser(id: Id): (r: Option<UserRow>)
      reads this
      ensures r.Some? <==> id in data.users
      ensures r.Some? ==> r.value == data.users[id]
    {
      if id in data.users then Some(data.users[id]) else None
    }

    /** `user.findUnique({ where: { email } })`, answered from the unique index. */
    function FindUserByEmail(email: string): (r: Option<UserRow>)
      reads this
      requires Valid()
      ensures r.Some? <==> exists id :: id in data.users && data.users[id].email == email
      ensures r.Some? ==> r.value in data.users.Values && r.value.email == email
    {
      if email in data.userByEmail then Some(data.users[data.userByEmail[email]]) else None
    }

    /** `organization.findUnique({ where: { name } })`, answered from the unique index. */
    function FindOrgByName(name: string): (r: Option<OrgRow>)
      reads this
      requires Valid()
      ensures r.Some? <==> exists id :: id in data.orgs && data.orgs[id].name == name
      ensures r.Some? ==> r.value in data.orgs.Values && r.value.name == name
    {
      if name in data.orgByName then Some(data.orgs[data.orgByName[name]]) else None
    }

    /** `groupMember.findUnique({ where: { userId_groupId } })` */
    predicate IsMember(userId: Id, groupId: Id)
      reads this
    {
      MemberRow(userId, groupId) in data.members
    }

    /**
     * `$transaction`: create the organization, then its ADMIN user with the
     * new organization's id. Either both rows are written or neither is.
     */
    method CreateOrgWithAdmin(name: string, email: string, passwordHash: string, fault: bool)
      returns (r: Written<OrgAndAdmin>)
      requires Valid()
      modifies this
      ensures Valid()
      ensures old(TenantConsistent()) ==> TenantConsistent()
      ensures r.Failed? ==> data == old(data)
      ensures fault ==> r == Failed(Unavailable)
      ensures !fault && (name in old(data.orgByName) || email in old(data.userByEmail)) ==> r == Failed(UniqueViolation)
      ensures !fault && name !in old(data.orgByName) && email !in old(data.userByEmail) ==> r.Wrote?
      ensures r.Wrote? ==>
        && r.row.org.id !in old(data.orgs) && r.row.org.name == name
        && r.row.admin.id !in old(data.users)
        && r.row.admin == UserRow(r.row.admin.id, email, passwordHash, ADMIN, r.row.org.id)
        && data == WithOrgAndAdmin(old(data), r.row.org, r.row.admin)
    {
      if fault {
        return Failed(Unavailable);
      }
      if name in data.orgByName || email in data.userByEmail {
        return Failed(UniqueViolation);
      }
      FreshIdExists(data.orgs.Keys);
      var orgId :| orgId !in data.orgs && Mintable(orgId);
      FreshIdExists(data.users.Keys);
      var userId :| userId !in data.users && Mintable(userId);
      var org := OrgRow(orgId, name);
      var admin := UserRow(userId, email, passwordHash, ADMIN, orgId);
      OrgAndAdminKeepsConsistent(data, org, admin);
      if TenantConsistent() { OrgAndAdminKeepsTenancy(data, org, admin); }
      data := WithOrgAndAdmin(data, org, admin);
      r := Wrote(OrgAndAdmin(org, admin));
    }

    /** `user.create({ data: { email, passwordHash, role, orgId } })` */
    method CreateUser(email: string, passwordHash: string, role: Role, orgId: Id, fault: bool)
      returns (r: Written<UserRow>)
      requires Valid()
      modifies this
      ensures Valid()
      ensures old(TenantConsistent()) ==> TenantConsistent()
      ensures r.Failed? ==> data == old(data)
      ensures fault ==> r == Failed(Unavailable)
      ensures !fault && email in old(data.userByEmail) ==> r == Failed(UniqueViolation)
      ensures !fault && email !in old(data.userByEmail) && orgId !in old(data.orgs) ==> r == Failed(ForeignKeyViolation)
      ensures !fault && email !in old(data.userByEmail) && orgId in old(data.orgs) ==> r.Wrote?
      ensures r.Wrote? ==>
        && r.row.id !in old(data.users) && r.row == UserRow(r.row.id, email, passwordHash, role, orgId)
        && data == WithUser(old(data), r.row)
    {
      if fault {
        return Failed(Unavailable);
      }
      if email in data.userByEmail {
        return Failed(UniqueViolation);
      }
      if orgId !in data.orgs {
        return Failed(ForeignKeyViolation);
      }
      FreshIdExists(data.users.Keys);
      var id :| id !in data.users && Mintable(id);
      var user := UserRow(id, email, passwordHash, role, orgId);
      UserKeepsConsistent(data, user);
      if TenantConsistent() { UserKeepsTenancy(data, user); }
      data := WithUser(data, user);
      r := Wrote(user);
    }

    /** `group.create({ data: { name, orgId } })` */
    method CreateGroup(name: string, orgId: Id, fault: bool) returns (r: Written<GroupRow>)
      requires Valid()
      modifies this
      ensures Valid()
      ensures old(TenantConsistent()) ==> TenantConsistent()
      ensures r.Failed? ==> data == old(data)
      ensures fault ==> r == Failed(Unavailable)
      ensures !fault && orgId !in old(data.orgs) ==> r == Failed(ForeignKeyViolation)
      ensures !fault && orgId in old(data.orgs) && NameTaken(old(data.groups), orgId, name) ==> r == Failed(UniqueViolation)
      ensures !fault && orgId in old(data.orgs) && !NameTaken(old(data.groups), orgId, name) ==> r.Wrote?
      ensures r.Wrote? ==>
        && r.row.id !in old(data.groups) && r.row == GroupRow(r.row.id, name, orgId, old(data.clock))
        && data == WithGroup(old(data), r.row)
    {
      if fault {
        return Failed(Unavailable);
      }
      if orgId !in data.orgs {
        return Failed(ForeignKeyViolation);
      }
      if NameTaken(data.groups, orgId, name) {
        return Failed(UniqueViolation);
      }
      FreshIdExists(data.groups.Keys);
      var id :| id !in data.groups && Mintable(id);
      var group := GroupRow(id, name, orgId, data.clock);
      GroupKeepsConsistent(data, group);
      if TenantConsistent() { GroupKeepsTenancy(data, group); }
      data := WithGroup(data, group);
      r := Wrote(group);
    }

    /** `groupMember.upsert({ where: { userId_groupId }, update: {}, create })` */
    method UpsertMember(userId: Id, groupId: Id, fault: bool) returns (r: Written<MemberRow>)
      requires Valid()
      modifies this
      ensures Valid()
      ensures old(TenantConsistent()) && SameOrg(old(data), userId, groupId) ==> TenantConsistent()
      ensures r.Failed? ==> data == old(data)
      ensures fault ==> r == Failed(Unavailable)
      ensures !fault && (userId !in old(data.users) || groupId !in old(data.groups)) ==> r == Failed(ForeignKeyViolation)
      ensures !fault && userId in old(data.users) && groupId in old(data.groups) ==> r == Wrote(MemberRow(userId, groupId))
      ensures r.Wrote? ==> data == WithMember(old(data), r.row)
    {
      if fault {
        return Failed(Unavailable);
      }
      if userId !in data.users || groupId !in data.groups {
        return Failed(ForeignKeyViolation);
      }
      var row := MemberRow(userId, groupId);
      MemberKeepsConsistent(data, row);
      if TenantConsistent() && SameOrg(data, userId, groupId) {
        MemberKeepsTenancy(data, row);
      }
      data := WithMember(data, row);
      r := Wrote(row);
    }

    /** `message.create({ data: { content, userId, groupId }, include: { user } })` */
    method CreateMessage(content: string, userId: Id, groupId: Id, fault: bool)
      returns (r: Written<MessageRecord>)
      requires Valid()
      modifies this
      ensures Valid()
      ensures old(TenantConsistent()) && SameOrg(old(data), userId, groupId) ==> TenantConsistent()
      ensures r.Failed? ==> data == old(data)
      ensures fault ==> r == Failed(Unavailable)
      ensures !fault && (userId !in old(data.users) || groupId !in old(data.groups)) ==> r == Failed(ForeignKeyViolation)
      ensures !fault && userId in old(data.users) && groupId in old(data.groups) ==> r.Wrote?
      ensures r.Wrote? ==>
        var row := MessageRow(r.row.id, content, userId, groupId, old(data.clock));
        && (forall m :: m in old(data.messages) ==> m.id != r.row.id)
        && data == WithMessage(old(data), row)
        && r.row == Record(old(data), row)
    {
      if fault {
        return Failed(Unavailable);
      }
      if userId !in data.users || groupId !in data.groups {
        return Failed(ForeignKeyViolation);
      }
      FreshIdExists(set m | m in data.messages :: m.id);
      var id :| id !in (set m | m in data.messages :: m.id) && Mintable(id);
      var row := MessageRow(id, content, userId, groupId, data.clock);
      MessageKeepsConsistent(data, row);
      if TenantConsistent() && SameOrg(data, userId, groupId) {
        MessageKeepsTenancy(data, row);
      }
      var record := Record(data, row);
      data := WithMessage(data, row);
      r := Wrote(record);
    }
  }
}
