/** Servers, the memberships that tie users to them, and the role queries the hub
    and the authorization handlers ask. A server's `Members` collection is the set
    of membership rows whose `ServerId` is the server's id. */
module ServerService {
  import opened Wrappers
  import opened Sequences
  import opened Models
  import opened Store

  /** `IsUserMemberOfServerAsync`: some membership row links the user to the server. */
  predicate IsUserMemberOfServer(members: seq<ServerMember>, serverId: int, userId: string) {
    exists m :: m in members && m.serverId == serverId && m.userId == userId
  }

  /** `IsUserModeratorOfServerAsync`: the user's membership carries the Moderator or Owner role. */
  predicate IsUserModeratorOfServer(members: seq<ServerMember>, serverId: int, userId: string) {
    exists m :: m in members && m.serverId == serverId && m.userId == userId && (m.role == Moderator || m.role == Owner)
  }

  /** `IsUserOwnerOfServerAsync`: the user's membership carries the Owner role. */
  predicate IsUserOwnerOfServer(members: seq<ServerMember>, serverId: int, userId: string) {
    exists m :: m in members && m.serverId == serverId && m.userId == userId && m.role == Owner
  }

  /** With one membership per (server, user), the role queries read that one row:
      a moderator is a member whose role is above Member, an owner one whose role is Owner. */
  lemma RoleOfMembership(members: seq<ServerMember>, m: ServerMember)
    requires UniqueBy(members, MembershipPair) && m in members
    ensures IsUserMemberOfServer(members, m.serverId, m.userId)
    ensures IsUserModeratorOfServer(members, m.serverId, m.userId) <==> m.role.Ordinal() >= Moderator.Ordinal()
    ensures IsUserOwnerOfServer(members, m.serverId, m.userId) <==> m.role == Owner
  {
    forall m' | m' in members && m'.serverId == m.serverId && m'.userId == m.userId ensures m' == m {
      var i :| 0 <= i < |members| && members[i] == m;
      var j :| 0 <= j < |members| && members[j] == m';
      SameKeySamePosition(members, MembershipPair, i, j);
    }
    RoleTypeOrder(m.role);
  }

  /** A server's `Members` collection. */
  function MembersOf(members: seq<ServerMember>, serverId: int): seq<ServerMember> {
    Filter(members, (m: ServerMember) => m.serverId == serverId)
  }

  /** `Server.MemberCount`. */
  function MemberCount(members: seq<ServerMember>, serverId: int): nat {
    |MembersOf(members, serverId)|
  }

  /** Adding a membership raises the count of its own server by one and of no other. */
  lemma MemberCountAfterAdd(members: seq<ServerMember>, x: ServerMember, serverId: int)
    ensures MemberCount(members + [x], serverId) ==
      MemberCount(members, serverId) + (if x.serverId == serverId then 1 else 0)
  {
    FilterAppend(members, x, (m: ServerMember) => m.serverId == serverId);
  }

  /** A server that no membership row points at has no members. */
  lemma NoMembersOfUnreferencedServer(members: seq<ServerMember>, serverId: int)
    requires forall m :: m in members ==> m.serverId != serverId
    ensures MembersOf(members, serverId) == [] && MemberCount(members, serverId) == 0
  {
    FilterEmpty(members, (m: ServerMember) => m.serverId == serverId);
  }

  /** `GetServersForUserAsync`: the servers the user has a membership in, in table order. */
  function ServersForUser(servers: seq<Server>, members: seq<ServerMember>, userId: string): seq<Server> {
    Filter(servers, (s: Server) => IsUserMemberOfServer(members, s.id, userId))
  }

  /** A server is listed for a user exactly when the user is one of its members. */
  lemma ServersForUserExactly(servers: seq<Server>, members: seq<ServerMember>, userId: string)
    ensures forall s :: s in ServersForUser(servers, members, userId) <==>
      s in servers && IsUserMemberOfServer(members, s.id, userId)
    ensures multiset(ServersForUser(servers, members, userId)) <= multiset(servers)
  {
    FilterMembership(servers, (s: Server) => IsUserMemberOfServer(members, s.id, userId));
  }

  /** `GetServerAsync(id)`. */
  function GetServer(servers: seq<Server>, id: int): Option<Server> {
    Find(servers, id, ServerKey)
  }

  /** With unique keys, `GetServerAsync` returns the server with that id, and null
      exactly when there is none. */
  lemma GetServerReturnsThatServer(servers: seq<Server>, id: int)
    requires UniqueBy(servers, ServerKey)
    ensures forall s :: GetServer(servers, id) == Some(s) <==> s in servers && s.id == id
    ensures GetServer(servers, id).None? <==> forall s :: s in servers ==> s.id != id
  {
    forall s | s in servers && s.id == id ensures GetServer(servers, id) == Some(s) {
      FindUnique(servers, id, ServerKey, s);
    }
  }

  /** The membership `CreateServerAsync` gives the creator. */
  function OwnerMembership(id: int, serverId: int, ownerUserId: string, now: int): ServerMember {
    NewServerMember(serverId, ownerUserId, now).(id := id, role := Owner)
  }

  /** The channel `CreateServerAsync` opens in every new server. */
  function GeneralChannel(id: int, serverId: int, now: int): Channel {
    NewChannel(serverId, now).(id := id, name := "general")
  }

  /** A newly created server starts with one member, its owner. */
  lemma NewServerHasOnlyItsOwner(servers: seq<Server>, members: seq<ServerMember>, id: int, ownerUserId: string, now: int)
    requires MembersReferenceServers(servers, members)
    ensures var serverId := NextKey(servers, ServerKey);
      var members' := members + [OwnerMembership(id, serverId, ownerUserId, now)];
      && MemberCount(members', serverId) == 1
      && IsUserOwnerOfServer(members', serverId, ownerUserId)
  {
    var serverId := NextKey(servers, ServerKey);
    forall m | m in members ensures m.serverId != serverId {
      assert Find(servers, m.serverId, ServerKey).Some?;
    }
    NoMembersOfUnreferencedServer(members, serverId);
    MemberCountAfterAdd(members, OwnerMembership(id, serverId, ownerUserId, now), serverId);
    assert OwnerMembership(id, serverId, ownerUserId, now) in members + [OwnerMembership(id, serverId, ownerUserId, now)];
  }

  /** `CreateServerAsync`: store the server under a fresh key, then make its creator a
      member with the Owner role and open a channel named "general" in it. */
  method CreateServer(db: Database, server: Server, ownerUserId: string, now: int) returns (created: Server)
    requires db.Valid()
    modifies db
    ensures db.Valid()
    ensures created == server.(id := NextKey(old(db.servers), ServerKey))
    ensures db.servers == old(db.servers) + [created]
    ensures db.members == old(db.members) + [OwnerMembership(NextKey(old(db.members), MemberKey), created.id, ownerUserId, now)]
    ensures db.channels == old(db.channels) + [GeneralChannel(NextKey(old(db.channels), ChannelKey), created.id, now)]
    ensures db.messages == old(db.messages) && db.invites == old(db.invites)
  {
    created := server.(id := NextKey(db.servers, ServerKey));
    UniqueByAppend(db.servers, created, ServerKey);
    var owner := OwnerMembership(NextKey(db.members, MemberKey), created.id, ownerUserId, now);
    UniqueByAppend(db.members, owner, MemberKey);
    forall m | m in db.members ensures MembershipPair(m) != MembershipPair(owner) {
      assert Find(db.servers, m.serverId, ServerKey).Some?;
    }
    UniqueByAppend(db.members, owner, MembershipPair);
    forall m | m in db.members + [owner] ensures Find(db.servers + [created], m.serverId, ServerKey).Some? {
      FindAfterAppend(db.servers, created, m.serverId, ServerKey);
    }
    var general := GeneralChannel(NextKey(db.channels, ChannelKey), created.id, now);
    UniqueByAppend(db.channels, general, ChannelKey);
    db.servers := db.servers + [created];
    db.members := db.members + [owner];
    db.channels := db.channels + [general];
  }

  /** `JoinServerAsync`: nothing happens when the user is already a member; otherwise
      one membership with the default role is added, which the foreign key on
      `ServerId` refuses when the server does not exist. */
  method JoinServer(db: Database, serverId: int, userId: string, now: int) returns (r: Result<(), DbError>)
    requires db.Valid()
    modifies db
    ensures db.Valid()
    ensures IsUserMemberOfServer(old(db.members), serverId, userId) ==> r == Ok(()) && unchanged(db)
    ensures !IsUserMemberOfServer(old(db.members), serverId, userId) && GetServer(old(db.servers), serverId).None? ==>
      r == Err(ForeignKeyViolation) && unchanged(db)
    ensures !IsUserMemberOfServer(old(db.members), serverId, userId) && GetServer(old(db.servers), serverId).Some? ==>
      && r == Ok(())
      && db.members == old(db.members) + [NewServerMember(serverId, userId, now).(id := NextKey(old(db.members), MemberKey))]
      && db.servers == old(db.servers) && db.channels == old(db.channels)
      && db.messages == old(db.messages) && db.invites == old(db.invites)
    ensures r.Ok? ==> IsUserMemberOfServer(db.members, serverId, userId)
  {
    var alreadyMember := IsUserMemberOfServer(db.members, serverId, userId);
    if alreadyMember {
      return Ok(());
    }
    if GetServer(db.servers, serverId).None? {
      return Err(ForeignKeyViolation);
    }
    var member := NewServerMember(serverId, userId, now).(id := NextKey(db.members, MemberKey));
    UniqueByAppend(db.members, member, MemberKey);
    UniqueByAppend(db.members, member, MembershipPair);
    db.members := db.members + [member];
    assert member in db.members;
    r := Ok(());
  }
}
