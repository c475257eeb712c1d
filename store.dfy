/** The application's database: one sequence of rows per table, in insertion order,
    with the keys and unique indexes the schema declares. Keys are assigned on insert
    as one more than the largest key in the table, as SQLite's AUTOINCREMENT does
    when no row is ever deleted. */
module Store {
  import opened Wrappers
  import opened Sequences
  import opened Models

  /** Why `SaveChanges` rejects a row. */
  datatype DbError = UniqueViolation | ForeignKeyViolation

  /** No two rows share a key. */
  predicate UniqueBy<T, K(==)>(rows: seq<T>, key: T -> K) {
    forall i, j :: 0 <= i < j < |rows| ==> key(rows[i]) != key(rows[j])
  }

  /** Appending a row whose key is new keeps the keys unique. */
  lemma UniqueByAppend<T, K>(rows: seq<T>, x: T, key: T -> K)
    requires UniqueBy(rows, key)
    requires forall r :: r in rows ==> key(r) != key(x)
    ensures UniqueBy(rows + [x], key)
  {
    var s := rows + [x];
    forall i, j | 0 <= i < j < |s| ensures key(s[i]) != key(s[j]) {
      if j == |rows| {
        assert s[i] in rows;
      } else {
        assert s[i] == rows[i] && s[j] == rows[j];
      }
    }
  }

  /** The key the next inserted row receives: above every key in the table. */
  function NextKey<T>(rows: seq<T>, key: T -> int): (r: int)
    ensures r >= 1
    ensures forall x :: x in rows ==> key(x) < r
  {
    if rows == [] then 1
    else
      var rest := NextKey(rows[..|rows| - 1], key);
      var last := key(rows[|rows| - 1]);
      assert forall x :: x in rows ==> x in rows[..|rows| - 1] || x == rows[|rows| - 1];
      if last + 1 > rest then last + 1 else rest
  }

  /** `DbSet.FindAsync(id)`: the row with that primary key, or null. */
  function Find<T>(rows: seq<T>, id: int, key: T -> int): (r: Option<T>)
    ensures r.Some? ==> r.value in rows && key(r.value) == id
    ensures r.None? ==> forall x :: x in rows ==> key(x) != id
  {
    match IndexWhere(rows, x => key(x) == id)
    case None => None
    case Some(i) => Some(rows[i])
  }

  /** With unique keys, `Find` returns the one row holding the key. */
  lemma FindUnique<T>(rows: seq<T>, id: int, key: T -> int, x: T)
    requires UniqueBy(rows, key)
    requires x in rows && key(x) == id
    ensures Find(rows, id, key) == Some(x)
  {
    var y := Find(rows, id, key).value;
    var i :| 0 <= i < |rows| && rows[i] == x;
    var j :| 0 <= j < |rows| && rows[j] == y;
    SameKeySamePosition(rows, key, i, j);
  }

  /** With unique keys, two positions holding the same key are one position. */
  lemma SameKeySamePosition<T, K>(rows: seq<T>, key: T -> K, i: int, j: int)
    requires UniqueBy(rows, key)
    requires 0 <= i < |rows| && 0 <= j < |rows| && key(rows[i]) == key(rows[j])
    ensures i == j
  {
  }

  /** Adding a row keeps every key that was there findable, and makes its own key findable. */
  lemma FindAfterAppend<T>(rows: seq<T>, x: T, id: int, key: T -> int)
    ensures Find(rows + [x], id, key).Some? <==> Find(rows, id, key).Some? || key(x) == id
  {
    if Find(rows, id, key).Some? {
      assert Find(rows, id, key).value in rows + [x];
    }
    assert x in rows + [x];
    if Find(rows + [x], id, key).Some? {
      var y := Find(rows + [x], id, key).value;
      assert y in rows || y == x;
    }
  }

  function ServerKey(s: Server): int { s.id }
  function MemberKey(m: ServerMember): int { m.id }
  function ChannelKey(c: Channel): int { c.id }
  function MessageKey(m: Message): int { m.id }
  function InviteKey(i: ServerInvite): int { i.id }

  /** The columns of the unique index `IX_ServerMembers_ServerId_UserId`. */
  function MembershipPair(m: ServerMember): (int, string) { (m.serverId, m.userId) }

  /** The column of the unique index `IX_ServerInvites_InviteCode`. */
  function InviteCode(i: ServerInvite): string { i.inviteCode }

  /** Every membership names an existing server (`ServerMembers.ServerId` is a foreign key). */
  predicate MembersReferenceServers(servers: seq<Server>, members: seq<ServerMember>) {
    forall m :: m in members ==> Find(servers, m.serverId, ServerKey).Some?
  }

  /** Every message names an existing channel (`Messages.ChannelId` is a foreign key). */
  predicate MessagesReferenceChannels(channels: seq<Channel>, messages: seq<Message>) {
    forall m :: m in messages ==> Find(channels, m.channelId, ChannelKey).Some?
  }

  /** The constraints the schema places on the tables. */
  predicate TablesValid(
    servers: seq<Server>, members: seq<ServerMember>, channels: seq<Channel>,
    messages: seq<Message>, invites: seq<ServerInvite>)
  {
    && UniqueBy(servers, ServerKey)
    && UniqueBy(members, MemberKey)
    && UniqueBy(channels, ChannelKey)
    && UniqueBy(messages, MessageKey)
    && UniqueBy(invites, InviteKey)
    && UniqueBy(members, MembershipPair)
    && UniqueBy(invites, InviteCode)
    && MembersReferenceServers(servers, members)
    && MessagesReferenceChannels(channels, messages)
  }

  /** The `ApplicationDbContext` with its tables. */
  class Database {
    var servers: seq<Server>
    var members: seq<ServerMember>
    var channels: seq<Channel>
    var messages: seq<Message>
    var invites: seq<ServerInvite>

    predicate Valid()
      reads this
    {
      TablesValid(servers, members, channels, messages, invites)
    }

    /** An empty database. */
    constructor ()
      ensures Valid()
      ensures servers == [] && members == [] && channels == [] && messages == [] && invites == []
    {
      servers, members, channels, messages, invites := [], [], [], [], [];
    }
  }
}
