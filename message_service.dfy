/** Reading a channel's history one page at a time, and appending a message. A page
    is the newest `limit` matching messages, returned oldest first: the query sorts
    newest first, takes `limit`, and the list it builds is then reversed in place. */
module MessageService {
  import opened Wrappers
  import opened Runtime
  import opened Sequences
  import opened Models
  import opened Store

  /** The default page size of `GetMessagesBeforeTimestampAsync`. */
  const DefaultPageSize: int := 50

  /** `OrderByDescending(m => m.CreatedAt)` written as an ascending sort on the negated time. */
  function NewestFirst(m: Message): int { -m.createdAt }

  function InChannel(channelId: int): Message -> bool {
    (m: Message) => m.channelId == channelId
  }

  function InChannelBefore(channelId: int, before: int): Message -> bool {
    (m: Message) => m.channelId == channelId && m.createdAt < before
  }

  /** What `GetMessagesForChannelAsync(channelId, limit)` returns; a null limit is `int.MaxValue`. */
  function ChannelHistory(messages: seq<Message>, channelId: int, limit: Option<int>): seq<Message> {
    Page(Filter(messages, InChannel(channelId)), limit.GetOr(IntMaxValue), NewestFirst)
  }

  /** What `GetMessagesBeforeTimestampAsync(channelId, before, limit)` returns. */
  function HistoryBefore(messages: seq<Message>, channelId: int, before: int, limit: int): seq<Message> {
    Page(Filter(messages, InChannelBefore(channelId, before)), limit, NewestFirst)
  }

  /** A page of the newest matches: drawn from the matches, no longer than the limit,
      oldest first, and everything left out is no newer than anything kept. */
  lemma {:induction false} NewestPage(s: seq<Message>, p: Message -> bool, n: int)
    ensures var r := Page(Filter(s, p), n, NewestFirst);
      && (forall m :: m in r ==> m in s && p(m))
      && multiset(r) <= multiset(Filter(s, p))
      && |r| == (if n <= 0 then 0 else if n < |Filter(s, p)| then n else |Filter(s, p)|)
      && (n >= |Filter(s, p)| ==> multiset(r) == multiset(Filter(s, p)))
      && (forall i, j :: 0 <= i < j < |r| ==> r[i].createdAt <= r[j].createdAt)
      && (forall x, i :: x in s && p(x) && x !in r && 0 <= i < |r| ==> x.createdAt <= r[i].createdAt)
  {
    var f := Filter(s, p);
    var r := Page(f, n, NewestFirst);
    FilterMembership(s, p);
    PageBounds(f, n, NewestFirst);
    PageDescending(f, n, NewestFirst);
    PageKeepsSmallestKeys(f, n, NewestFirst);
    forall m | m in r ensures m in s && p(m) {
      assert m in multiset(r);
    }
    forall x, i | x in s && p(x) && x !in r && 0 <= i < |r| ensures x.createdAt <= r[i].createdAt {
      assert x in f;
      assert x in multiset(f) - multiset(r);
      assert NewestFirst(r[i]) <= NewestFirst(x);
    }
    forall i, j | 0 <= i < j < |r| ensures r[i].createdAt <= r[j].createdAt {
      assert NewestFirst(r[j]) <= NewestFirst(r[i]);
    }
  }

  /** Every message `GetMessagesForChannelAsync` returns belongs to the channel; there
      are at most `limit` of them, oldest first, and they are the newest of the
      channel's messages. */
  lemma ChannelHistoryProperties(messages: seq<Message>, channelId: int, limit: Option<int>)
    ensures var r := ChannelHistory(messages, channelId, limit);
      && (forall m :: m in r ==> m in messages && m.channelId == channelId)
      && (limit.Some? ==> |r| <= if limit.value < 0 then 0 else limit.value)
      && (forall i, j :: 0 <= i < j < |r| ==> r[i].createdAt <= r[j].createdAt)
      && (forall x, i :: x in messages && x.channelId == channelId && x !in r && 0 <= i < |r| ==>
            x.createdAt <= r[i].createdAt)
  {
    NewestPage(messages, InChannel(channelId), limit.GetOr(IntMaxValue));
  }

  /** With no limit, every message of the channel comes back (up to `int.MaxValue` of them). */
  lemma ChannelHistoryWithoutLimitIsComplete(messages: seq<Message>, channelId: int)
    requires |Filter(messages, InChannel(channelId))| <= IntMaxValue
    ensures multiset(ChannelHistory(messages, channelId, None)) == multiset(Filter(messages, InChannel(channelId)))
    ensures forall m :: m in messages && m.channelId == channelId ==> m in ChannelHistory(messages, channelId, None)
  {
    var f := Filter(messages, InChannel(channelId));
    NewestPage(messages, InChannel(channelId), IntMaxValue);
    FilterMembership(messages, InChannel(channelId));
    forall m | m in messages && m.channelId == channelId
      ensures m in ChannelHistory(messages, channelId, None)
    {
      assert m in multiset(f);
    }
  }

  /** Every message `GetMessagesBeforeTimestampAsync` returns belongs to the channel
      and is strictly older than `before`; there are at most `limit`, oldest first,
      and they are the newest such messages. */
  lemma HistoryBeforeProperties(messages: seq<Message>, channelId: int, before: int, limit: int)
    ensures var r := HistoryBefore(messages, channelId, before, limit);
      && (forall m :: m in r ==> m in messages && m.channelId == channelId && m.createdAt < before)
      && |r| <= (if limit < 0 then 0 else limit)
      && (forall i, j :: 0 <= i < j < |r| ==> r[i].createdAt <= r[j].createdAt)
      && (forall x, i ::
            x in messages && x.channelId == channelId && x.createdAt < before && x !in r && 0 <= i < |r| ==>
            x.createdAt <= r[i].createdAt)
  {
    NewestPage(messages, InChannelBefore(channelId, before), limit);
  }

  /** With a positive limit, the page before `before` is empty exactly when the
      channel has no message older than `before`. */
  lemma HistoryBeforeEmptyIff(messages: seq<Message>, channelId: int, before: int, limit: int)
    requires limit > 0
    ensures HistoryBefore(messages, channelId, before, limit) == [] <==>
      forall m :: m in messages && m.channelId == channelId ==> m.createdAt >= before
  {
    var p := InChannelBefore(channelId, before);
    NewestPage(messages, p, limit);
    FilterMembership(messages, p);
    FilterEmpty(messages, p);
  }

  /** `GetMessagesForChannelAsync`: run the query, then reverse the list it built. */
  method GetMessagesForChannel(db: Database, channelId: int, limit: Option<int>) returns (r: seq<Message>)
    ensures r == ChannelHistory(db.messages, channelId, limit)
  {
    var query := Take(SortBy(Filter(db.messages, InChannel(channelId)), NewestFirst), limit.GetOr(IntMaxValue));
    var list := new Message[|query|](i requires 0 <= i < |query| => query[i]);
    assert list[..] == query;
    ReverseInPlace(list);
    r := list[..];
  }

  /** `GetMessagesBeforeTimestampAsync`: run the query, then reverse the list it built. */
  method GetMessagesBeforeTimestamp(db: Database, channelId: int, before: int, limit: int := DefaultPageSize) returns (r: seq<Message>)
    ensures r == HistoryBefore(db.messages, channelId, before, limit)
  {
    var query := Take(SortBy(Filter(db.messages, InChannelBefore(channelId, before)), NewestFirst), limit);
    var list := new Message[|query|](i requires 0 <= i < |query| => query[i]);
    assert list[..] == query;
    ReverseInPlace(list);
    r := list[..];
  }

  /** Why `SaveMessageAsync` throws. */
  datatype SaveError = ChannelNotFound(channelId: int) | ServerNotFound(serverId: int) {
    /** The exception's message. */
    function Text(): string {
      match this
      case ChannelNotFound(id) => "Channel with ID " + IntToString(id) + " not found."
      case ServerNotFound(id) => "Server with ID " + IntToString(id) + " not found."
    }
  }

  /** The checks `SaveMessageAsync` makes before writing: the id of the server that
      will receive the message, or the reason it is refused. */
  function SaveTarget(servers: seq<Server>, channels: seq<Channel>, channelId: int): (r: Result<int, SaveError>)
    ensures r == Err(ChannelNotFound(channelId)) <==> forall c :: c in channels ==> c.id != channelId
    ensures r.Ok? ==>
      (exists c :: c in channels && c.id == channelId && c.serverId == r.value) &&
      Find(servers, r.value, ServerKey).Some?
  {
    match Find(channels, channelId, ChannelKey)
    case None => Err(ChannelNotFound(channelId))
    case Some(channel) =>
      if Find(servers, channel.serverId, ServerKey).None? then Err(ServerNotFound(channel.serverId))
      else Ok(channel.serverId)
  }

  /** With unique channel keys, a save is refused for a missing channel exactly when
      no channel has the id, and otherwise aims at that channel's server. */
  lemma SaveTargetOfChannel(servers: seq<Server>, channels: seq<Channel>, c: Channel)
    requires UniqueBy(channels, ChannelKey) && c in channels
    ensures SaveTarget(servers, channels, c.id) ==
      if Find(servers, c.serverId, ServerKey).None? then Err(ServerNotFound(c.serverId)) else Ok(c.serverId)
  {
    FindUnique(channels, c.id, ChannelKey, c);
  }

  /** The servers table after `server.LastMessageTimeStamp = time` on the server with id `serverId`. */
  function StampServer(servers: seq<Server>, serverId: int, time: int): (r: seq<Server>)
    ensures |r| == |servers|
  {
    seq(|servers|, i requires 0 <= i < |servers| =>
      if servers[i].id == serverId then servers[i].(lastMessageTimeStamp := Some(time)) else servers[i])
  }

  /** Stamping changes only the last-message time of the one server, and keeps the keys. */
  lemma StampServerChangesOnlyThatServer(servers: seq<Server>, serverId: int, time: int)
    ensures forall i :: 0 <= i < |servers| ==>
      StampServer(servers, serverId, time)[i].id == servers[i].id
    ensures forall i :: 0 <= i < |servers| && servers[i].id != serverId ==>
      StampServer(servers, serverId, time)[i] == servers[i]
    ensures forall i :: 0 <= i < |servers| && servers[i].id == serverId ==>
      StampServer(servers, serverId, time)[i] == servers[i].(lastMessageTimeStamp := Some(time))
    ensures UniqueBy(servers, ServerKey) ==> UniqueBy(StampServer(servers, serverId, time), ServerKey)
  {
  }

  /** Stamping keeps every key, so lookups by key still succeed or fail as before. */
  lemma StampServerKeepsKeys(servers: seq<Server>, serverId: int, time: int, id: int)
    ensures Find(StampServer(servers, serverId, time), id, ServerKey).Some? <==> Find(servers, id, ServerKey).Some?
  {
    var r := StampServer(servers, serverId, time);
    if Find(servers, id, ServerKey).Some? {
      var s := Find(servers, id, ServerKey).value;
      var i :| 0 <= i < |servers| && servers[i] == s;
      assert r[i] in r && r[i].id == id;
    }
    if Find(r, id, ServerKey).Some? {
      var s := Find(r, id, ServerKey).value;
      var i :| 0 <= i < |r| && r[i] == s;
      assert servers[i] in servers && servers[i].id == id;
    }
  }

  /** `SaveMessageAsync`: refuse a message whose channel or server is missing, leaving
      the database as it was; otherwise stamp the server with the message's time and
      store the message under a fresh key. */
  method SaveMessage(db: Database, message: Message) returns (r: Result<Message, SaveError>)
    requires db.Valid()
    modifies db
    ensures db.Valid()
    ensures var target := SaveTarget(old(db.servers), old(db.channels), message.channelId);
      target.Err? ==> r == Err(target.error) && unchanged(db)
    ensures var target := SaveTarget(old(db.servers), old(db.channels), message.channelId);
      var saved := message.(id := NextKey(old(db.messages), MessageKey));
      target.Ok? ==>
        && r == Ok(saved)
        && db.messages == old(db.messages) + [saved]
        && db.servers == StampServer(old(db.servers), target.value, message.createdAt)
        && db.members == old(db.members) && db.channels == old(db.channels)
        && db.invites == old(db.invites)
  {
    var channel := Find(db.channels, message.channelId, ChannelKey);
    if channel.None? {
      return Err(ChannelNotFound(message.channelId));
    }
    var serverId := channel.value.serverId;
    if Find(db.servers, serverId, ServerKey).None? {
      return Err(ServerNotFound(serverId));
    }
    var saved := message.(id := NextKey(db.messages, MessageKey));
    UniqueByAppend(db.messages, saved, MessageKey);
    StampServerChangesOnlyThatServer(db.servers, serverId, message.createdAt);
    forall m | m in db.members ensures Find(StampServer(db.servers, serverId, message.createdAt), m.serverId, ServerKey).Some? {
      StampServerKeepsKeys(db.servers, serverId, message.createdAt, m.serverId);
    }
    db.servers := StampServer(db.servers, serverId, message.createdAt);
    db.messages := db.messages + [saved];
    r := Ok(saved);
  }

  /** A saved message comes back from the history: with no limit (for a channel of up
      to `int.MaxValue` messages), and from any page before a later time when every
      other message of its channel is older. It comes back as stored, with its content,
      sender and time. */
  lemma SavedMessageComesBack(messages: seq<Message>, saved: Message, before: int, limit: int)
    requires |Filter(messages + [saved], InChannel(saved.channelId))| <= IntMaxValue
    ensures saved in ChannelHistory(messages + [saved], saved.channelId, None)
    ensures (&& saved.createdAt < before && limit >= 1
             && forall m :: m in messages && m.channelId == saved.channelId ==> m.createdAt < saved.createdAt)
      ==> saved in HistoryBefore(messages + [saved], saved.channelId, before, limit)
  {
    var all := messages + [saved];
    assert saved in all;
    ChannelHistoryWithoutLimitIsComplete(all, saved.channelId);
    if && saved.createdAt < before && limit >= 1
       && forall m :: m in messages && m.channelId == saved.channelId ==> m.createdAt < saved.createdAt
    {
      NewestMatchIsOnEveryPage(all, InChannelBefore(saved.channelId, before), saved, limit);
    }
  }

  /** A match strictly newer than every other match is on every page with a positive limit. */
  lemma NewestMatchIsOnEveryPage(s: seq<Message>, p: Message -> bool, x: Message, n: int)
    requires x in s && p(x) && n >= 1
    requires forall m :: m in s && p(m) && m != x ==> m.createdAt < x.createdAt
    ensures x in Page(Filter(s, p), n, NewestFirst)
  {
    var r := Page(Filter(s, p), n, NewestFirst);
    NewestPage(s, p, n);
    FilterMembership(s, p);
    assert x in Filter(s, p);
    assert |r| >= 1;
    var newest := r[0];
    assert newest in s && p(newest);
  }
}
