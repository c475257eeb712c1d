/** The channels of a server, listed in the order they were created. */
module ChannelService {
  import opened Wrappers
  import opened Sequences
  import opened Models
  import opened Store
  import MessageService

  function CreatedAt(c: Channel): int { c.createdAt }

  /** `GetChannelsForServerAsync`: the server's channels, `OrderBy(c => c.CreatedAt)`. */
  function ChannelsForServer(channels: seq<Channel>, serverId: int): seq<Channel> {
    SortBy(Filter(channels, (c: Channel) => c.serverId == serverId), CreatedAt)
  }

  /** The listing holds every channel of the server, as often as it is stored, and
      nothing else, with creation times never decreasing. */
  lemma ChannelsForServerExactly(channels: seq<Channel>, serverId: int)
    ensures var r := ChannelsForServer(channels, serverId);
      && (forall c :: c in r <==> c in channels && c.serverId == serverId)
      && (forall c {:trigger multiset(r)[c]} :: multiset(r)[c] == if c.serverId == serverId then multiset(channels)[c] else 0)
      && (forall i, j :: 0 <= i < j < |r| ==> r[i].createdAt <= r[j].createdAt)
  {
    var p := (c: Channel) => c.serverId == serverId;
    var r := ChannelsForServer(channels, serverId);
    SortBySortsAndPermutes(Filter(channels, p), CreatedAt);
    FilterMembership(channels, p);
    FilterCount(channels, p);
    forall c ensures c in r <==> c in channels && c.serverId == serverId {
      assert c in r <==> c in multiset(r);
      assert c in Filter(channels, p) <==> c in multiset(Filter(channels, p));
    }
    forall i, j | 0 <= i < j < |r| ensures r[i].createdAt <= r[j].createdAt {
      assert CreatedAt(r[i]) <= CreatedAt(r[j]);
    }
  }

  /** `GetChannelAsync(id)`. */
  function GetChannel(channels: seq<Channel>, id: int): Option<Channel> {
    Find(channels, id, ChannelKey)
  }

  /** With unique keys, `GetChannelAsync` returns the channel with that id, and null
      exactly when there is none. */
  lemma GetChannelReturnsThatChannel(channels: seq<Channel>, id: int)
    requires UniqueBy(channels, ChannelKey)
    ensures forall c :: GetChannel(channels, id) == Some(c) <==> c in channels && c.id == id
    ensures GetChannel(channels, id).None? <==> forall c :: c in channels ==> c.id != id
  {
    forall c | c in channels && c.id == id ensures GetChannel(channels, id) == Some(c) {
      FindUnique(channels, id, ChannelKey, c);
    }
  }

  /** `CreateChannelAsync`: overwrite the creation time with `now`, then store the
      channel under a fresh key and return it. */
  method CreateChannel(db: Database, channel: Channel, now: int) returns (created: Channel)
    requires db.Valid()
    modifies db
    ensures db.Valid()
    ensures created == channel.(createdAt := now, id := NextKey(old(db.channels), ChannelKey))
    ensures db.channels == old(db.channels) + [created]
    ensures db.servers == old(db.servers) && db.members == old(db.members)
    ensures db.messages == old(db.messages) && db.invites == old(db.invites)
    ensures MessageService.ChannelHistory(db.messages, created.id, None) == []
  {
    NewChannelHasNoMessages(db.channels, db.messages);
    var stamped := channel.(createdAt := now);
    created := stamped.(id := NextKey(db.channels, ChannelKey));
    UniqueByAppend(db.channels, created, ChannelKey);
    forall m | m in db.messages ensures Find(db.channels + [created], m.channelId, ChannelKey).Some? {
      FindAfterAppend(db.channels, created, m.channelId, ChannelKey);
    }
    db.channels := db.channels + [created];
  }

  /** A stored channel stays listed after another is added, and the added one is listed. */
  lemma CreatedChannelIsListed(channels: seq<Channel>, c: Channel)
    ensures c in ChannelsForServer(channels + [c], c.serverId)
    ensures forall d :: d in ChannelsForServer(channels, c.serverId) ==> d in ChannelsForServer(channels + [c], c.serverId)
  {
    ChannelsForServerExactly(channels, c.serverId);
    ChannelsForServerExactly(channels + [c], c.serverId);
  }

  /** A channel created no earlier than every other channel of its server lists last,
      and the channels already there keep their order ahead of it. */
  lemma CreatedChannelListsLast(channels: seq<Channel>, c: Channel)
    requires forall d :: d in channels && d.serverId == c.serverId ==> d.createdAt <= c.createdAt
    ensures ChannelsForServer(channels + [c], c.serverId) == ChannelsForServer(channels, c.serverId) + [c]
  {
    var p := (d: Channel) => d.serverId == c.serverId;
    FilterAppend(channels, c, p);
    FilterMembership(channels, p);
    SortByAppendLargest(Filter(channels, p), c, CreatedAt);
  }

  /** A channel stored under the next key starts with no messages: every message
      names an existing channel, and every existing channel key is below the next one. */
  lemma NewChannelHasNoMessages(channels: seq<Channel>, messages: seq<Message>)
    requires MessagesReferenceChannels(channels, messages)
    ensures Filter(messages, MessageService.InChannel(NextKey(channels, ChannelKey))) == []
    ensures forall limit :: MessageService.ChannelHistory(messages, NextKey(channels, ChannelKey), limit) == []
  {
    var p := MessageService.InChannel(NextKey(channels, ChannelKey));
    forall m | m in messages ensures !p(m) {
      assert Find(channels, m.channelId, ChannelKey).value in channels;
    }
    FilterEmpty(messages, p);
  }
}
