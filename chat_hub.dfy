/** The real-time hub. A connection joins the group of a channel it may read, leaves
    it again, and sends messages that are stored and then pushed to everyone in the
    channel's group. The group registry maps a group name to its connection ids; a
    push is recorded in an outbox as the set of connections it goes to. */
module ChatHub {
  import opened Wrappers
  import opened Runtime
  import opened Models
  import opened Store
  import opened Sequences
  import ServerService
  import ChannelService
  import MessageService

  /** What the hub knows of the caller: its connection, the authenticated user id
      (`Context.UserIdentifier`) and the identity's display name. */
  datatype Caller = Caller(connectionId: string, userIdentifier: Option<string>, identityName: Option<string>)

  /** The `HubException`s a hub method throws, and the exception a failed save lets through. */
  datatype HubError = NotAuthenticated | ChannelMissing | AccessDenied | SaveFailed(cause: MessageService.SaveError) {
    function Text(): string {
      match this
      case NotAuthenticated => "Not authenticated."
      case ChannelMissing => "Channel not found."
      case AccessDenied => "Access denied to channel."
      case SaveFailed(cause) => cause.Text()
    }
  }

  /** One `Clients.Group(...).SendAsync(method, dto)`. */
  datatype Broadcast = Broadcast(recipients: set<string>, clientMethod: string, dto: MessageDto)

  /** The group a channel's listeners join: `"channel:{channelId}"`. */
  function GroupName(channelId: int): string {
    "channel:" + IntToString(channelId)
  }

  /** Different channels never share a group. */
  lemma GroupNameInjective(a: int, b: int)
    requires GroupName(a) == GroupName(b)
    ensures a == b
  {
    assert IntToString(a) == GroupName(a)[8..];
    assert IntToString(b) == GroupName(b)[8..];
    IntToStringInjective(a, b);
  }

  /** The connections in a group; a group nobody joined is empty. */
  function GroupMembers(groups: map<string, set<string>>, name: string): set<string> {
    if name in groups then groups[name] else {}
  }

  /** `Groups.AddToGroupAsync(connectionId, name)`. */
  function AddToGroup(groups: map<string, set<string>>, name: string, connectionId: string): map<string, set<string>> {
    groups[name := GroupMembers(groups, name) + {connectionId}]
  }

  /** `Groups.RemoveFromGroupAsync(connectionId, name)`. */
  function RemoveFromGroup(groups: map<string, set<string>>, name: string, connectionId: string): map<string, set<string>> {
    if name in groups then groups[name := groups[name] - {connectionId}] else groups
  }

  /** Adding puts the connection in that group and touches no other group. */
  lemma AddToGroupOnlyThatGroup(groups: map<string, set<string>>, name: string, connectionId: string)
    ensures GroupMembers(AddToGroup(groups, name, connectionId), name) == GroupMembers(groups, name) + {connectionId}
    ensures forall g :: g != name ==> GroupMembers(AddToGroup(groups, name, connectionId), g) == GroupMembers(groups, g)
  {
  }

  /** Removing takes the connection out of that group and touches no other group;
      removing a connection that is not there changes nothing. */
  lemma RemoveFromGroupOnlyThatGroup(groups: map<string, set<string>>, name: string, connectionId: string)
    ensures GroupMembers(RemoveFromGroup(groups, name, connectionId), name) == GroupMembers(groups, name) - {connectionId}
    ensures forall g :: g != name ==> GroupMembers(RemoveFromGroup(groups, name, connectionId), g) == GroupMembers(groups, g)
    ensures connectionId !in GroupMembers(groups, name) ==> RemoveFromGroup(groups, name, connectionId) == groups
  {
    if name in groups && connectionId !in groups[name] {
      assert groups[name] - {connectionId} == groups[name];
    }
  }

  /** Leaving right after joining a group one was not in restores the group. */
  lemma JoinThenLeave(groups: map<string, set<string>>, channelId: int, connectionId: string)
    requires connectionId !in GroupMembers(groups, GroupName(channelId))
    ensures forall g :: GroupMembers(RemoveFromGroup(AddToGroup(groups, GroupName(channelId), connectionId),
      GroupName(channelId), connectionId), g) == GroupMembers(groups, g)
  {
    AddToGroupOnlyThatGroup(groups, GroupName(channelId), connectionId);
    RemoveFromGroupOnlyThatGroup(AddToGroup(groups, GroupName(channelId), connectionId), GroupName(channelId), connectionId);
  }

  /** The checks `JoinChannel` and `SendMessage` both make, in order: an authenticated
      caller, an existing channel, and a membership in the channel's server. */
  function Authorize(channels: seq<Channel>, members: seq<ServerMember>, userIdentifier: Option<string>, channelId: int)
    : Result<Channel, HubError>
  {
    if userIdentifier.None? then Err(NotAuthenticated)
    else match ChannelService.GetChannel(channels, channelId)
      case None => Err(ChannelMissing)
      case Some(channel) =>
        if !ServerService.IsUserMemberOfServer(members, channel.serverId, userIdentifier.value) then Err(AccessDenied)
        else Ok(channel)
  }

  /** A caller passes exactly when authenticated, the channel exists and the caller is
      a member of its server; a missing user id is reported before anything else, and
      an unknown channel before the membership test. */
  lemma AuthorizeExactly(channels: seq<Channel>, members: seq<ServerMember>, userIdentifier: Option<string>, channelId: int)
    requires UniqueBy(channels, ChannelKey)
    ensures Authorize(channels, members, userIdentifier, channelId).Ok? <==>
      && userIdentifier.Some?
      && exists c :: c in channels && c.id == channelId && ServerService.IsUserMemberOfServer(members, c.serverId, userIdentifier.value)
    ensures userIdentifier.None? ==> Authorize(channels, members, userIdentifier, channelId) == Err(NotAuthenticated)
    ensures userIdentifier.Some? && (forall c :: c in channels ==> c.id != channelId) ==>
      Authorize(channels, members, userIdentifier, channelId) == Err(ChannelMissing)
    ensures Authorize(channels, members, userIdentifier, channelId).Ok? ==>
      var c := Authorize(channels, members, userIdentifier, channelId).value;
      c in channels && c.id == channelId
  {
    ChannelService.GetChannelReturnsThatChannel(channels, channelId);
  }

  /** Once the hub's checks pass, a save can only be refused because the channel's
      server is missing. */
  lemma AuthorizedSaveTarget(servers: seq<Server>, channels: seq<Channel>, members: seq<ServerMember>, userIdentifier: Option<string>, channelId: int)
    requires UniqueBy(channels, ChannelKey)
    requires Authorize(channels, members, userIdentifier, channelId).Ok?
    ensures var c := Authorize(channels, members, userIdentifier, channelId).value;
      MessageService.SaveTarget(servers, channels, channelId) ==
        if Find(servers, c.serverId, ServerKey).None? then Err(MessageService.ServerNotFound(c.serverId)) else Ok(c.serverId)
  {
    var c := Authorize(channels, members, userIdentifier, channelId).value;
    MessageService.SaveTargetOfChannel(servers, channels, c);
  }

  /** The message `SendMessage` builds for the caller. */
  function OutgoingMessage(channelId: int, senderId: string, content: string, now: int): Message {
    NewMessage(channelId, senderId, now).(messageContent := content)
  }

  /** The DTO pushed for a saved message: its text and time, and the caller's display
      name or, failing that, the sender id. */
  function ReceivedDto(caller: Caller, saved: Message): MessageDto {
    MessageDto(0, saved.messageContent, caller.identityName.GetOr(saved.senderId), saved.createdAt)
  }

  /** The pushed DTO carries what was sent, when it was stored, and who sent it. */
  lemma ReceivedDtoContents(caller: Caller, channelId: int, senderId: string, content: string, now: int, id: int)
    ensures var dto := ReceivedDto(caller, OutgoingMessage(channelId, senderId, content, now).(id := id));
      && dto.text == content && dto.timestamp == now
      && (caller.identityName.Some? ==> dto.senderUsername == caller.identityName.value)
      && (caller.identityName.None? ==> dto.senderUsername == senderId)
  {
  }

  class Hub {
    const db: Database
    var groups: map<string, set<string>>
    var outbox: seq<Broadcast>

    constructor (db: Database)
      ensures this.db == db && groups == map[] && outbox == []
    {
      this.db := db;
      groups := map[];
      outbox := [];
    }

    /** `JoinChannel`: after the checks pass, put the caller's connection in the channel's group. */
    method JoinChannel(caller: Caller, channelId: int) returns (r: Result<(), HubError>)
      modifies this
      ensures outbox == old(outbox)
      ensures var check := Authorize(db.channels, db.members, caller.userIdentifier, channelId);
        check.Err? ==> r == Err(check.error) && groups == old(groups)
      ensures var check := Authorize(db.channels, db.members, caller.userIdentifier, channelId);
        check.Ok? ==> r == Ok(()) && groups == AddToGroup(old(groups), GroupName(channelId), caller.connectionId)
    {
      var check := Authorize(db.channels, db.members, caller.userIdentifier, channelId);
      if check.Err? {
        return Err(check.error);
      }
      groups := AddToGroup(groups, GroupName(channelId), caller.connectionId);
      r := Ok(());
    }

    /** `LeaveChannel`: no checks; take the caller's connection out of the channel's group. */
    method LeaveChannel(caller: Caller, channelId: int)
      modifies this
      ensures outbox == old(outbox)
      ensures groups == RemoveFromGroup(old(groups), GroupName(channelId), caller.connectionId)
    {
      groups := RemoveFromGroup(groups, GroupName(channelId), caller.connectionId);
    }

    /** `SendMessage`: after the checks pass, store a message from the caller with the
      given content and push its DTO to the channel's group. Nothing is stored or
      pushed when a check or the save fails; a stored message is then in the channel's
      history. */
    method SendMessage(caller: Caller, channelId: int, content: string, now: int) returns (r: Result<MessageDto, HubError>)
      requires db.Valid()
      modifies this, db
      ensures db.Valid()
      ensures groups == old(groups)
      ensures var check := Authorize(old(db.channels), old(db.members), caller.userIdentifier, channelId);
        check.Err? ==> r == Err(check.error) && unchanged(db) && outbox == old(outbox)
      ensures var check := Authorize(old(db.channels), old(db.members), caller.userIdentifier, channelId);
        var target := MessageService.SaveTarget(old(db.servers), old(db.channels), channelId);
        check.Ok? && target.Err? ==> r == Err(SaveFailed(target.error)) && unchanged(db) && outbox == old(outbox)
      ensures var check := Authorize(old(db.channels), old(db.members), caller.userIdentifier, channelId);
        var target := MessageService.SaveTarget(old(db.servers), old(db.channels), channelId);
        var saved := OutgoingMessage(channelId, caller.userIdentifier.GetOr(""), content, now).(id := NextKey(old(db.messages), MessageKey));
        check.Ok? && target.Ok? ==>
          && db.messages == old(db.messages) + [saved]
          && db.servers == MessageService.StampServer(old(db.servers), target.value, now)
          && db.members == old(db.members) && db.channels == old(db.channels) && db.invites == old(db.invites)
          && r == Ok(ReceivedDto(caller, saved))
          && outbox == old(outbox) + [Broadcast(GroupMembers(groups, GroupName(channelId)), "ReceiveMessage", ReceivedDto(caller, saved))]
          && (|Filter(db.messages, MessageService.InChannel(channelId))| <= IntMaxValue ==>
                saved in MessageService.ChannelHistory(db.messages, channelId, None))
    {
      var check := Authorize(db.channels, db.members, caller.userIdentifier, channelId);
      if check.Err? {
        return Err(check.error);
      }
      var message := OutgoingMessage(channelId, caller.userIdentifier.value, content, now);
      var saved := MessageService.SaveMessage(db, message);
      if saved.Err? {
        return Err(SaveFailed(saved.error));
      }
      if |Filter(db.messages, MessageService.InChannel(channelId))| <= IntMaxValue {
        MessageService.SavedMessageComesBack(old(db.messages), saved.value, now + 1, 1);
      }
      var dto := ReceivedDto(caller, saved.value);
      outbox := outbox + [Broadcast(GroupMembers(groups, GroupName(channelId)), "ReceiveMessage", dto)];
      r := Ok(dto);
    }
  }
}
