/** The handler behind the "member of this server" policy. */
module ServerMemberHandler {
  import opened Wrappers
  import opened Runtime
  import opened Models
  import opened Store
  import opened Authorization
  import opened RouteDataHelper
  import opened ServerService

  /** `HandleRequirementAsync`: a user id, an HTTP context, a server id resolved with
      the channel fallback, and a membership in that server. `httpContext` holds the
      request's route values, or null when there is no current request. */
  function HandleRequirement(
    userId: Option<string>, httpContext: Option<RouteValues>, routeKey: string,
    channels: seq<Channel>, members: seq<ServerMember>): Decision
  {
    if IsNullOrEmpty(userId) then Fail
    else if httpContext.None? then Fail
    else match GetServerIdFromRouteAsync(httpContext.value, routeKey, channels)
      case None => Fail
      case Some(serverId) => if IsUserMemberOfServer(members, serverId, userId.value) then Succeed else Fail
  }

  /** The handler succeeds exactly when every step passes, and fails otherwise. */
  lemma SucceedsExactlyForMembers(
    userId: Option<string>, httpContext: Option<RouteValues>, routeKey: string,
    channels: seq<Channel>, members: seq<ServerMember>)
    ensures HandleRequirement(userId, httpContext, routeKey, channels, members) == Succeed <==>
      && !IsNullOrEmpty(userId)
      && httpContext.Some?
      && GetServerIdFromRouteAsync(httpContext.value, routeKey, channels).Some?
      && IsUserMemberOfServer(members, GetServerIdFromRouteAsync(httpContext.value, routeKey, channels).value, userId.value)
    ensures IsNullOrEmpty(userId) || httpContext.None? ==> HandleRequirement(userId, httpContext, routeKey, channels, members) == Fail
  {
  }

  /** A route that names only a channel is enough: a member of the channel's server passes. */
  lemma ChannelOnlyRouteCanSucceed(userId: string, channelText: string, channels: seq<Channel>, members: seq<ServerMember>, c: Channel)
    requires userId != ""
    requires UniqueBy(channels, ChannelKey) && c in channels
    requires TryParseInt(Some(channelText)) == Some(c.id)
    requires IsUserMemberOfServer(members, c.serverId, userId)
    ensures HandleRequirement(Some(userId), Some(ChannelOnlyRoute(channelText)), DefaultRouteKey, channels, members) == Succeed
  {
    ChannelOnlyRouteResolves(channelText, channels, c);
  }

  /** A route naming only a channel that does not exist fails, whoever asks. */
  lemma UnknownChannelRouteFails(
    userId: Option<string>, channelText: string, channels: seq<Channel>, members: seq<ServerMember>)
    requires TryParseInt(Some(channelText)).Some?
    requires forall c :: c in channels ==> c.id != TryParseInt(Some(channelText)).value
    ensures HandleRequirement(userId, Some(ChannelOnlyRoute(channelText)), DefaultRouteKey, channels, members) == Fail
  {
    ChannelOnlyRouteHasNoServerId(channelText);
    UnknownChannelIdResolvesToNothing(
      ChannelOnlyRoute(channelText), DefaultRouteKey, channels, TryParseInt(Some(channelText)).value);
  }
}
