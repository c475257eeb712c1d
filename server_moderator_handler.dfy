/** The handler behind the "moderator of this server" policy. It resolves the server
    id without the channel fallback. */
module ServerModeratorHandler {
  import opened Wrappers
  import opened Runtime
  import opened Models
  import opened Authorization
  import opened RouteDataHelper
  import opened ServerService

  /** `HandleRequirementAsync`: a user id, an HTTP context, a server id from the route
      key or `"id"`, and a Moderator or Owner membership in that server. */
  function HandleRequirement(
    userId: Option<string>, httpContext: Option<RouteValues>, routeKey: string, members: seq<ServerMember>): Decision
  {
    if IsNullOrEmpty(userId) then Fail
    else if httpContext.None? then Fail
    else match GetServerIdFromRoute(httpContext.value, routeKey)
      case None => Fail
      case Some(serverId) => if IsUserModeratorOfServer(members, serverId, userId.value) then Succeed else Fail
  }

  /** The handler succeeds exactly when every step passes, and fails otherwise. */
  lemma SucceedsExactlyForModerators(
    userId: Option<string>, httpContext: Option<RouteValues>, routeKey: string, members: seq<ServerMember>)
    ensures HandleRequirement(userId, httpContext, routeKey, members) == Succeed <==>
      && !IsNullOrEmpty(userId)
      && httpContext.Some?
      && GetServerIdFromRoute(httpContext.value, routeKey).Some?
      && IsUserModeratorOfServer(members, GetServerIdFromRoute(httpContext.value, routeKey).value, userId.value)
    ensures IsNullOrEmpty(userId) || httpContext.None? ==> HandleRequirement(userId, httpContext, routeKey, members) == Fail
  {
  }

  /** A route that names only a channel never passes, whoever asks. */
  lemma ChannelOnlyRouteFails(userId: Option<string>, channelText: string, members: seq<ServerMember>)
    ensures HandleRequirement(userId, Some(ChannelOnlyRoute(channelText)), DefaultRouteKey, members) == Fail
  {
    ChannelOnlyRouteHasNoServerId(channelText);
  }
}
