/** The handler behind the "owner of this server" policy. It reads the server id
    itself, from the requirement's route key only. */
module ServerOwnerHandler {
  import opened Wrappers
  import opened Runtime
  import opened Models
  import opened Authorization
  import opened RouteDataHelper
  import opened ServerService
  import ServerMemberHandler
  import ServerModeratorHandler

  /** `HandleRequirementAsync`: a user id, a resource that is an HTTP context (its route
      values, or null when the resource is anything else), a non-null value under the
      route key that parses as an integer, and an Owner membership in that server. */
  function HandleRequirement(
    userId: Option<string>, resource: Option<RouteValues>, routeKey: string, members: seq<ServerMember>): Decision
  {
    if IsNullOrEmpty(userId) then Fail
    else if resource.None? then Fail
    else if GetRouteValue(resource.value, routeKey).None? then Fail
    else match ParsedRouteValue(resource.value, routeKey)
      case None => Fail
      case Some(serverId) => if IsUserOwnerOfServer(members, serverId, userId.value) then Succeed else Fail
  }

  /** The handler succeeds exactly when the route key holds a number naming a server the
      user owns; a missing or null value fails with no fallback to `"id"` or `channelId`,
      and so does a value that is not an integer. */
  lemma SucceedsExactlyForOwners(
    userId: Option<string>, resource: Option<RouteValues>, routeKey: string, members: seq<ServerMember>)
    ensures HandleRequirement(userId, resource, routeKey, members) == Succeed <==>
      && !IsNullOrEmpty(userId)
      && resource.Some?
      && ParsedRouteValue(resource.value, routeKey).Some?
      && IsUserOwnerOfServer(members, ParsedRouteValue(resource.value, routeKey).value, userId.value)
    ensures resource.Some? && ParsedRouteValue(resource.value, routeKey).None? ==>
      HandleRequirement(userId, resource, routeKey, members) == Fail
  {
  }

  /** The three policies nest on the same request: whoever passes the owner check passes
      the moderator check, and whoever passes that passes the member check. */
  lemma PoliciesNest(
    userId: Option<string>, routes: RouteValues, routeKey: string,
    channels: seq<Channel>, members: seq<ServerMember>)
    ensures HandleRequirement(userId, Some(routes), routeKey, members) == Succeed ==>
      ServerModeratorHandler.HandleRequirement(userId, Some(routes), routeKey, members) == Succeed
    ensures ServerModeratorHandler.HandleRequirement(userId, Some(routes), routeKey, members) == Succeed ==>
      ServerMemberHandler.HandleRequirement(userId, Some(routes), routeKey, channels, members) == Succeed
  {
    AsyncAgreesWithSync(routes, routeKey, channels);
  }
}
