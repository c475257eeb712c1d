/** Finding the server a request is about from its route values: the requirement's
    route key first, then `"id"`, then (in the asynchronous version only) a
    `channelId` resolved to its channel's server. A route value is kept as the text
    its `ToString()` gives, or null. */
module RouteDataHelper {
  import opened Wrappers
  import opened Runtime
  import opened Models
  import ChannelService
  import opened Store

  /** A request's route values. The dictionary compares names with
      `StringComparison.OrdinalIgnoreCase`, so each entry is filed under its name's
      case fold: names that differ only in case are one entry. */
  type RouteValues = map<string, Option<string>>

  /** The requirement classes' default route key. */
  const DefaultRouteKey: string := "serverId"

  /** Every entry is filed under a name that is its own case fold. */
  predicate Folded(routes: RouteValues) {
    forall k :: k in routes ==> FoldCase(k) == k
  }

  /** Setting a value keeps the dictionary filed by case fold. */
  lemma SetRouteValueKeepsFolded(routes: RouteValues, name: string, v: Option<string>)
    requires Folded(routes)
    ensures Folded(SetRouteValue(routes, name, v))
    ensures Folded(ChannelOnlyRoute(name))
  {
    FoldCaseIdempotent(name);
    FoldCaseIdempotent("channelId");
  }

  /** The routing system setting a route value, under any spelling of its name. */
  function SetRouteValue(routes: RouteValues, name: string, v: Option<string>): RouteValues {
    routes[FoldCase(name) := v]
  }

  /** `TryGetValue(name, out v)` followed by `v?.ToString()`: null when the name is
      missing or its value is null. */
  function GetRouteValue(routes: RouteValues, name: string): Option<string> {
    if FoldCase(name) in routes then routes[FoldCase(name)] else None
  }

  /** `TryGetValue(key, out v) && int.TryParse(v?.ToString(), out n)`. */
  function ParsedRouteValue(routes: RouteValues, key: string): Option<int> {
    TryParseInt(GetRouteValue(routes, key))
  }

  /** The route values of a request that names only a channel. */
  function ChannelOnlyRoute(channelText: string): RouteValues {
    SetRouteValue(map[], "channelId", Some(channelText))
  }

  /** `GetServerIdFromRoute`: the route key, then `"id"` unless the route key is `"id"`. */
  function GetServerIdFromRoute(routes: RouteValues, routeKey: string): Option<int> {
    if ParsedRouteValue(routes, routeKey).Some? then ParsedRouteValue(routes, routeKey)
    else if routeKey != "id" && ParsedRouteValue(routes, "id").Some? then ParsedRouteValue(routes, "id")
    else None
  }

  /** `GetServerIdFromRouteAsync`: as above, then a parseable `channelId` stands for its
      channel's server, or null when there is no such channel. */
  function GetServerIdFromRouteAsync(routes: RouteValues, routeKey: string, channels: seq<Channel>): Option<int> {
    if ParsedRouteValue(routes, routeKey).Some? then ParsedRouteValue(routes, routeKey)
    else if routeKey != "id" && ParsedRouteValue(routes, "id").Some? then ParsedRouteValue(routes, "id")
    else if ParsedRouteValue(routes, "channelId").Some? then
      match ChannelService.GetChannel(channels, ParsedRouteValue(routes, "channelId").value)
      case None => None
      case Some(channel) => Some(channel.serverId)
    else None
  }

  /** A number under the route key wins; failing that a number under `"id"` (looked
      up only when the route key is not `"id"`); a value under the route key that is
      not a number is passed over, not an error. */
  lemma RouteKeyThenId(routes: RouteValues, routeKey: string)
    ensures ParsedRouteValue(routes, routeKey).Some? ==>
      GetServerIdFromRoute(routes, routeKey) == ParsedRouteValue(routes, routeKey)
    ensures ParsedRouteValue(routes, routeKey).None? && routeKey != "id" ==>
      GetServerIdFromRoute(routes, routeKey) == ParsedRouteValue(routes, "id")
    ensures routeKey == "id" ==> GetServerIdFromRoute(routes, routeKey) == ParsedRouteValue(routes, "id")
    ensures GetServerIdFromRoute(routes, routeKey).Some? <==>
      ParsedRouteValue(routes, routeKey).Some? || (routeKey != "id" && ParsedRouteValue(routes, "id").Some?)
  {
  }

  /** Names are matched ignoring case: a value set under any spelling of a name is
      found under every other spelling of it. */
  lemma NamesIgnoreCase(routes: RouteValues, name: string, other: string, v: Option<string>)
    requires FoldCase(name) == FoldCase(other)
    ensures GetRouteValue(SetRouteValue(routes, name, v), other) == v
  {
  }

  /** A server id written into the route as text, under any spelling of the route key
      (`"ServerId"` for the key `"serverId"`, say), is the id both lookups find. */
  lemma FormattedIdIsFound(routes: RouteValues, name: string, routeKey: string, id: int, channels: seq<Channel>)
    requires FoldCase(name) == FoldCase(routeKey) && InInt32Range(id)
    ensures GetServerIdFromRoute(SetRouteValue(routes, name, Some(IntToString(id))), routeKey) == Some(id)
    ensures GetServerIdFromRouteAsync(SetRouteValue(routes, name, Some(IntToString(id))), routeKey, channels) == Some(id)
  {
    TryParseIntOfIntToString(id);
    NamesIgnoreCase(routes, name, routeKey, Some(IntToString(id)));
  }

  /** The synchronous version never reads `channelId` unless the route key is that
      name in some spelling. */
  lemma SyncIgnoresChannelId(routes: RouteValues, routeKey: string, v: Option<string>)
    requires FoldCase(routeKey) != FoldCase("channelId")
    ensures GetServerIdFromRoute(SetRouteValue(routes, "channelId", v), routeKey) == GetServerIdFromRoute(routes, routeKey)
  {
    assert |FoldCase("id")| != |FoldCase("channelId")|;
    assert ParsedRouteValue(SetRouteValue(routes, "channelId", v), routeKey) == ParsedRouteValue(routes, routeKey);
    assert ParsedRouteValue(SetRouteValue(routes, "channelId", v), "id") == ParsedRouteValue(routes, "id");
  }

  /** Whenever the synchronous version finds a server id, the asynchronous one finds the same. */
  lemma AsyncAgreesWithSync(routes: RouteValues, routeKey: string, channels: seq<Channel>)
    ensures GetServerIdFromRoute(routes, routeKey).Some? ==>
      GetServerIdFromRouteAsync(routes, routeKey, channels) == GetServerIdFromRoute(routes, routeKey)
    ensures GetServerIdFromRoute(routes, routeKey).None? && ParsedRouteValue(routes, "channelId").None? ==>
      GetServerIdFromRouteAsync(routes, routeKey, channels).None?
  {
  }

  /** When only a channel id identifies the request, the asynchronous version answers
      with that channel's server. */
  lemma ChannelIdResolvesToItsServer(routes: RouteValues, routeKey: string, channels: seq<Channel>, c: Channel)
    requires UniqueBy(channels, ChannelKey) && c in channels
    requires GetServerIdFromRoute(routes, routeKey).None? && ParsedRouteValue(routes, "channelId") == Some(c.id)
    ensures GetServerIdFromRouteAsync(routes, routeKey, channels) == Some(c.serverId)
  {
    ChannelService.GetChannelReturnsThatChannel(channels, c.id);
  }

  /** A `channelId` that names no channel resolves to nothing: `channel?.ServerId` is null. */
  lemma UnknownChannelIdResolvesToNothing(routes: RouteValues, routeKey: string, channels: seq<Channel>, id: int)
    requires GetServerIdFromRoute(routes, routeKey).None? && ParsedRouteValue(routes, "channelId") == Some(id)
    requires forall c :: c in channels ==> c.id != id
    ensures GetServerIdFromRouteAsync(routes, routeKey, channels).None?
  {
  }

  /** A route carrying only a numeric `channelId` of an existing channel: the
      synchronous version finds nothing while the asynchronous one finds the server. */
  lemma ChannelOnlyRouteResolves(channelText: string, channels: seq<Channel>, c: Channel)
    requires UniqueBy(channels, ChannelKey) && c in channels
    requires TryParseInt(Some(channelText)) == Some(c.id)
    ensures GetServerIdFromRoute(ChannelOnlyRoute(channelText), DefaultRouteKey).None?
    ensures GetServerIdFromRouteAsync(ChannelOnlyRoute(channelText), DefaultRouteKey, channels) == Some(c.serverId)
  {
    ChannelOnlyRouteHasNoServerId(channelText);
    ChannelIdResolvesToItsServer(ChannelOnlyRoute(channelText), DefaultRouteKey, channels, c);
  }

  /** Under a channel-only route neither the default route key nor `"id"` has a value. */
  lemma ChannelOnlyRouteHasNoServerId(channelText: string)
    ensures GetRouteValue(ChannelOnlyRoute(channelText), DefaultRouteKey).None?
    ensures GetRouteValue(ChannelOnlyRoute(channelText), "id").None?
    ensures ParsedRouteValue(ChannelOnlyRoute(channelText), "channelId") == TryParseInt(Some(channelText))
  {
    assert |FoldCase(DefaultRouteKey)| != |FoldCase("channelId")|;
    assert |FoldCase("id")| != |FoldCase("channelId")|;
  }
}
