# Corkboard chat core in Dafny

Corkboard is a chat application: users belong to servers, servers hold channels,
and channels hold messages. This project models the part of it that decides things:

- the message history queries, which page through a channel newest-first and return
  each page oldest-first, and the message append that stamps the server's last-message
  time;
- the server, membership, channel and invite stores, with the keys and unique indexes
  of the schema (one membership per server and user, one invite per code);
- the role queries: member, moderator (Moderator or Owner role) and owner;
- the real-time hub's join, leave and send, over a group registry (group name to
  connection ids) and an outbox of pushes, each push being its set of recipients;
- the guard chains of the invite redemption pages, the server pages (index, details,
  join, create) and the three authorization handlers;
- route-id resolution: the requirement's route key, then `"id"`, then a `channelId`
  resolved to its channel's server;
- the entity records, their default values and their data-annotation validation rules.

The database is a `Database` class whose tables are sequences of rows in insertion
order; its `Valid()` invariant is the primary keys, the two unique indexes and the
foreign keys from memberships to servers and from messages to channels. Each state-changing service operation is a
method over that class, proved against the new state it leaves and shown to keep
`Valid()`. The queries are functions built from `Where`, a stable `OrderBy`, `Take`
and `Reverse`. The history methods build the query's list in an array and reverse it
in place. Time is an integer number of seconds, and the current time is a parameter.

Modules: `Wrappers` (option and result), `Runtime` (the .NET pieces: `Int32` range,
`int.TryParse`, `ToString`, `char.IsWhiteSpace`, the scheme test of `[Url]`),
`Sequences` (the LINQ operators), `Models`, `Store`, `MessageService`, `ServerService`,
`ChannelService`, `InviteService`, `ChatHub`, `InvitesController`, `ServersController`,
`RouteDataHelper`, `Authorization` (the handlers' shared outcome type),
`ServerMemberHandler`, `ServerModeratorHandler`, `ServerOwnerHandler`.

## Model

| member | source | states |
|---|---|---|
| Models.RoleTypeOrder | Corkboard/Models/ServerMember.cs:6-16 | The roles are ordered Member, Moderator, Owner as declared, so a role at or above Moderator's value is exactly Moderator or Owner, and one at or above Owner's is exactly Owner. |
| Models.NewServerValidIffOwnerPresent | Corkboard.Tests/Models/ServerTests.cs:603-621 | A server built with only its owner set is named "My Server" with id 0, and it passes validation exactly when the owner id is not blank. |
| Models.ServerNameBoundaries | Corkboard/Models/Server.cs:20-22 | A 100-character name is accepted and a 101-character one is rejected; empty and white-space-only names are rejected. |
| Models.ServerNameContentAgnostic | Corkboard.Tests/Models/ServerTests.cs:458-473 | Any non-blank name of at most 100 characters can replace a valid server's name and the server stays valid; no character is refused. |
| Models.SqlAndHtmlNamesAccepted | Corkboard.Tests/Models/ServerTests.cs:500-515 | Names and descriptions holding SQL or script text pass validation and are kept as given. |
| Models.ServerDescriptionBoundaries | Corkboard/Models/Server.cs:34-35 | A missing description is accepted, 1000 characters are accepted, 1001 are rejected. |
| Models.ServerIconUrlRules | Corkboard/Models/Server.cs:27-29 | A missing icon is accepted; an icon needs an http, https or ftp scheme and at most 2048 characters. |
| Models.EmptyOwnerRejected | Corkboard/Models/Server.cs:40-41 | A server with an empty owner id fails validation. |
| Models.NewServerInviteDefaults | Corkboard/Models/ServerInvite.cs:29-42 | A new invite is one-time, unused, used zero times, open to anyone, and expires exactly seven days after its creation time. |
| Models.NewServerMemberDefaults | Corkboard/Models/ServerMember.cs:44-63 | A new membership has the Member role and joined now. Its user id passes its own `[Required]` rule exactly when it is not blank. Validating the whole membership throws `InvalidCastException` whatever the user id, because `[MaxLength(50)]` on the enum-typed role cannot measure it. |
| Models.MessageRules | Corkboard/Models/Message.cs:44-51 | A new message carries the construction time, its default empty content fails `[Required]`, and content over 5000 characters fails. |
| Models.ChannelRules | Corkboard/Models/Channel.cs:20-39 | A new channel carries the construction time and its default empty name fails; a name is valid exactly when it is not blank and at most 100 characters. |
| Store.FindUnique | Corkboard/Data/Services/MessageService.cs:88 | With unique keys, a lookup by primary key returns the one row holding that key. |
| Store.FindAfterAppend | Corkboard/Data/Services/ServerService.cs:91-92 | After an insert, a key is found exactly when it was found before or is the new row's key. |
| Sequences.ReverseInPlace | Corkboard/Data/Services/MessageService.cs:63-64 | Reversing the list in place leaves it holding the old list in reverse order. |
| MessageService.NewestPage | Corkboard/Data/Services/MessageService.cs:56-64 | A page is drawn from the matching messages, has length min(limit, matches) (zero for a limit of zero or less), holds no message more often than it matches, is all of them when the limit is large enough, is oldest first, and every match left out is no newer than every message kept. |
| MessageService.ChannelHistoryProperties | Corkboard/Data/Services/MessageService.cs:54-66 | Every message returned is a stored message of that channel; there are at most `limit`; the list is oldest first; any message of the channel left out is no newer than any returned. |
| MessageService.ChannelHistoryWithoutLimitIsComplete | Corkboard/Data/Services/MessageService.cs:60 | With a null limit every message of the channel is returned, each as often as it is stored (for up to `int.MaxValue` messages). |
| MessageService.HistoryBeforeProperties | Corkboard/Data/Services/MessageService.cs:69-82 | Every message returned belongs to the channel and is strictly older than the timestamp; at most `limit`; oldest first; the newest such messages. |
| MessageService.HistoryBeforeEmptyIff | Corkboard/Data/Services/MessageService.cs:72-77 | With a positive limit, the page is empty exactly when the channel has no message older than the timestamp. |
| MessageService.GetMessagesForChannel | Corkboard/Data/Services/MessageService.cs:54-66 | Building the query's list and reversing it in place yields the channel history page. |
| MessageService.GetMessagesBeforeTimestamp | Corkboard/Data/Services/MessageService.cs:69-82 | Building the query's list and reversing it in place yields the page before the timestamp. |
| MessageService.SaveTarget | Corkboard/Data/Services/MessageService.cs:87-98 | The save is refused as channel-not-found exactly when no channel has the id; when accepted, it targets an existing server that a channel with the id belongs to. |
| MessageService.SaveTargetOfChannel | Corkboard/Data/Services/MessageService.cs:88-98 | With unique channel keys, a save into an existing channel targets that channel's server, or is refused as server-not-found when that server is missing. |
| MessageService.StampServer | Corkboard/Data/Services/MessageService.cs:100 | Stamping keeps the number of servers. |
| MessageService.StampServerChangesOnlyThatServer | Corkboard/Data/Services/MessageService.cs:100 | Stamping sets the last-message time of the server with the id, leaves every other server and every key as it was, and keeps keys unique. |
| MessageService.StampServerKeepsKeys | Corkboard/Data/Services/MessageService.cs:100 | After stamping, a server key is found exactly when it was found before. |
| MessageService.NewestMatchIsOnEveryPage | Corkboard/Data/Services/MessageService.cs:75-76 | A match strictly newer than every other match is on every page whose limit is positive. |
| MessageService.SavedMessageComesBack | Corkboard/Data/Services/MessageService.cs:54-104 | A saved message, with its content, sender and time as stored, is returned by the unlimited history of its channel. It is also on every page before a later time with a positive limit, when every other message of the channel is older. |
| MessageService.SaveMessage | Corkboard/Data/Services/MessageService.cs:85-104 | A missing channel or server refuses the save and changes nothing; otherwise the message is appended under a fresh key and returned, only the owning server's last-message time changes, and the database stays valid. |
| ServerService.RoleOfMembership | Corkboard/Authorization/Handlers/ServerModeratorHandler.cs:10 | With one membership per server and user, that membership makes the user a member, a moderator exactly when its role is above Member, and an owner exactly when its role is Owner. |
| ServerService.MemberCountAfterAdd | Corkboard/Models/Server.cs:59 | Adding a membership raises its own server's member count by one and no other server's. |
| ServerService.NoMembersOfUnreferencedServer | Corkboard/Models/Server.cs:57-59 | A server no membership row points at has an empty member collection and a member count of zero. |
| ServerService.ServersForUserExactly | Corkboard/Data/Services/ServerService.cs:61-72 | A server is listed for a user exactly when it is stored and the user has a membership in it. |
| ServerService.GetServerReturnsThatServer | Corkboard/Data/Services/ServerService.cs:75-85 | With unique keys, the lookup returns the server with that id, and null exactly when there is none. |
| ServerService.NewServerHasOnlyItsOwner | Corkboard/Data/Services/ServerService.cs:88-111 | A server created under the next key starts with exactly one member, and its creator owns it. |
| ServerService.CreateServer | Corkboard/Data/Services/ServerService.cs:88-111 | The server is stored under a fresh key and returned; exactly one Owner membership for the creator and one channel named "general" in the new server are added; the database stays valid. |
| ServerService.JoinServer | Corkboard/Data/Services/ServerService.cs:114-123 | Joining when already a member changes nothing; joining an unknown server is refused by the foreign key and changes nothing; otherwise exactly one Member-role membership is added. After success the user is a member, and the database stays valid. |
| ChannelService.ChannelsForServerExactly | Corkboard/Data/Services/ChannelService.cs:50-56 | The listing holds every channel of the server, as often as stored, and no other channel, with creation times never decreasing. |
| ChannelService.GetChannelReturnsThatChannel | Corkboard/Data/Services/ChannelService.cs:59-62 | With unique keys, the lookup returns the channel with that id, and null exactly when there is none. |
| ChannelService.CreateChannel | Corkboard/Data/Services/ChannelService.cs:65-71 | The channel's creation time is overwritten with now, and it is appended under a fresh key and returned; existing channels and other tables are unchanged. The new channel's history is empty. |
| ChannelService.CreatedChannelIsListed | Corkboard/Data/Services/ChannelService.cs:68 | After an insert, the new channel and every channel listed before are in its server's listing. |
| ChannelService.CreatedChannelListsLast | Corkboard/Data/Services/ChannelService.cs:50-56 | A channel created no earlier than every other channel of its server is listed last, after the earlier listing in its old order. |
| ChannelService.NewChannelHasNoMessages | Corkboard/Models/Channel.cs:44 | While every message names an existing channel, a channel stored under the next key has no messages, and every history page of it is empty. |
| Sequences.SortByAppendLargest | Corkboard/Data/Services/ChannelService.cs:54 | The stable sort puts an appended element whose key is at least every other key at the end, and keeps the sorted order of the rest. |
| InviteService.GetInviteReturnsThatInvite | Corkboard/Data/Services/InviteService.cs:26-29 | With unique keys, the lookup returns the invite with that id, and null exactly when there is none. |
| InviteService.CreateInvite | Corkboard/Data/Services/InviteService.cs:31-36 | The invite is appended under a fresh key and that same invite is returned; existing invites are unchanged; a code already in use is refused by the unique index and nothing changes. |
| InviteService.CreatedInviteIsFound | Corkboard/Data/Services/InviteService.cs:31-36 | A stored invite is found again by its key exactly as it was returned. |
| ChatHub.GroupNameInjective | Corkboard/Hubs/ChatHub.cs:44 | Two channels with the same group name are the same channel. |
| ChatHub.AddToGroupOnlyThatGroup | Corkboard/Hubs/ChatHub.cs:45 | Joining adds the connection to that group and leaves every other group as it was. |
| ChatHub.RemoveFromGroupOnlyThatGroup | Corkboard/Hubs/ChatHub.cs:48-52 | Leaving removes the connection from that group only; removing an absent connection leaves the registry unchanged. |
| ChatHub.JoinThenLeave | Corkboard/Hubs/ChatHub.cs:44-51 | Leaving right after joining a group the connection was not in restores every group. |
| ChatHub.AuthorizeExactly | Corkboard/Hubs/ChatHub.cs:25-42 | A caller passes exactly when authenticated, the channel exists, and the caller is a member of its server; no user id is reported first, and an unknown channel before the membership test. |
| ChatHub.AuthorizedSaveTarget | Corkboard/Hubs/ChatHub.cs:62-84 | Once the hub's checks pass, a save can only be refused because the channel's server is missing. |
| ChatHub.ReceivedDtoContents | Corkboard/Hubs/ChatHub.cs:88-95 | The pushed DTO carries the content as text and the saved time, and its sender name is the identity's name, falling back to the sender id. |
| ChatHub.Hub.constructor | Corkboard/Hubs/ChatHub.cs:15-20 | A hub starts with no groups and no pushes over the given database. |
| ChatHub.Hub.JoinChannel | Corkboard/Hubs/ChatHub.cs:22-46 | A failed check returns its error and changes no group; success adds the connection to the channel's group. Nothing is pushed. |
| ChatHub.Hub.LeaveChannel | Corkboard/Hubs/ChatHub.cs:48-52 | Without any check, the connection is removed from the channel's group. |
| ChatHub.Hub.SendMessage | Corkboard/Hubs/ChatHub.cs:54-99 | A failed check or save changes neither the database nor the outbox. Otherwise one message from the caller with the content and the current time is stored, and exactly one push of its DTO goes to the channel group's connections. The stored message then comes back from the channel's unlimited history. |
| InvitesController.RedeemExactly | Corkboard/Controllers/InvitesController.cs:38-56 | The page is NotFound exactly for a missing, spent or expired invite (even one addressed to someone else). It is Unauthorized exactly for a usable invite addressed to another user, and shows the invite otherwise. |
| InvitesController.NewInviteLastsSevenDays | Corkboard/Controllers/InvitesController.cs:45 | A new invite is shown to anyone until seven days after creation, inclusive of that instant, and is NotFound after. |
| InvitesController.RedemptionOnlyAfterChecks | Corkboard/Controllers/InvitesController.cs:64-100 | Redemption is asked for exactly when the invite exists, is neither spent nor expired, and is open to the caller, which is exactly when the GET would show it. It is asked for that invite's id and the caller. |
| InvitesController.RedeemConfirmedOutcomes | Corkboard/Controllers/InvitesController.cs:64-100 | Missing gives NotFound; spent or expired redisplays with an error; another user's gives Unauthorized; a null redemption redisplays the refetched invite with an error; success redirects to the invite's server. |
| ServersController.IndexListsOwnServers | Corkboard/Controllers/ServersController.cs:32-43 | An anonymous caller is challenged; otherwise exactly the caller's servers are listed. |
| ServersController.DetailsShowsThatServer | Corkboard/Controllers/ServersController.cs:51-60 | Details redirects to the index exactly when no server has the id, and otherwise shows that server; the join page shows the same server. |
| ServersController.FormServersAreValid | Corkboard/Controllers/ServersController.cs:96-102 | A valid form submitted by a user with a non-blank id builds a valid public server owned by that user. |
| ServersController.Create | Corkboard/Controllers/ServersController.cs:80-108 | An anonymous caller is challenged and an invalid form redisplayed, with nothing created. Otherwise the server built from the form is created with the caller as owner, and the result redirects to its details. |
| ServersController.JoinConfirmed | Corkboard/Controllers/ServersController.cs:133-158 | An anonymous caller, an unknown id or a non-public server changes nothing (Challenge, redirect to index, Unauthorized). A public server is joined, the caller is then a member, and the result redirects to its details. |
| RouteDataHelper.RouteKeyThenId | Corkboard/Authorization/Helpers/RouteDataHelper.cs:63-81 | A number under the route key wins; failing that, a number under "id", looked up only when the route key is not "id"; a non-numeric value under the route key falls through. |
| RouteDataHelper.NamesIgnoreCase | Corkboard/Authorization/Helpers/RouteDataHelper.cs:66 | A route value set under any spelling of a name is found under every spelling equal to it ignoring case. |
| RouteDataHelper.FormattedIdIsFound | Corkboard/Authorization/Helpers/RouteDataHelper.cs:28-81 | An `int` server id written as text under any spelling of the route key (`ServerId` for `serverId`) is the id both lookups return. |
| RouteDataHelper.SyncIgnoresChannelId | Corkboard/Authorization/Helpers/RouteDataHelper.cs:63-81 | The synchronous lookup gives the same answer whatever `channelId` holds, unless the route key equals `channelId` ignoring case. |
| RouteDataHelper.AsyncAgreesWithSync | Corkboard/Authorization/Helpers/RouteDataHelper.cs:28-54 | Whenever the synchronous lookup finds an id the asynchronous one finds the same id; with no numeric `channelId` both find nothing together. |
| RouteDataHelper.ChannelIdResolvesToItsServer | Corkboard/Authorization/Helpers/RouteDataHelper.cs:45-51 | When only a channel id identifies the request, the asynchronous lookup answers with that channel's server. |
| RouteDataHelper.UnknownChannelIdResolvesToNothing | Corkboard/Authorization/Helpers/RouteDataHelper.cs:46-51 | When only a channel id identifies the request and no channel has that id, the asynchronous lookup answers null. |
| RouteDataHelper.SetRouteValueKeepsFolded | Corkboard/Authorization/Helpers/RouteDataHelper.cs:66 | Setting a route value keeps every entry filed under its own case fold, so names that differ only in case stay one entry. |
| RouteDataHelper.ChannelOnlyRouteHasNoServerId | Corkboard/Authorization/Helpers/RouteDataHelper.cs:66-75 | A route holding only `channelId` has no value under the default route key or under `id`, and its parsed `channelId` is the parse of its text. |
| RouteDataHelper.ChannelOnlyRouteResolves | Corkboard/Authorization/Helpers/RouteDataHelper.cs:28-81 | For a route holding only a numeric `channelId` of an existing channel, the synchronous lookup finds nothing while the asynchronous one finds the channel's server. |
| ServerMemberHandler.SucceedsExactlyForMembers | Corkboard/Authorization/Handlers/ServerMemberHandler.cs:40-79 | The handler succeeds exactly when the user id is not null or empty, there is an HTTP context, a server id resolves (with the channel fallback), and the user is a member; otherwise it fails. |
| ServerMemberHandler.ChannelOnlyRouteCanSucceed | Corkboard/Authorization/Handlers/ServerMemberHandler.cs:62 | A route naming only a channel lets a member of the channel's server pass. |
| ServerMemberHandler.UnknownChannelRouteFails | Corkboard/Authorization/Handlers/ServerMemberHandler.cs:61-67 | A route naming only a channel id that no channel has fails, whoever asks. |
| ServerModeratorHandler.SucceedsExactlyForModerators | Corkboard/Authorization/Handlers/ServerModeratorHandler.cs:40-79 | The handler succeeds exactly when the user id is not null or empty, there is an HTTP context, a server id resolves without the channel fallback, and the user is a moderator or owner. |
| ServerModeratorHandler.ChannelOnlyRouteFails | Corkboard/Authorization/Handlers/ServerModeratorHandler.cs:62 | A route naming only a channel always fails. |
| ServerOwnerHandler.SucceedsExactlyForOwners | Corkboard/Authorization/Handlers/ServerOwnerHandler.cs:30-75 | The handler succeeds exactly when the user id is not null or empty, the resource is an HTTP context, and the route key holds an integer naming a server the user owns. A missing, null or non-integer value fails, with no fallback. |
| ServerOwnerHandler.PoliciesNest | Corkboard/Authorization/Handlers/ServerOwnerHandler.cs:30-75 | On the same request, passing the owner check implies passing the moderator check, which implies passing the member check. |

## Left out

- Real-time transport: SignalR connections, delivery of pushes and concurrency between hub calls are not modelled. Groups are a map from group name to connection ids, and a push is the set of connections it goes to at the moment of sending.
- Asynchrony and database mechanics: `await`, change tracking, `Include`/`ThenInclude` loading and transactions are not modelled. A navigation collection (`Server.Members`, `Server.Channels`, `Channel.Messages`) is the rows whose foreign key names the record.
- Key assignment: every inserted row receives one more than the largest key in its table, as AUTOINCREMENT does when nothing is deleted. Caller-supplied non-zero keys and 32-bit overflow of keys are not modelled.
- Foreign keys: only `ServerMembers.ServerId` and `Messages.ChannelId` are enforced. The first keeps the one-membership-per-user index true through server creation; the second makes a new channel's history empty. The keys from channels to servers and invites to servers, and every user-id column, are not enforced. So `SaveMessage` keeps a reachable missing-server branch.
- Users are opaque string ids. The user-manager and claims lookups are parameters, and the identity framework is not modelled.
- The clock: `DateTime.UtcNow` is the parameter `now`, and times are integer seconds. One reading serves all defaults set together.
- Order among equal timestamps: the database gives no order for ties in `OrderByDescending`/`OrderBy`. The model sorts stably, and every order property is stated with `<=`. `GetServersForUserAsync` has no ordering, and the model keeps table order.
- Validation details: `[Url]` is modelled as its scheme test only (http://, https:// or ftp://, ASCII case-insensitive). Lengths count characters, not UTF-16 code units. `int.TryParse` is modelled without surrounding white space, culture signs or thousands separators. `int.ToString()` in the group name is modelled for a culture whose negative sign is `-`.
- Route value names are compared ignoring the case of ASCII letters only; the case folding of other letters under `OrdinalIgnoreCase` is not modelled.
- A null `Server.Name` is not representable: names are non-null strings.
- `ModelState.IsValid` is modelled as the form's validation attributes. Model-binding errors are not modelled.
- `GetInviteByCodeAsync` and `RedeemInviteAsync` are not defined in the invite service. The looked-up invite and the refetched one are parameters of the invite pages, and redemption is a function from (invite id, user id) to a membership or null. Its effect on the store is not modelled.
- The invite record follows the invite pages and the migrations: it has a code, an optional invited user and an optional expiry, none of which `ServerInvite.cs` itself declares.
- `Server.PrivacyLevel` (Public or NonPublic, default Public) and `Server.LastMessageTimeStamp` (default null) are not declared in `Server.cs`, but the server pages and the message service use them.
- The owner membership created with a new server gets the Owner role, for the text "owner" that `CreateServerAsync` assigns to the enum-typed role.
- `IsUserMemberOfServerAsync`, `IsUserModeratorOfServerAsync` and `IsUserOwnerOfServerAsync` are not defined in the server service. They are modelled as queries over the membership rows.
- Entity validation on save: nothing validates records when they are stored, so the hub stores empty or over-long message content as given, and the model does the same.
- The hub's null check after `SaveMessageAsync` cannot fire, because that method returns the message or throws. The model's `SaveFailed` carries the exception the save throws.
- The GET create page, the request-lookup caching of the base controller, the other controllers, view models and DTOs other than `MessageDto` are not modelled.
- The seeded rows of the migrations are not modelled.
