/** The server pages: the caller's server list, a server's details, joining a public
    server, and creating a server from the submitted form. */
module ServersController {
  import opened Wrappers
  import opened Models
  import opened Store
  import opened ServerService

  /** The fields a user submits on the create form (`ServerViewModel`). */
  datatype ServerForm = ServerForm(name: string, iconUrl: Option<string>, description: Option<string>)

  /** `ModelState.IsValid` for a bound form: the attributes on `ServerViewModel`. */
  predicate FormValid(form: ServerForm) {
    && ServerNameValid(form.name)
    && OptionalUrl(form.iconUrl) && OptionalMaxLength(form.iconUrl, ServerIconUrlMaxLength)
    && OptionalMaxLength(form.description, ServerDescriptionMaxLength)
  }

  /** The action results these pages return. */
  datatype ActionResult =
    | Challenge
    | Unauthorized
    | RedirectToIndex
    | RedirectToDetails(id: int)
    | ShowServers(servers: seq<Server>)
    | ShowServer(server: Server)
    | ShowEmpty
    | ShowForm(form: ServerForm)

  /** GET `/Servers`. */
  function Index(servers: seq<Server>, members: seq<ServerMember>, userId: Option<string>): ActionResult {
    if userId.None? then Challenge else ShowServers(ServersForUser(servers, members, userId.value))
  }

  /** The index lists exactly the signed-in user's servers. */
  lemma IndexListsOwnServers(servers: seq<Server>, members: seq<ServerMember>, userId: Option<string>)
    ensures userId.None? <==> Index(servers, members, userId) == Challenge
    ensures userId.Some? ==> forall s :: s in Index(servers, members, userId).servers <==>
      s in servers && IsUserMemberOfServer(members, s.id, userId.value)
  {
    if userId.Some? {
      ServersForUserExactly(servers, members, userId.value);
    }
  }

  /** GET `/Servers/Details/{id}`. */
  function Details(servers: seq<Server>, id: int): ActionResult {
    match GetServer(servers, id)
    case None => RedirectToIndex
    case Some(server) => ShowServer(server)
  }

  /** GET `/Servers/Join/{id}`: the server, or an empty page. */
  function Join(servers: seq<Server>, id: int): ActionResult {
    match GetServer(servers, id)
    case None => ShowEmpty
    case Some(server) => ShowServer(server)
  }

  /** Details shows the server with the id and redirects to the index when there is
      none; the join page shows the same server. */
  lemma DetailsShowsThatServer(servers: seq<Server>, id: int)
    requires UniqueBy(servers, ServerKey)
    ensures Details(servers, id) == RedirectToIndex <==> forall s :: s in servers ==> s.id != id
    ensures forall s :: Details(servers, id) == ShowServer(s) <==> s in servers && s.id == id
    ensures Details(servers, id).ShowServer? <==> Join(servers, id) == Details(servers, id)
  {
    GetServerReturnsThatServer(servers, id);
  }

  /** The server the POST `Create` builds from the form for its owner. */
  function ServerFromForm(form: ServerForm, ownerId: string, now: int): Server {
    NewServer(ownerId, now).(name := form.name, iconUrl := form.iconUrl, description := form.description)
  }

  /** A form that passes validation, submitted by a user with a non-blank id, builds
      a server that passes the entity's own validation. */
  lemma FormServersAreValid(form: ServerForm, ownerId: string, now: int)
    requires FormValid(form) && Required(ownerId)
    ensures ServerValid(ServerFromForm(form, ownerId, now))
    ensures ServerFromForm(form, ownerId, now).ownerId == ownerId
    ensures ServerFromForm(form, ownerId, now).privacyLevel == Public
  {
  }

  /** POST `/Servers/Create`: challenge an anonymous caller, redisplay an invalid
      form, otherwise create the server with the caller as owner and go to its details. */
  method Create(db: Database, userId: Option<string>, form: ServerForm, now: int) returns (r: ActionResult)
    requires db.Valid()
    modifies db
    ensures db.Valid()
    ensures userId.None? ==> r == Challenge && unchanged(db)
    ensures userId.Some? && !FormValid(form) ==> r == ShowForm(form) && unchanged(db)
    ensures userId.Some? && FormValid(form) ==>
      var created := ServerFromForm(form, userId.value, now).(id := NextKey(old(db.servers), ServerKey));
      && r == RedirectToDetails(created.id)
      && db.servers == old(db.servers) + [created]
      && db.members == old(db.members) + [OwnerMembership(NextKey(old(db.members), MemberKey), created.id, userId.value, now)]
      && db.channels == old(db.channels) + [GeneralChannel(NextKey(old(db.channels), ChannelKey), created.id, now)]
      && db.messages == old(db.messages) && db.invites == old(db.invites)
  {
    if userId.None? {
      return Challenge;
    }
    if !FormValid(form) {
      return ShowForm(form);
    }
    var server := ServerFromForm(form, userId.value, now);
    var created := CreateServer(db, server, userId.value, now);
    r := RedirectToDetails(created.id);
  }

  /** POST `/Servers/Join/{id}`: challenge an anonymous caller, send an unknown id back
      to the index, refuse a server that is not public, otherwise join it and go to
      its details. */
  method JoinConfirmed(db: Database, userId: Option<string>, id: int, now: int) returns (r: ActionResult)
    requires db.Valid()
    modifies db
    ensures db.Valid()
    ensures userId.None? ==> r == Challenge && unchanged(db)
    ensures userId.Some? && GetServer(old(db.servers), id).None? ==> r == RedirectToIndex && unchanged(db)
    ensures userId.Some? && GetServer(old(db.servers), id).Some? && GetServer(old(db.servers), id).value.privacyLevel != Public ==>
      r == Unauthorized && unchanged(db)
    ensures userId.Some? && GetServer(old(db.servers), id).Some? && GetServer(old(db.servers), id).value.privacyLevel == Public ==>
      && r == RedirectToDetails(id)
      && IsUserMemberOfServer(db.members, id, userId.value)
      && (IsUserMemberOfServer(old(db.members), id, userId.value) ==> unchanged(db))
      && (!IsUserMemberOfServer(old(db.members), id, userId.value) ==>
            db.members == old(db.members) + [NewServerMember(id, userId.value, now).(id := NextKey(old(db.members), MemberKey))])
      && db.servers == old(db.servers) && db.channels == old(db.channels)
      && db.messages == old(db.messages) && db.invites == old(db.invites)
  {
    if userId.None? {
      return Challenge;
    }
    var server := GetServer(db.servers, id);
    if server.None? {
      return RedirectToIndex;
    }
    if server.value.privacyLevel != Public {
      return Unauthorized;
    }
    var _ := JoinServer(db, id, userId.value, now);
    r := RedirectToDetails(id);
  }
}
