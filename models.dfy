/** The entity records of the chat store, with the values a freshly constructed
    record carries and the rules its data-annotation attributes impose.
    Timestamps are whole seconds; "now" is always passed in. Navigation collections
    (`Server.Members`, `Server.Channels`, `Channel.Messages`) are not fields here:
    they are the rows of the other tables whose foreign key points at the record. */
module Models {
  import opened Wrappers
  import opened Runtime

  const SecondsPerDay: int := 86400

  /** Who may join a server without an invite. */
  datatype PrivacyLevel = Public | NonPublic

  /** A member's standing in a server, declared from least to most privileged. */
  datatype RoleType = Member | Moderator | Owner {
    /** The enum's underlying value (its declaration position). */
    function Ordinal(): nat {
      match this
      case Member => 0
      case Moderator => 1
      case Owner => 2
    }
  }

  datatype Server = Server(
    id: int,
    name: string,
    iconUrl: Option<string>,
    description: Option<string>,
    ownerId: string,
    createdAt: int,
    privacyLevel: PrivacyLevel,
    lastMessageTimeStamp: Option<int>)

  datatype ServerMember = ServerMember(
    id: int,
    serverId: int,
    userId: string,
    role: RoleType,
    joinedAt: int)

  datatype ServerInvite = ServerInvite(
    id: int,
    serverId: int,
    inviteCode: string,
    invitedUserId: Option<string>,
    createdAt: int,
    expiresAt: Option<int>,
    oneTimeUse: bool,
    isUsed: bool,
    timesUsed: int)

  datatype Message = Message(
    id: int,
    channelId: int,
    senderId: string,
    messageContent: string,
    createdAt: int)

  datatype Channel = Channel(
    id: int,
    name: string,
    serverId: int,
    createdAt: int)

  /** What the hub pushes to clients for one message. */
  datatype MessageDto = MessageDto(
    id: int,
    text: string,
    senderUsername: string,
    timestamp: int)

  /** `new Server { OwnerId = ownerId }` at time `now`. */
  function NewServer(ownerId: string, now: int): Server {
    Server(0, "My Server", None, None, ownerId, now, Public, None)
  }

  /** `new ServerMember { ServerId = serverId, UserId = userId }` at time `now`. */
  function NewServerMember(serverId: int, userId: string, now: int): ServerMember {
    ServerMember(0, serverId, userId, Member, now)
  }

  /** `new ServerInvite { ServerId = serverId, InviteCode = code }` at time `now`:
      one clock reading feeds both `CreatedAt` and `ExpiresAt`. */
  function NewServerInvite(serverId: int, code: string, now: int): ServerInvite {
    ServerInvite(0, serverId, code, None, now, Some(now + 7 * SecondsPerDay), true, false, 0)
  }

  /** `new Message { ChannelId = channelId, SenderId = senderId }` at time `now`. */
  function NewMessage(channelId: int, senderId: string, now: int): Message {
    Message(0, channelId, senderId, "", now)
  }

  /** `new Channel { ServerId = serverId }` at time `now`. */
  function NewChannel(serverId: int, now: int): Channel {
    Channel(0, "", serverId, now)
  }

  const ServerNameMaxLength: nat := 100
  const ServerIconUrlMaxLength: nat := 2048
  const ServerDescriptionMaxLength: nat := 1000
  const MessageContentMaxLength: nat := 5000
  const ChannelNameMaxLength: nat := 100

  /** `[Required]` on a string: present and not made of white space alone. */
  predicate Required(s: string) {
    !IsBlank(s)
  }

  /** `[MaxLength(n)]` on an optional string: a null value passes. */
  predicate OptionalMaxLength(s: Option<string>, n: nat) {
    s.None? || |s.value| <= n
  }

  /** `[Url]` on an optional string: a null value passes. */
  predicate OptionalUrl(s: Option<string>) {
    s.None? || HasUrlScheme(s.value)
  }

  /** `[Required][MaxLength(100)] Name`. */
  predicate ServerNameValid(name: string) {
    Required(name) && |name| <= ServerNameMaxLength
  }

  /** What `Validator.TryValidateObject(server, ..., validateAllProperties: true)` accepts. */
  predicate ServerValid(s: Server) {
    && ServerNameValid(s.name)
    && OptionalUrl(s.iconUrl) && OptionalMaxLength(s.iconUrl, ServerIconUrlMaxLength)
    && OptionalMaxLength(s.description, ServerDescriptionMaxLength)
    && Required(s.ownerId)
  }

  /** What validating a membership's `UserId` property on its own accepts. */
  predicate ServerMemberValid(m: ServerMember) {
    Required(m.userId)
  }

  /** How whole-object validation of a record ends: the attribute checks run to the
      end with this verdict, or one of them throws. */
  datatype Validation = Validated(valid: bool) | ThrowsInvalidCast

  /** `Validator.TryValidateObject(member, ..., validateAllProperties: true)`. The
      properties are checked in declaration order, each one's `[Required]` first. `Role`
      is an enum and never null, so its `[Required]` passes and its `[MaxLength(50)]` is
      reached; that attribute measures only strings and collections, and throws
      `InvalidCastException` for any other value. So no membership gets a verdict. */
  function ValidateServerMember(m: ServerMember): Validation {
    ThrowsInvalidCast
  }

  predicate MessageValid(m: Message) {
    Required(m.senderId) && Required(m.messageContent) && |m.messageContent| <= MessageContentMaxLength
  }

  predicate ChannelValid(c: Channel) {
    Required(c.name) && |c.name| <= ChannelNameMaxLength
  }

  function Repeat(c: char, n: nat): (s: string)
    ensures |s| == n && forall i :: 0 <= i < n ==> s[i] == c
  {
    seq(n, _ => c)
  }

  /** The enum is declared Member, Moderator, Owner, so a role at or above Moderator's
      value is exactly a Moderator or an Owner role. */
  lemma RoleTypeOrder(r: RoleType)
    ensures Member.Ordinal() < Moderator.Ordinal() < Owner.Ordinal()
    ensures r.Ordinal() >= Moderator.Ordinal() <==> r == Moderator || r == Owner
    ensures r.Ordinal() >= Owner.Ordinal() <==> r == Owner
  {
  }

  /** A server built with only its owner set is valid exactly when that owner id
      is not blank: every other default passes validation. */
  lemma NewServerValidIffOwnerPresent(ownerId: string, now: int)
    ensures ServerValid(NewServer(ownerId, now)) <==> Required(ownerId)
    ensures NewServer(ownerId, now).id == 0 && NewServer(ownerId, now).name == "My Server"
  {
    assert !IsWhiteSpace("My Server"[0]);
  }

  /** The name limit is inclusive: 100 characters pass, 101 fail; empty and
      white-space-only names fail. */
  lemma ServerNameBoundaries()
    ensures ServerNameValid(Repeat('A', 100))
    ensures !ServerNameValid(Repeat('A', 101))
    ensures !ServerNameValid("")
    ensures !ServerNameValid("     ")
  {
    assert !IsWhiteSpace(Repeat('A', 100)[0]);
  }

  /** Validity of a name depends on nothing but its length and whether it has a
      visible character: no character is rejected or rewritten, so text that looks
      like SQL or HTML passes unchanged. */
  lemma ServerNameContentAgnostic(s: Server, name: string)
    requires ServerValid(s)
    requires Required(name) && |name| <= ServerNameMaxLength
    ensures ServerValid(s.(name := name))
  {
  }

  lemma SqlAndHtmlNamesAccepted(s: Server)
    requires ServerValid(s)
    ensures ServerValid(s.(name := "'; DROP TABLE Servers; --"))
    ensures ServerValid(s.(name := "<script>alert('XSS')</script>"))
    ensures ServerValid(s.(description := Some("'; DELETE FROM Servers WHERE 1=1; --")))
  {
    assert !IsWhiteSpace("'; DROP TABLE Servers; --"[0]);
    assert !IsWhiteSpace("<script>alert('XSS')</script>"[0]);
    ServerNameContentAgnostic(s, "'; DROP TABLE Servers; --");
    ServerNameContentAgnostic(s, "<script>alert('XSS')</script>");
  }

  /** The description limit is inclusive: 1000 characters pass, 1001 fail; no description passes. */
  lemma ServerDescriptionBoundaries(s: Server)
    requires ServerValid(s)
    ensures ServerValid(s.(description := None))
    ensures ServerValid(s.(description := Some(Repeat('A', 1000))))
    ensures !ServerValid(s.(description := Some(Repeat('A', 1001))))
  {
  }

  /** No icon passes; an icon needs an http, https or ftp scheme and at most 2048 characters. */
  lemma ServerIconUrlRules(s: Server)
    requires ServerValid(s)
    ensures ServerValid(s.(iconUrl := None))
    ensures ServerValid(s.(iconUrl := Some("https://example.com/icon.png")))
    ensures !ServerValid(s.(iconUrl := Some("not-a-valid-url")))
    ensures !ServerValid(s.(iconUrl := Some("javascript:alert('XSS')")))
    ensures !ServerValid(s.(iconUrl := Some("https://example.com/" + Repeat('a', 2030))))
  {
    assert AsciiLower("not-a-valid-url"[0]) == 'n';
    assert AsciiLower("javascript:alert('XSS')"[0]) == 'j';
  }

  /** An empty owner id fails validation. */
  lemma EmptyOwnerRejected(s: Server)
    ensures !ServerValid(s.(ownerId := ""))
  {
  }

  /** A new invite is single-use, unused, never used, open to anyone, and expires
      exactly seven days after it was made. */
  lemma NewServerInviteDefaults(serverId: int, code: string, now: int)
    ensures var inv := NewServerInvite(serverId, code, now);
      && inv.oneTimeUse && !inv.isUsed && inv.timesUsed == 0 && inv.invitedUserId.None?
      && inv.createdAt == now && inv.expiresAt == Some(inv.createdAt + 7 * SecondsPerDay)
  {
  }

  /** A new membership is an ordinary member joined now. Its user id passes its own
      rule exactly when it is not blank, but validating the whole membership throws
      whatever the user id is. */
  lemma NewServerMemberDefaults(serverId: int, userId: string, now: int)
    ensures NewServerMember(serverId, userId, now).role == Member
    ensures NewServerMember(serverId, userId, now).joinedAt == now
    ensures ServerMemberValid(NewServerMember(serverId, userId, now)) <==> Required(userId)
    ensures ValidateServerMember(NewServerMember(serverId, userId, now)) == ThrowsInvalidCast
  {
  }

  /** A message carries the construction time; its default content is empty, which
      the `[Required]` rule rejects, and content over 5000 characters is rejected. */
  lemma MessageRules(channelId: int, senderId: string, now: int, content: string)
    ensures NewMessage(channelId, senderId, now).createdAt == now
    ensures !MessageValid(NewMessage(channelId, senderId, now))
    ensures |content| > MessageContentMaxLength ==>
      !MessageValid(NewMessage(channelId, senderId, now).(messageContent := content))
  {
  }

  /** A channel carries the construction time; its name is required and at most 100 characters. */
  lemma ChannelRules(serverId: int, now: int, name: string)
    ensures NewChannel(serverId, now).createdAt == now
    ensures !ChannelValid(NewChannel(serverId, now))
    ensures ChannelValid(NewChannel(serverId, now).(name := name)) <==> Required(name) && |name| <= ChannelNameMaxLength
  {
  }
}
