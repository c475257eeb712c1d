/** Redeeming an invite by its code. The invite lookup by code and the redemption
    itself are not part of this model: the looked-up invite is passed in, and the
    redemption is a function from (invite id, user id) to the membership it created,
    or null. */
module InvitesController {
  import opened Wrappers
  import opened Models

  /** A one-time invite that has been used. */
  predicate IsSpent(invite: ServerInvite) {
    invite.oneTimeUse && invite.isUsed
  }

  /** Expired strictly after its expiry time; an invite without one never expires. */
  predicate IsExpired(invite: ServerInvite, now: int) {
    invite.expiresAt.Some? && invite.expiresAt.value < now
  }

  /** Addressed to a user other than the caller. */
  predicate TargetsOther(invite: ServerInvite, userId: string) {
    invite.invitedUserId.Some? && invite.invitedUserId.value != userId
  }

  /** What GET `Redeem` renders. */
  datatype RedeemPage = NotFound | Unauthorized | ShowInvite(invite: ServerInvite)

  /** GET `/Invites/Redeem/{code}` for the invite the code found (or null). */
  function Redeem(invite: Option<ServerInvite>, userId: string, now: int): RedeemPage {
    if invite.None? || IsSpent(invite.value) || IsExpired(invite.value, now) then NotFound
    else if TargetsOther(invite.value, userId) then Unauthorized
    else ShowInvite(invite.value)
  }

  /** The invite page shows exactly the invites that exist, are neither spent nor
      expired, and are open to the caller; a bad invite is NotFound even when it is
      addressed to someone else. */
  lemma RedeemExactly(invite: Option<ServerInvite>, userId: string, now: int)
    ensures Redeem(invite, userId, now) == NotFound <==>
      invite.None? || IsSpent(invite.value) || IsExpired(invite.value, now)
    ensures Redeem(invite, userId, now) == Unauthorized <==>
      invite.Some? && !IsSpent(invite.value) && !IsExpired(invite.value, now) && TargetsOther(invite.value, userId)
    ensures Redeem(invite, userId, now).ShowInvite? <==>
      invite.Some? && !IsSpent(invite.value) && !IsExpired(invite.value, now) && !TargetsOther(invite.value, userId)
    ensures Redeem(invite, userId, now).ShowInvite? ==> Redeem(invite, userId, now).invite == invite.value
  {
  }

  /** A new invite can be redeemed by anyone up to and including the moment seven
      days after it was made, and not after. */
  lemma NewInviteLastsSevenDays(serverId: int, code: string, createdAt: int, userId: string, now: int)
    ensures createdAt <= now <= createdAt + 7 * SecondsPerDay ==>
      Redeem(Some(NewServerInvite(serverId, code, createdAt)), userId, now) == ShowInvite(NewServerInvite(serverId, code, createdAt))
    ensures now > createdAt + 7 * SecondsPerDay ==>
      Redeem(Some(NewServerInvite(serverId, code, createdAt)), userId, now) == NotFound
  {
  }

  /** What POST `Redeem` renders; the model error shown with a redisplayed invite is kept. */
  datatype RedeemPostPage =
    | InviteNotFound
    | ShowWithError(invite: Option<ServerInvite>, error: string)
    | Refused
    | RedirectToChannels(serverId: int)

  /** The page, and the (invite id, user id) redemption was asked for, if it was. */
  datatype RedeemPostResult = RedeemPostResult(page: RedeemPostPage, redemption: Option<(int, string)>)

  const SpentOrExpiredError: string := "This invite is expired or already used."
  const RedemptionFailedError: string :=
    "Could not redeem the invite. You may already be a member or the invite is no longer valid."

  /** POST `/Invites/Redeem/{code}`: the same checks as the GET, then redemption; when
      redemption returns null the invite is looked up again (`refetched`) and redisplayed. */
  function RedeemConfirmed(
    invite: Option<ServerInvite>, userId: string, now: int,
    redeem: (int, string) -> Option<ServerMember>, refetched: Option<ServerInvite>): RedeemPostResult
  {
    if invite.None? then RedeemPostResult(InviteNotFound, None)
    else if IsSpent(invite.value) || IsExpired(invite.value, now) then
      RedeemPostResult(ShowWithError(invite, SpentOrExpiredError), None)
    else if TargetsOther(invite.value, userId) then RedeemPostResult(Refused, None)
    else if redeem(invite.value.id, userId).None? then
      RedeemPostResult(ShowWithError(refetched, RedemptionFailedError), Some((invite.value.id, userId)))
    else RedeemPostResult(RedirectToChannels(invite.value.serverId), Some((invite.value.id, userId)))
  }

  /** Redemption is asked for exactly when all three checks pass, and then for this
      invite and this caller; it is asked for exactly when the GET would show the invite. */
  lemma RedemptionOnlyAfterChecks(
    invite: Option<ServerInvite>, userId: string, now: int,
    redeem: (int, string) -> Option<ServerMember>, refetched: Option<ServerInvite>)
    ensures var r := RedeemConfirmed(invite, userId, now, redeem, refetched);
      && (r.redemption.Some? <==>
            invite.Some? && !IsSpent(invite.value) && !IsExpired(invite.value, now) && !TargetsOther(invite.value, userId))
      && (r.redemption.Some? ==> r.redemption == Some((invite.value.id, userId)))
      && (r.redemption.Some? <==> Redeem(invite, userId, now).ShowInvite?)
  {
    RedeemExactly(invite, userId, now);
  }

  /** The POST outcomes: not found for a missing invite, a redisplay for a spent or
      expired one, a refusal for someone else's, a redisplay of the refetched invite
      when redemption fails, and otherwise a redirect to the invite's server. */
  lemma RedeemConfirmedOutcomes(
    invite: Option<ServerInvite>, userId: string, now: int,
    redeem: (int, string) -> Option<ServerMember>, refetched: Option<ServerInvite>)
    ensures var page := RedeemConfirmed(invite, userId, now, redeem, refetched).page;
      && (invite.None? ==> page == InviteNotFound)
      && (invite.Some? && (IsSpent(invite.value) || IsExpired(invite.value, now)) ==>
            page == ShowWithError(invite, SpentOrExpiredError))
      && (page == Refused <==> Redeem(invite, userId, now) == Unauthorized)
      && (page.RedirectToChannels? <==>
            Redeem(invite, userId, now).ShowInvite? && redeem(invite.value.id, userId).Some?)
      && (page.RedirectToChannels? ==> page.serverId == invite.value.serverId)
      && (Redeem(invite, userId, now).ShowInvite? && redeem(invite.value.id, userId).None? ==>
            page == ShowWithError(refetched, RedemptionFailedError))
  {
    RedeemExactly(invite, userId, now);
  }
}
