/** Storing invites and finding them by key. */
module InviteService {
  import opened Wrappers
  import opened Models
  import opened Store

  /** `GetInviteAsync(id)`. */
  function GetInvite(invites: seq<ServerInvite>, id: int): Option<ServerInvite> {
    Find(invites, id, InviteKey)
  }

  /** With unique keys, `GetInviteAsync` returns the invite with that id, and null
      exactly when there is none. */
  lemma GetInviteReturnsThatInvite(invites: seq<ServerInvite>, id: int)
    requires UniqueBy(invites, InviteKey)
    ensures forall i :: GetInvite(invites, id) == Some(i) <==> i in invites && i.id == id
    ensures GetInvite(invites, id).None? <==> forall i :: i in invites ==> i.id != id
  {
    forall i | i in invites && i.id == id ensures GetInvite(invites, id) == Some(i) {
      FindUnique(invites, id, InviteKey, i);
    }
  }

  /** `CreateInviteAsync`: store the invite under a fresh key and return it. The unique
      index on `InviteCode` refuses a code that is already taken, and then nothing is stored. */
  method CreateInvite(db: Database, invite: ServerInvite) returns (r: Result<ServerInvite, DbError>)
    requires db.Valid()
    modifies db
    ensures db.Valid()
    ensures (exists i :: i in old(db.invites) && i.inviteCode == invite.inviteCode) ==>
      r == Err(UniqueViolation) && unchanged(db)
    ensures (forall i :: i in old(db.invites) ==> i.inviteCode != invite.inviteCode) ==>
      && r == Ok(invite.(id := NextKey(old(db.invites), InviteKey)))
      && db.invites == old(db.invites) + [r.value]
      && db.servers == old(db.servers) && db.members == old(db.members)
      && db.channels == old(db.channels) && db.messages == old(db.messages)
  {
    if exists i :: i in db.invites && i.inviteCode == invite.inviteCode {
      return Err(UniqueViolation);
    }
    var stored := invite.(id := NextKey(db.invites, InviteKey));
    UniqueByAppend(db.invites, stored, InviteKey);
    UniqueByAppend(db.invites, stored, InviteCode);
    db.invites := db.invites + [stored];
    r := Ok(stored);
  }

  /** Once stored, an invite is found again by its key, exactly as it was returned. */
  lemma CreatedInviteIsFound(invites: seq<ServerInvite>, invite: ServerInvite)
    requires UniqueBy(invites, InviteKey)
    ensures var stored := invite.(id := NextKey(invites, InviteKey));
      GetInvite(invites + [stored], stored.id) == Some(stored)
  {
    var stored := invite.(id := NextKey(invites, InviteKey));
    UniqueByAppend(invites, stored, InviteKey);
    FindUnique(invites + [stored], stored.id, InviteKey, stored);
  }
}
