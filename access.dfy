/** Who may use the bot: the owner, and the registered users. */
module Access {
  import opened Wrappers

  type UserId = int

  /** `is_owner`: only the configured owner id. */
  predicate IsOwner(owner: UserId, user: UserId)
  {
    user == owner
  }

  /** `is_user`: a registered user or the owner. */
  function IsUser(users: set<UserId>, owner: UserId, user: UserId): (r: bool)
    ensures IsOwner(owner, user) ==> r
    ensures user in users ==> r
    ensures r ==> user in users || IsOwner(owner, user)
  {
    user in users || IsOwner(owner, user)
  }

  /** Why an owner-only command is refused. */
  datatype Refusal = OwnerOnlyInGroups | Denied

  /** The two checks that open `/start_userbot`, `/stop_userbot` and
      `/terminal`: outside a private chat a non-owner gets the command's
      chat-type refusal (the owner-only-in-groups text for the two userbot
      commands, the private-chat-only text for `/terminal`); in a private
      chat a non-owner gets "access denied". */
  function OwnerGuard(isPrivateChat: bool, isOwner: bool): (r: Option<Refusal>)
    ensures r == None <==> isOwner
    ensures r == Some(OwnerOnlyInGroups) <==> !isPrivateChat && !isOwner
    ensures r == Some(Denied) <==> isPrivateChat && !isOwner
  {
    if !isPrivateChat && !isOwner then Some(OwnerOnlyInGroups)
    else if !isOwner then Some(Denied)
    else None
  }

  // ------------------------------------------------------------------
  // Registering users. The script declares the table as `{}`, which is
  // a dictionary, and then calls `.add` on it. A dictionary has no `add`,
  // so every registration raises and nobody but the owner is ever a user.

  /** `USER_IDS = {}`: an empty dictionary. */
  const InitialUserTable: map<UserId, int> := map[]

  /** The registration as written: `USER_IDS.add(user)` on a dictionary
      raises `AttributeError`, so there is never a new table. */
  function AddUserAsWritten(table: map<UserId, int>, user: UserId): (r: Option<map<UserId, int>>)
    ensures r.None?
  {
    None
  }

  /** The registration as intended: `USER_IDS` is a set and `add` inserts. */
  function AddUser(users: set<UserId>, user: UserId): (r: set<UserId>)
    ensures user in r
    ensures forall u :: u in users ==> u in r
    ensures forall u :: u in r ==> u == user || u in users
  {
    users + {user}
  }

  /** As written, `/get_user 42` leaves user 42 without access. */
  lemma RegistrationIgnoredAsWritten(owner: UserId, user: UserId)
    requires user != owner
    ensures AddUserAsWritten(InitialUserTable, user).None?
    ensures !IsUser(InitialUserTable.Keys, owner, user)
  {
  }

  /** As intended, a registered user passes `is_user`. */
  lemma RegisteredUserIsUser(users: set<UserId>, owner: UserId, user: UserId)
    ensures IsUser(AddUser(users, user), owner, user)
    ensures forall u :: IsUser(users, owner, u) ==> IsUser(AddUser(users, user), owner, u)
  {
  }
}
