/** Role and lock-state changes made by an administrator. */
module AuthorizationService {
  import opened Wrappers
  import opened Accounts

  /** `updateRole`: an unknown username is not found; a role that is not declared,
      or is ADMINISTRATOR, is a bad request; the role the account already has is a
      conflict. Otherwise only that account's role changes. */
  function UpdateRole(store: UserStore, username: string, role: string): (r: Result<(UserStore, User)>)
    ensures FindUser(store.users, username).None? ==> r == Err(NotFound)
    ensures FindUser(store.users, username).Some? ==>
      var u := store.users[FindUser(store.users, username).value];
      && (role !in RolesAsString || role == "ADMINISTRATOR" ==> r == Err(BadRequest))
      && (role in RolesAsString && role != "ADMINISTRATOR" && RoleName(u.role) == role ==> r == Err(Conflict))
    ensures r.Ok? <==>
      && FindUser(store.users, username).Some?
      && role in RolesAsString && role != "ADMINISTRATOR"
      && RoleName(store.users[FindUser(store.users, username).value].role) != role
    ensures r.Ok? ==>
      var i := FindUser(store.users, username).value;
      var (next, updated) := r.value;
      && updated.role != Administrator
      && WithPrefix(updated.role) == "ROLE_" + role
      && updated == store.users[i].(role := updated.role)
      && next == UserStore(store.users[i := updated], store.nextId)
    ensures r.Ok? && WellFormed(store) ==> WellFormed(r.value.0)
  {
    match FindUser(store.users, username)
    case None => Err(NotFound)
    case Some(i) =>
      var u := store.users[i];
      if role !in RolesAsString || role == "ADMINISTRATOR" then Err(BadRequest)
      else if RoleWithoutPrefix(u) == role then Err(Conflict)
      else
        var updated := u.(role := ParseRole(role).value);
        AdminCountUpdate(store.users, i, updated);
        Ok((UserStore(store.users[i := updated], store.nextId), updated))
  }

  /** `updateAccess`: an unknown username is not found and an administrator is a
      bad request whatever the operation. LOCK and UNLOCK set the account's
      non-locked flag to false and true; any other operation is a bad request. */
  function UpdateAccess(store: UserStore, username: string, access: string): (r: Result<(UserStore, string)>)
    ensures FindUser(store.users, username).None? ==> r == Err(NotFound)
    ensures FindUser(store.users, username).Some? && store.users[FindUser(store.users, username).value].role == Administrator
      ==> r == Err(BadRequest)
    ensures access != "LOCK" && access != "UNLOCK" ==> r.Err?
    ensures FindUser(store.users, username).Some? && access != "LOCK" && access != "UNLOCK" ==> r == Err(BadRequest)
    ensures r.Ok? <==>
      && FindUser(store.users, username).Some?
      && store.users[FindUser(store.users, username).value].role != Administrator
      && (access == "LOCK" || access == "UNLOCK")
    ensures r.Ok? ==>
      var i := FindUser(store.users, username).value;
      var (next, status) := r.value;
      && next == UserStore(store.users[i := store.users[i].(nonLocked := access == "UNLOCK")], store.nextId)
      && status == "User " + username + (if access == "LOCK" then " locked!" else " unlocked!")
    ensures r.Ok? && WellFormed(store) ==> WellFormed(r.value.0)
  {
    match FindUser(store.users, username)
    case None => Err(NotFound)
    case Some(i) =>
      var u := store.users[i];
      if u.role == Administrator then Err(BadRequest)
      else if access == "LOCK" then
        var updated := u.(nonLocked := false);
        AdminCountUpdate(store.users, i, updated);
        Ok((UserStore(store.users[i := updated], store.nextId), "User " + u.username + " locked!"))
      else if access == "UNLOCK" then
        var updated := u.(nonLocked := true);
        AdminCountUpdate(store.users, i, updated);
        Ok((UserStore(store.users[i := updated], store.nextId), "User " + u.username + " unlocked!"))
      else Err(BadRequest)
  }

  /** Locking or unlocking twice leaves the store as doing it once. */
  lemma UpdateAccessIdempotent(store: UserStore, username: string, access: string)
    requires UpdateAccess(store, username, access).Ok?
    ensures
      var once := UpdateAccess(store, username, access).value.0;
      UpdateAccess(once, username, access).Ok? && UpdateAccess(once, username, access).value.0 == once
  {
    var i := FindUser(store.users, username).value;
    var once := UpdateAccess(store, username, access).value.0;
    SameUsernamesSameLookup(store.users, i, once.users[i]);
  }

  /** Replacing an account by one with the same username keeps every lookup. */
  lemma {:induction false} SameUsernamesSameLookup(users: seq<User>, i: nat, u: User)
    requires i < |users| && u.username == users[i].username
    ensures forall name :: FindUser(users[i := u], name) == FindUser(users, name)
  {
    if i > 0 {
      SameUsernamesSameLookup(users[1..], i - 1, u);
      assert users[i := u][1..] == users[1..][i - 1 := u];
    } else {
      assert users[i := u][1..] == users[1..];
    }
  }
}
