/** Sign-up, deletion and listing of accounts. */
module UserService {
  import opened Wrappers
  import opened Accounts

  /** The sign-up form. */
  datatype SignupRequest = SignupRequest(name: string, username: string, password: string)

  /** A listed account: identity, names and role without the prefix; no password. */
  datatype UserData = UserData(id: nat, name: string, username: string, role: string)

  /** `findByUsername`: the account with this username, or null. */
  function FindByUsername(store: UserStore, username: string): (r: Option<User>)
    ensures r.Some? <==> exists i :: 0 <= i < |store.users| && store.users[i].username == username
    ensures r.Some? ==> r.value in store.users && r.value.username == username
  {
    match FindUser(store.users, username)
    case None => None
    case Some(i) => Some(store.users[i])
  }

  /** `signup`: a taken username is a conflict. The first account of an empty
      store is an unlocked administrator, every later one a locked merchant; the
      password is stored encoded. */
  function Signup(store: UserStore, request: SignupRequest, encode: string -> string): (r: Result<(UserStore, User)>)
    ensures r.Err? <==> exists i :: 0 <= i < |store.users| && store.users[i].username == request.username
    ensures r.Err? ==> r.status == Conflict
    ensures r.Ok? ==>
      var (next, user) := r.value;
      && next.users == store.users + [user]
      && user.username == request.username && user.name == request.name
      && user.password == encode(request.password)
      && (store.users == [] ==> user.role == Administrator && user.nonLocked)
      && (store.users != [] ==> user.role == Merchant && !user.nonLocked)
    ensures r.Ok? && WellFormed(store) ==> WellFormed(r.value.0)
  {
    if FindByUsername(store, request.username).Some? then Err(Conflict)
    else
      var first := store.users == [];
      var role := if first then Administrator else Merchant;
      var user := User(store.nextId, request.name, request.username, encode(request.password), role, first);
      var next := UserStore(store.users + [user], store.nextId + 1);
      AdminCountAppend(store.users, user);
      Ok((next, user))
  }

  /** `deleteUser`: an unknown username is not found; otherwise exactly that
      account is removed. */
  function DeleteUser(store: UserStore, username: string): (r: Result<UserStore>)
    ensures r.Err? <==> forall i :: 0 <= i < |store.users| ==> store.users[i].username != username
    ensures r.Err? ==> r.status == NotFound
    ensures r.Ok? ==> |r.value.users| == |store.users| - 1 && r.value.nextId == store.nextId
    ensures r.Ok? && WellFormed(store) ==>
      && WellFormed(r.value)
      && forall u :: u in r.value.users <==> u in store.users && u.username != username
  {
    match FindUser(store.users, username)
    case None => Err(NotFound)
    case Some(i) =>
      RemoveKeepsInvariant(store, i);
      Ok(UserStore(store.users[..i] + store.users[i + 1..], store.nextId))
  }

  /** Removing any one account from a well-formed store keeps it well formed and
      removes exactly the accounts sharing that account's username. */
  lemma RemoveKeepsInvariant(store: UserStore, i: nat)
    requires i < |store.users|
    ensures var next := UserStore(store.users[..i] + store.users[i + 1..], store.nextId);
      WellFormed(store) ==>
        && WellFormed(next)
        && forall u :: u in next.users <==> u in store.users && u.username != store.users[i].username
  {
    AdminCountRemove(store.users, i);
    if WellFormed(store) {
      RemoveKeepsOthers(store.users, i);
    }
  }

  /** Removing position i of a list with unique usernames removes exactly the
      accounts with that username. */
  lemma RemoveKeepsOthers(users: seq<User>, i: nat)
    requires i < |users| && UniqueUsernames(users)
    ensures UniqueUsernames(users[..i] + users[i + 1..])
    ensures forall u :: u in users[..i] + users[i + 1..] <==> u in users && u.username != users[i].username
  {
    var rest := users[..i] + users[i + 1..];
    assert forall k :: 0 <= k < |rest| ==> rest[k] == if k < i then users[k] else users[k + 1];
    forall u | u in users && u.username != users[i].username
      ensures u in rest
    {
      var k :| 0 <= k < |users| && users[k] == u;
      if k < i { assert rest[k] == u; } else { assert rest[k - 1] == u; }
    }
  }

  /** `createUserDataResponse`. */
  function CreateUserDataResponse(u: User): (d: UserData)
    ensures d.id == u.id && d.name == u.name && d.username == u.username
    ensures d.role == RoleName(u.role)
    ensures ParseRole(d.role) == Some(u.role)
  {
    UserData(u.id, u.name, u.username, RoleWithoutPrefix(u))
  }

  /** `getUserDataList`: one entry per account, in store order, with the role
      prefix stripped and the password left out. */
  function GetUserDataList(store: UserStore): (r: seq<UserData>)
    ensures |r| == |store.users|
    ensures forall i :: 0 <= i < |r| ==>
      var u := store.users[i];
      r[i].id == u.id && r[i].name == u.name && r[i].username == u.username && r[i].role == RoleName(u.role)
  {
    seq(|store.users|, i requires 0 <= i < |store.users| => CreateUserDataResponse(store.users[i]))
  }
}
