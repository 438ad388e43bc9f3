/** User accounts, their roles, and the account-store invariants. */
module Accounts {
  import opened Wrappers

  datatype Role = Administrator | Support | Merchant

  /** The role's enum name. */
  function RoleName(r: Role): string
  {
    match r
    case Administrator => "ADMINISTRATOR"
    case Support => "SUPPORT"
    case Merchant => "MERCHANT"
  }

  /** The stored form, `stringWithRolePrefix`. */
  function WithPrefix(r: Role): string
  {
    "ROLE_" + RoleName(r)
  }

  /** `Role.getRolesAsString`: the enum names in declaration order. */
  const RolesAsString: seq<string> := ["ADMINISTRATOR", "SUPPORT", "MERCHANT"]

  /** The role whose name is `s`, if one is declared. */
  function ParseRole(s: string): (r: Option<Role>)
    ensures r.Some? <==> s in RolesAsString
    ensures r.Some? ==> RoleName(r.value) == s
  {
    if s == "ADMINISTRATOR" then Some(Administrator)
    else if s == "SUPPORT" then Some(Support)
    else if s == "MERCHANT" then Some(Merchant)
    else None
  }

  /** A stored account; the password is the encoder's output. */
  datatype User = User(id: nat, name: string, username: string, password: string, role: Role, nonLocked: bool)

  /** `getRoleWithoutPrefix`: the stored role string from its sixth character on. */
  function RoleWithoutPrefix(u: User): (name: string)
    ensures name == RoleName(u.role)
  {
    var stored := WithPrefix(u.role);
    assert stored[5..] == RoleName(u.role);
    stored[5..]
  }

  /** The account store in repository order, and the next identity value. */
  datatype UserStore = UserStore(users: seq<User>, nextId: nat)

  predicate UniqueUsernames(users: seq<User>)
  {
    forall i, j :: 0 <= i < j < |users| ==> users[i].username != users[j].username
  }

  /** The number of administrators. */
  function AdminCount(users: seq<User>): nat
  {
    if users == [] then 0
    else (if users[0].role == Administrator then 1 else 0) + AdminCount(users[1..])
  }

  /** Usernames are unique, identities are below the next identity value, and
      there is at most one administrator. */
  predicate WellFormed(store: UserStore)
  {
    && UniqueUsernames(store.users)
    && (forall i :: 0 <= i < |store.users| ==> store.users[i].id < store.nextId)
    && AdminCount(store.users) <= 1
  }

  /** The position of the account with this username, if any. */
  function FindUser(users: seq<User>, username: string): (r: Option<nat>)
    ensures r.None? ==> forall i :: 0 <= i < |users| ==> users[i].username != username
    ensures r.Some? ==> r.value < |users| && users[r.value].username == username
    ensures r.Some? ==> forall j :: 0 <= j < r.value ==> users[j].username != username
  {
    if users == [] then None
    else if users[0].username == username then Some(0)
    else match FindUser(users[1..], username)
      case None => None
      case Some(i) => Some(i + 1)
  }

  // ---------------------------------------------------------------------------
  // Counting administrators.

  lemma {:induction false} AdminCountAppend(users: seq<User>, u: User)
    ensures AdminCount(users + [u]) == AdminCount(users) + (if u.role == Administrator then 1 else 0)
  {
    if users == [] {
      assert users + [u] == [u];
      assert [u][1..] == [];
    } else {
      assert (users + [u])[1..] == users[1..] + [u];
      AdminCountAppend(users[1..], u);
    }
  }

  /** Replacing one account changes the count by the change at that position. */
  lemma {:induction false} AdminCountUpdate(users: seq<User>, i: nat, u: User)
    requires i < |users|
    ensures AdminCount(users[i := u]) + (if users[i].role == Administrator then 1 else 0)
         == AdminCount(users) + (if u.role == Administrator then 1 else 0)
  {
    if i == 0 {
      assert users[i := u][1..] == users[1..];
    } else {
      assert users[i := u][1..] == users[1..][i - 1 := u];
      AdminCountUpdate(users[1..], i - 1, u);
    }
  }

  /** Removing one account never adds an administrator. */
  lemma {:induction false} AdminCountRemove(users: seq<User>, i: nat)
    requires i < |users|
    ensures AdminCount(users[..i] + users[i + 1..]) <= AdminCount(users)
  {
    if i > 0 {
      assert (users[..i] + users[i + 1..])[1..] == users[1..][..i - 1] + users[1..][i..];
      AdminCountRemove(users[1..], i - 1);
    } else {
      assert users[..i] + users[i + 1..] == users[1..];
    }
  }
}
