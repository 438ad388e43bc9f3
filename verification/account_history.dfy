/** Any sequence of account operations, started from an empty store, keeps at
    most one administrator. */
module AccountHistory {
  import opened Wrappers
  import opened Accounts
  import UserService
  import AuthorizationService

  datatype Operation =
    | Signup(request: UserService.SignupRequest)
    | Delete(username: string)
    | UpdateRole(username: string, role: string)
    | UpdateAccess(username: string, access: string)

  /** The store after one operation; a refused operation changes nothing. */
  function Step(store: UserStore, op: Operation, encode: string -> string): (next: UserStore)
    ensures WellFormed(store) ==> WellFormed(next)
  {
    match op
    case Signup(request) =>
      (match UserService.Signup(store, request, encode)
       case Ok((next, _)) => next
       case Err(_) => store)
    case Delete(username) =>
      (match UserService.DeleteUser(store, username)
       case Ok(next) => next
       case Err(_) => store)
    case UpdateRole(username, role) =>
      (match AuthorizationService.UpdateRole(store, username, role)
       case Ok((next, _)) => next
       case Err(_) => store)
    case UpdateAccess(username, access) =>
      (match AuthorizationService.UpdateAccess(store, username, access)
       case Ok((next, _)) => next
       case Err(_) => store)
  }

  function Run(store: UserStore, ops: seq<Operation>, encode: string -> string): UserStore
    decreases |ops|
  {
    if ops == [] then store else Run(Step(store, ops[0], encode), ops[1..], encode)
  }

  /** At most one account holds the administrator role. */
  predicate AtMostOneAdministrator(users: seq<User>)
  {
    forall i, j | 0 <= i < |users| && 0 <= j < |users| && users[i].role == Administrator && users[j].role == Administrator
      :: i == j
  }

  /** Counting at most one administrator means at most one position holds one. */
  lemma {:induction false} SingleAdministrator(users: seq<User>)
    requires AdminCount(users) <= 1
    ensures AtMostOneAdministrator(users)
  {
    if users != [] {
      SingleAdministrator(users[1..]);
      if users[0].role == Administrator {
        NoAdministrator(users[1..]);
      }
      forall i, j | 0 <= i < |users| && 0 <= j < |users| && users[i].role == Administrator && users[j].role == Administrator
        ensures i == j
      {
        if i > 0 && j > 0 {
          assert users[1..][i - 1] == users[i] && users[1..][j - 1] == users[j];
        }
      }
    }
  }

  lemma {:induction false} NoAdministrator(users: seq<User>)
    requires AdminCount(users) == 0
    ensures forall i :: 0 <= i < |users| ==> users[i].role != Administrator
  {
    if users != [] {
      NoAdministrator(users[1..]);
      assert forall i :: 1 <= i < |users| ==> users[i] == users[1..][i - 1];
    }
  }

  /** The invariant holds after every run from a well-formed store. */
  lemma {:induction false} RunKeepsWellFormed(store: UserStore, ops: seq<Operation>, encode: string -> string)
    requires WellFormed(store)
    ensures WellFormed(Run(store, ops, encode))
    decreases |ops|
  {
    if ops != [] {
      RunKeepsWellFormed(Step(store, ops[0], encode), ops[1..], encode);
    }
  }

  /** From an empty store, no sequence of sign-ups, deletions, role and access
      changes ever produces two administrators. */
  lemma AtMostOneAdministratorEver(ops: seq<Operation>, encode: string -> string)
    ensures AtMostOneAdministrator(Run(UserStore([], 0), ops, encode).users)
  {
    RunKeepsWellFormed(UserStore([], 0), ops, encode);
    SingleAdministrator(Run(UserStore([], 0), ops, encode).users);
  }
}
