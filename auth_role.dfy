/** The role guard of middleware/authRoleMiddleware.js: `authRoleMiddleware(roles)`
    looks up the authenticated user and either answers 403 or passes the
    request on. The roles a stored user can have come from the `role` enum of
    models/userModel.js. */
module AuthRole {
  import opened Common

  /** A stored user, as far as the guard reads it. */
  datatype User = User(role: string)

  /** What the guard does with a request: answer it, or call `next()`. */
  datatype GuardResult = Respond(status: nat, message: string) | CallNext

  /** The guard for `roles` on a request authenticated as `id`, over the user
      collection `users`. */
  function Guard(users: map<UserId, User>, id: UserId, roles: seq<string>): (r: GuardResult)
    ensures r.CallNext? <==> id in users && users[id].role in roles
    ensures r.Respond? <==> id !in users || users[id].role !in roles
    ensures r.Respond? ==> r == Respond(403, "Access Denied")
  {
    if id !in users || users[id].role !in roles then Respond(403, "Access Denied") else CallNext
  }

  /** Allowing more roles never turns an admitted request away. */
  lemma GuardMonotone(users: map<UserId, User>, id: UserId, roles: seq<string>, more: seq<string>)
    requires forall role :: role in roles ==> role in more
    ensures Guard(users, id, roles).CallNext? ==> Guard(users, id, more).CallNext?
  {
  }

  /** The values the schema's `role` enum admits. */
  const StoredRoles: seq<string> := ["user", "owner", "admin"]

  /** Every user in the collection passed the schema's enum validation. */
  predicate RolesValid(users: map<UserId, User>)
  {
    forall id :: id in users ==> users[id].role in StoredRoles
  }

  /** The `["tenant"]` and `["landlord"]` guards admit nobody: no stored user
      can hold either role, so every such request is answered 403. */
  lemma TenantAndLandlordGuardsDenyAll(users: map<UserId, User>, id: UserId)
    requires RolesValid(users)
    ensures Guard(users, id, ["tenant"]) == Respond(403, "Access Denied")
    ensures Guard(users, id, ["landlord"]) == Respond(403, "Access Denied")
  {
    if id in users {
      assert users[id].role in StoredRoles;
    }
  }
}
