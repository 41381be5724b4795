/** `ensureAdminExists` (backend/src/config/adminSetup.js): at start-up,
    create an administrator account under the configured email unless some
    account already has that email. The configured email and password are
    parameters. */
module AdminSetup {
  import opened Common
  import opened Users

  const AdminName := "Admin"

  /** The account the bootstrap creates. */
  function AdminAccount(email: string, password: string): User {
    User(AdminName, email, password, AdminRole)
  }

  /** The user collection after the bootstrap, `newId` being the id the
      insert would get. If the email is taken nothing changes; otherwise
      exactly one administrator named Admin with that email is appended.
      Either way an account with the email is there afterwards. */
  function EnsureAdmin(users: seq<Entry<User>>, email: string, password: string, newId: Id): (r: seq<Entry<User>>)
    ensures FindByEmail(users, email).Some? ==> r == users
    ensures FindByEmail(users, email).None? ==>
              |r| == |users| + 1 && r[..|users|] == users && r[|users|] == Entry(newId, AdminAccount(email, password))
    ensures FindByEmail(r, email).Some?
  {
    if FindByEmail(users, email).Some? then users
    else
      var r := users + [Entry(newId, AdminAccount(email, password))];
      FindByEmailAppend(users, Entry(newId, AdminAccount(email, password)), email);
      r
  }

  /** Running the bootstrap twice has the effect of running it once. */
  lemma EnsureAdminIdempotent(users: seq<Entry<User>>, email: string, password: string, id1: Id, id2: Id)
    ensures EnsureAdmin(EnsureAdmin(users, email, password, id1), email, password, id2)
            == EnsureAdmin(users, email, password, id1)
  {
  }

  /** An account that already has the email keeps its role: an existing
      client account is not promoted, and it is still the account the email
      finds. */
  lemma ExistingAccountKept(users: seq<Entry<User>>, email: string, password: string, newId: Id)
    requires FindByEmail(users, email).Some?
    ensures FindByEmail(EnsureAdmin(users, email, password, newId), email) == FindByEmail(users, email)
  {
  }

  /** After the bootstrap on a collection without the email, the email finds
      the new administrator. */
  lemma NewAdminFound(users: seq<Entry<User>>, email: string, password: string, newId: Id)
    requires FindByEmail(users, email).None?
    ensures FindByEmail(EnsureAdmin(users, email, password, newId), email) ==
            Some(Entry(newId, AdminAccount(email, password)))
  {
    FindByEmailAppend(users, Entry(newId, AdminAccount(email, password)), email);
    assert EnsureAdmin(users, email, password, newId) == users + [Entry(newId, AdminAccount(email, password))];
  }

  /** The `users` collection, in its natural order, and the next id to hand
      out. */
  class UserStore {
    var users: seq<Entry<User>>
    var nextId: Id

    /** Every stored id was handed out before, so `nextId` is unused. */
    ghost predicate Valid()
      reads this
    {
      forall k :: 0 <= k < |users| ==> users[k].id < nextId
    }

    /** A collection holding `initial`, whose ids are all below `next`. */
    constructor (initial: seq<Entry<User>>, next: Id)
      requires forall k :: 0 <= k < |initial| ==> initial[k].id < next
      ensures Valid() && users == initial && nextId == next
    {
      users := initial;
      nextId := next;
    }

    /** `ensureAdminExists`: looks the email up and inserts the administrator
        only if no account has it. */
    method EnsureAdminExists(email: string, password: string)
      requires Valid()
      modifies this
      ensures Valid()
      ensures users == EnsureAdmin(old(users), email, password, old(nextId))
    {
      var existing := FindByEmail(users, email);
      if existing.Some? {
        return;
      }
      users := users + [Entry(nextId, AdminAccount(email, password))];
      nextId := nextId + 1;
    }
  }
}
