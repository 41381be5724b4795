/** The user accounts the authentication code looks up. The User schema
    itself (backend/src/models/user.js) is not part of this model: a user here
    is the four fields the rest of the code reads, and the collection is a
    sequence in its natural order, which is the order `findOne` scans. */
module Users {
  import opened Common

  /** The two roles the code tests for (`'admin'`, `'client'`). */
  datatype Role = AdminRole | ClientRole

  function RoleName(r: Role): string {
    match r
    case AdminRole => "admin"
    case ClientRole => "client"
  }

  /** `password` is whatever the User model keeps; checking a password
      against it is a parameter of the code that does so. */
  datatype User = User(name: string, email: string, password: string, role: Role)

  /** The position of the first element that satisfies `p`, if any. */
  function FirstIndex<T>(s: seq<T>, p: T -> bool): (r: Option<nat>)
    ensures r.Some? ==> r.value < |s| && p(s[r.value])
    ensures r.Some? ==> forall j :: 0 <= j < r.value ==> !p(s[j])
    ensures r.None? <==> forall j :: 0 <= j < |s| ==> !p(s[j])
  {
    if s == [] then None
    else if p(s[0]) then Some(0)
    else
      match FirstIndex(s[1..], p)
      case None => None
      case Some(k) => Some(k + 1)
  }

  /** Appending elements does not change where the first match is, if there
      is one already. */
  lemma {:induction false} FirstIndexAppend<T>(s: seq<T>, t: seq<T>, p: T -> bool)
    ensures FirstIndex(s, p).Some? ==> FirstIndex(s + t, p) == FirstIndex(s, p)
    ensures FirstIndex(s, p).None? && FirstIndex(t, p).Some? ==>
              FirstIndex(s + t, p) == Some(|s| + FirstIndex(t, p).value)
  {
    if s != [] && !p(s[0]) {
      FirstIndexAppend(s[1..], t, p);
      assert (s + t)[1..] == s[1..] + t;
    } else if s == [] {
      assert s + t == t;
    }
  }

  /** `User.findOne({ email })`: the first user whose email is exactly
      `email`, with no change of case or white space. */
  function FindByEmail(users: seq<Entry<User>>, email: string): (r: Option<Entry<User>>)
    ensures r.Some? ==> r.value in users && r.value.value.email == email
    ensures r.Some? ==> exists k :: 0 <= k < |users| && users[k] == r.value
                                    && forall j :: 0 <= j < k ==> users[j].value.email != email
    ensures r.None? <==> forall k :: 0 <= k < |users| ==> users[k].value.email != email
  {
    match FirstIndex(users, (u: Entry<User>) => u.value.email == email)
    case None => None
    case Some(k) => Some(users[k])
  }

  /** `User.findById(id)`: the first user with that id. */
  function FindById(users: seq<Entry<User>>, id: Id): (r: Option<Entry<User>>)
    ensures r.Some? ==> r.value in users && r.value.id == id
    ensures r.None? <==> forall k :: 0 <= k < |users| ==> users[k].id != id
  {
    match FirstIndex(users, (u: Entry<User>) => u.id == id)
    case None => None
    case Some(k) => Some(users[k])
  }

  /** Adding a user does not change which user an email finds, if it found
      one already; if it found none, the email finds the added user. */
  lemma FindByEmailAppend(users: seq<Entry<User>>, u: Entry<User>, email: string)
    ensures FindByEmail(users, email).Some? ==> FindByEmail(users + [u], email) == FindByEmail(users, email)
    ensures FindByEmail(users, email).None? && u.value.email == email ==>
              FindByEmail(users + [u], email) == Some(u)
  {
    var p := (e: Entry<User>) => e.value.email == email;
    FirstIndexAppend(users, [u], p);
  }
}
