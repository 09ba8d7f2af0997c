/** User accounts as the authentication routes see them: the stored account,
    the registration form, the token claims and the reply payload. Password
    hashing is abstracted away: the stored secret is compared for equality,
    where the source hashes it on save and compares with bcrypt. */
module Accounts {

  import opened Common
  import opened Tables

  /** A stored user. New accounts start unverified. */
  datatype Account = Account(
    username: string,
    email: string,
    password: string,
    college: string,
    role: string,
    isVerified: bool)

  /** The body of `POST /register`; a field that was not sent is "". */
  datatype Registration = Registration(
    username: string,
    email: string,
    password: string,
    college: string,
    role: string)

  /** The claims a token carries. The login token has no username. */
  datatype Claims = Claims(userId: nat, role: string, college: string, username: Option<string>)

  /** The `user` object of a reply: the account without its password. */
  datatype Profile = Profile(id: nat, username: string, email: string, role: string, college: string)

  /** The payload of a successful register or login. */
  datatype Session = Session(token: Claims, user: Profile)

  /** The roles a registration may ask for. */
  predicate RegistrableRole(role: string) {
    role == "user" || role == "jobholder"
  }

  /** The first check of `/register`: every field is truthy. */
  predicate Complete(req: Registration) {
    req.username != "" && req.email != "" && req.password != "" && req.college != "" && req.role != ""
  }

  /** The `$or` filter of the duplicate check. */
  predicate Clashes(a: Account, email: string, username: string) {
    a.email == email || a.username == username
  }

  /** No two users share an email, and no two share a username. */
  ghost predicate UniqueIdentities(users: Table<Account>) {
    forall a, b :: a in users && b in users && a != b ==>
      users[a].body.email != users[b].body.email && users[a].body.username != users[b].body.username
  }

  /** The public view of a stored user. */
  function ProfileOf(d: Doc<Account>): Profile {
    Profile(d.id, d.body.username, d.body.email, d.body.role, d.body.college)
  }

  /** The two messages of the duplicate check: which one depends on whether
      the user found has the requested email. */
  function DuplicateMessage(found: Account, email: string): (m: string)
    ensures m == "Email already exists" <==> found.email == email
    ensures m == "Username already exists" <==> found.email != email
  {
    if found.email == email then "Email already exists" else "Username already exists"
  }

  /** The table after `user.isVerified = true; user.save()`: that one flag of
      that one user set, everything else as it was. */
  function MarkVerified(users: Table<Account>, id: nat): (r: Table<Account>)
    requires id in users
    ensures r.Keys == users.Keys
    ensures r[id].body.isVerified && r[id] == users[id].(body := r[id].body)
    ensures r[id].body.(isVerified := users[id].body.isVerified) == users[id].body
    ensures forall k :: k in users && k != id ==> r[k] == users[k]
  {
    users[id := users[id].(body := users[id].body.(isVerified := true))]
  }

  /** Verifying twice is verifying once. */
  lemma MarkVerifiedIdempotent(users: Table<Account>, id: nat)
    requires id in users
    ensures MarkVerified(MarkVerified(users, id), id) == MarkVerified(users, id)
  {
  }
}
