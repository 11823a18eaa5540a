/** User accounts as the services see them, and the password digest. */
module Accounts {
  import opened Wrappers
  import opened Query

  /** UserRole. */
  datatype Role = SuperAdmin | OrgAdmin | FormCreator | Viewer

  /** A password digest. bcrypt is salted and one-way; the model keeps only
      what the services rely on: a digest verifies exactly the password it was
      made from. */
  datatype Digest = Digest(secret: string)

  /** `get_password_hash`. */
  function HashPassword(password: string): Digest {
    Digest(password)
  }

  /** `verify_password`. */
  predicate VerifyPassword(password: string, hashed: Digest) {
    hashed.secret == password
  }

  /** A digest verifies the password it was made from and no other. */
  lemma VerifyHash(password: string, other: string)
    ensures VerifyPassword(password, HashPassword(password))
    ensures VerifyPassword(other, HashPassword(password)) <==> other == password
  {
  }

  /** A row of the `users` table. Instants are whole seconds. */
  datatype User = User(
    id: nat,
    email: string,
    username: string,
    hashedPassword: Digest,
    fullName: Option<string>,
    isActive: bool,
    isVerified: bool,
    role: Role,
    createdAt: int,
    lastLogin: Option<int>,
    organizationId: Option<nat>)

  /** The unique constraints of the table: ids, emails and usernames. */
  ghost predicate UniqueUsers(users: seq<User>) {
    forall i, j :: 0 <= i < j < |users| ==>
      users[i].id != users[j].id && users[i].email != users[j].email && users[i].username != users[j].username
  }

  /** `query(User).filter(User.id == id).first()`. */
  function UserById(users: seq<User>, id: int): (r: Option<nat>)
    ensures r.Some? ==> r.value < |users| && users[r.value].id == id
    ensures r.Some? ==> forall j :: 0 <= j < r.value ==> users[j].id != id
    ensures r.None? ==> forall j :: 0 <= j < |users| ==> users[j].id != id
  {
    First(users, (u: User) => u.id == id)
  }

  /** `query(User).filter(User.email == email).first()`. */
  function UserByEmail(users: seq<User>, email: string): (r: Option<nat>)
    ensures r.Some? ==> r.value < |users| && users[r.value].email == email
    ensures r.Some? ==> forall j :: 0 <= j < r.value ==> users[j].email != email
    ensures r.None? ==> forall j :: 0 <= j < |users| ==> users[j].email != email
  {
    First(users, (u: User) => u.email == email)
  }

  /** `query(User).filter(User.username == username).first()`. */
  function UserByUsername(users: seq<User>, username: string): (r: Option<nat>)
    ensures r.Some? ==> r.value < |users| && users[r.value].username == username
    ensures r.Some? ==> forall j :: 0 <= j < r.value ==> users[j].username != username
    ensures r.None? ==> forall j :: 0 <= j < |users| ==> users[j].username != username
  {
    First(users, (u: User) => u.username == username)
  }

  /** `query(User).filter(User.username == username, User.id != id).first()`:
      another account holding the name. */
  function OtherWithUsername(users: seq<User>, username: string, id: int): (r: Option<nat>)
    ensures r.Some? ==> r.value < |users| && users[r.value].username == username && users[r.value].id != id
    ensures r.Some? ==> forall j :: 0 <= j < r.value ==> users[j].username != username || users[j].id == id
    ensures r.None? ==> forall j :: 0 <= j < |users| ==> users[j].username != username || users[j].id == id
  {
    First(users, (u: User) => u.username == username && u.id != id)
  }

  /** With unique ids, the lookup by id finds the one stored user with it. */
  lemma UserByIdFinds(users: seq<User>, k: nat)
    requires UniqueUsers(users)
    requires k < |users|
    ensures UserById(users, users[k].id) == Some(k)
  {
  }

  /** The same for emails. */
  lemma UserByEmailFinds(users: seq<User>, k: nat)
    requires UniqueUsers(users)
    requires k < |users|
    ensures UserByEmail(users, users[k].email) == Some(k)
  {
  }
}
