/** The User schema: a required, unique username; a required, unique
    password that is stored hashed; a `createdAt` default; the `pre('save')`
    hook that hashes the password when it changed; and `correctPassword`. */
module UserModel {
  import opened Common

  /** A stored user; `password` holds the bcrypt hash. */
  datatype User = User(id: Id, username: string, password: string, createdAt: Time)

  const UsernameRequired: string := "Please provide a username"
  /** The schema attaches the username's message to the password path as well. */
  const PasswordRequired: string := "Please provide a username"
  /** The bcrypt work factor the hook passes to `hash`. */
  const HashCost: nat := 12

  /** The `required` rules of a new user, username path first. */
  function NewUserErrors(username: Option<string>, password: Option<string>): (r: seq<FieldError>)
    ensures r == [] <==> Present(username) && Present(password)
    ensures FieldError("username", UsernameRequired) in r <==> !Present(username)
    ensures FieldError("password", PasswordRequired) in r <==> !Present(password)
    ensures forall e :: e in r ==> e == FieldError("username", UsernameRequired) || e == FieldError("password", PasswordRequired)
  {
    (if Present(username) then [] else [FieldError("username", UsernameRequired)])
    + (if Present(password) then [] else [FieldError("password", PasswordRequired)])
  }

  /** The unique index on `username`. */
  predicate UniqueUsernames(users: seq<User>)
  {
    forall i, j :: 0 <= i < j < |users| ==> users[i].username != users[j].username
  }

  /** The unique index on `password` (over the stored hashes). */
  predicate UniquePasswords(users: seq<User>)
  {
    forall i, j :: 0 <= i < j < |users| ==> users[i].password != users[j].password
  }

  /** Every document has its own `_id`. */
  predicate UniqueIds(users: seq<User>)
  {
    forall i, j :: 0 <= i < j < |users| ==> users[i].id != users[j].id
  }

  /** Some stored user already holds this hash. */
  predicate PasswordTaken(users: seq<User>, hash: string)
  {
    exists i :: 0 <= i < |users| && users[i].password == hash
  }

  /** `User.findOne({username})`: the first user, in the collection's
      natural order, with that username. */
  function FindByUsername(users: seq<User>, name: string): (r: Option<User>)
    ensures r.Some? ==> r.value in users && r.value.username == name
    ensures r.None? <==> forall i :: 0 <= i < |users| ==> users[i].username != name
  {
    if users == [] then None
    else if users[0].username == name then Some(users[0])
    else FindByUsername(users[1..], name)
  }

  /** `User.findById(id)`. */
  function FindById(users: seq<User>, id: Id): (r: Option<User>)
    ensures r.Some? ==> r.value in users && r.value.id == id
    ensures r.None? <==> forall i :: 0 <= i < |users| ==> users[i].id != id
  {
    if users == [] then None
    else if users[0].id == id then Some(users[0])
    else FindById(users[1..], id)
  }

  /** With usernames unique, looking up a stored user's name finds that user. */
  lemma FindByUsernameOfMember(users: seq<User>, i: nat)
    requires UniqueUsernames(users) && i < |users|
    ensures FindByUsername(users, users[i].username) == Some(users[i])
  {
  }

  /** A user appended under a name no one holds is the one `findOne` finds. */
  lemma {:induction false} FindByUsernameAppended(users: seq<User>, u: User)
    requires FindByUsername(users, u.username).None?
    ensures FindByUsername(users + [u], u.username) == Some(u)
  {
    if users != [] {
      assert (users + [u])[1..] == users[1..] + [u];
      FindByUsernameAppended(users[1..], u);
    }
  }

  /** `correctPassword(candidatePassword, userPassword)`: bcrypt's compare of
      a plaintext candidate against a stored hash. */
  function CorrectPassword(candidate: string, userPassword: string, compare: (string, string) -> bool): bool
  {
    compare(candidate, userPassword)
  }

  /** A user document in memory, as Mongoose holds it between loading or
      creating it and saving it. */
  class UserDoc {
    const id: Id
    var username: string
    /** `None` once the password has been cleared with `undefined`. */
    var password: Option<string>
    const createdAt: Time
    /** `isModified('password')` */
    var passwordModified: bool

    /** A document built by `User.create`: every path it sets is modified. */
    constructor New(id: Id, username: string, password: string, createdAt: Time)
      ensures this.id == id && this.username == username && this.password == Some(password)
      ensures this.createdAt == createdAt && passwordModified
    {
      this.id := id;
      this.username := username;
      this.password := Some(password);
      this.createdAt := createdAt;
      passwordModified := true;
    }

    /** A document loaded from the collection: no path is modified. */
    constructor Loaded(u: User)
      ensures id == u.id && username == u.username && password == Some(u.password)
      ensures createdAt == u.createdAt && !passwordModified
    {
      id := u.id;
      username := u.username;
      password := Some(u.password);
      createdAt := u.createdAt;
      passwordModified := false;
    }

    /** The `pre('save')` hook: a modified password is replaced by its hash
        at cost 12, salted with the salt bcrypt draws for this call; an
        unmodified one is left alone, so a save that does not touch the
        password never hashes it twice. The hook runs after validation,
        which guarantees a modified password is present. */
    method PreSave(hash: (string, nat, string) -> string, salt: string)
      requires passwordModified ==> password.Some?
      modifies this`password
      ensures passwordModified ==> password == Some(hash(old(password).value, HashCost, salt))
      ensures !passwordModified ==> password == old(password)
    {
      if !passwordModified {
        return;
      }
      password := Some(hash(password.value, HashCost, salt));
    }
  }
}
